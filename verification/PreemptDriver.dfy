/**
 The functions of adreno_a5xx_preempt.c as they update the device in place.
 Each is proved against the step machine: run without interference it leaves
 the device exactly as its thread of the machine does.
 */
module PreemptDriver {
  import opened Wrappers
  import opened PreemptModel
  import opened PreemptInvariant
  import opened PreemptTheorems
  import opened PreemptProgress

  class Driver {
    var rings: seq<Ring>
    var state: PreemptState
    var cur: RingId
    var next: Option<RingId>
    var prev: Option<RingId>
    var smmuInfo: Smmu
    var cp: Cp
    const defaultTtbr0: nat
    ghost var armed: nat
    ghost var swapped: nat

    ghost function View(): Device
      reads this
    {
      Device(rings, state, cur, next, prev, smmuInfo, cp, defaultTtbr0, armed, swapped)
    }

    /** A thread may enter the driver here while nobody else is in it. */
    ghost predicate MayEnter(pc: Pc)
      reads this
    {
      Inv(World(View(), [pc]))
    }

    constructor (count: nat, defaultTtbr0: nat)
      requires 0 < count
      ensures Initial(World(View(), []))
      ensures |rings| == count && this.defaultTtbr0 == defaultTtbr0
    {
      var table := Smmu(defaultTtbr0, 0);
      this.defaultTtbr0 := defaultTtbr0;
      rings := seq(count, i requires 0 <= i => Ring([], 0, 0, Record(i, 0, 0), table, None, []));
      state, cur, next, prev := NONE, 0, None, None;
      smmuInfo := table;
      cp := Cp(0, 0, 0, false, 0, 0, table, true);
      armed, swapped := 0, 0;
    }

    /** a5xx_preemption_start: what it clears, ring by ring; next_rb is not among it. */
    method PreemptionStart()
      modifies this
      ensures state == NONE && smmuInfo == Smmu(defaultTtbr0, 0)
      ensures |rings| == |old(rings)|
      ensures forall i | 0 <= i < |rings| ::
        rings[i] == old(rings)[i].(desc := Record(old(rings)[i].desc.rbase, 0, 0), scratch := Smmu(defaultTtbr0, 0))
      ensures cur == old(cur) && next == old(next) && prev == old(prev) && cp == old(cp)
    {
      state := NONE;
      smmuInfo := Smmu(defaultTtbr0, 0);
      var i := 0;
      while i < |rings|
        invariant 0 <= i <= |rings| == |old(rings)|
        invariant forall k | 0 <= k < i ::
          rings[k] == old(rings)[k].(desc := Record(old(rings)[k].desc.rbase, 0, 0), scratch := Smmu(defaultTtbr0, 0))
        invariant forall k | i <= k < |rings| :: rings[k] == old(rings)[k]
        invariant state == NONE && smmuInfo == Smmu(defaultTtbr0, 0)
        invariant cur == old(cur) && next == old(next) && prev == old(prev) && cp == old(cp)
      {
        rings := rings[i := rings[i].(desc := rings[i].desc.(rptr := 0, wptr := 0))];
        rings := rings[i := rings[i].(scratch := Smmu(defaultTtbr0, 0))];
        i := i + 1;
      }
    }

    /** The ring part of a5xx_rb_start and adreno_set_active_ctxs_null, with the CP reset onto cur_rb. */
    method RbStart()
      requires cur < |rings|
      requires state == NONE
      requires forall i | 0 <= i < |rings| ::
        rings[i].desc == Record(i, 0, 0) && rings[i].scratch == Smmu(defaultTtbr0, 0)
      modifies this
      ensures Initial(World(View(), []))
      ensures |rings| == |old(rings)| && cur == old(cur) && next == old(next)
    {
      var i := 0;
      while i < |rings|
        invariant 0 <= i <= |rings| == |old(rings)| && cur == old(cur) && next == old(next) && state == NONE
        invariant forall k | 0 <= k < |rings| ::
          rings[k].desc == Record(k, 0, 0) && rings[k].scratch == Smmu(defaultTtbr0, 0)
        invariant forall k | 0 <= k < i ::
          rings[k] == Ring([], 0, 0, Record(k, 0, 0), Smmu(defaultTtbr0, 0), None, [])
      {
        rings := rings[i := rings[i].(mem := [], wptr := 0, shadowRptr := 0, active := None, ran := [])];
        i := i + 1;
      }
      cp := Cp(cur, 0, 0, false, cp.restore, cur, Smmu(defaultTtbr0, 0), true);
      armed, swapped := 0, 0;
    }

    /** adreno_move_preempt_state: atomic_cmpxchg. */
    method MovePreemptState(from: PreemptState, to: PreemptState) returns (moved: bool)
      modifies this`state
      ensures moved <==> old(state) == from
      ensures state == if moved then to else old(state)
    {
      moved := state == from;
      if moved { state := to; }
    }

    /** _update_wptr. */
    method UpdateWptr()
      requires cur < |rings|
      modifies this`cp
      ensures View() == PreemptModel.UpdateWptr(old(View()))
      ensures cp.wptr == rings[cur].wptr
    {
      var wptr := cp.wptr;
      if wptr != rings[cur].wptr {
        cp := cp.(wptr := rings[cur].wptr);
      }
    }

    /** a5xx_ringbuffer_submit, from the lock on. */
    method RingbufferSubmit(i: RingId)
      requires i < |rings|
      modifies this`cp, this`rings
      ensures View() == Publish(old(View()), i)
      ensures rings[i].wptr == |rings[i].mem|
    {
      if state == NONE {
        if cur == i {
          cp := cp.(wptr := |rings[i].mem|);
        }
      }
      rings := rings[i := rings[i].(wptr := |rings[i].mem|)];
    }

    /** a5xx_drawctxt_switch with a5xx_rb_context_switch; `ok` is the outcome of addcmds, which is dropped. */
    method SwitchContext(i: RingId, ctx: Context, ok: bool)
      requires i < |rings|
      modifies this`rings
      ensures View() == DrawctxtSwitch(old(View()), i, ctx, ok)
      ensures rings[i].active == Some(ctx)
    {
      var active := rings[i].active;
      if active == Some(ctx) {
        return;
      }
      var update: Option<Smmu> := None;
      if active.None? || active.value.ttbr0 != ctx.ttbr0 {
        if ctx.ttbr0 != defaultTtbr0 {
          update := Some(Smmu(ctx.ttbr0, ctx.id));
        }
      }
      if ok {
        rings := rings[i := rings[i].(mem := rings[i].mem + [Entry(i, update, i, SwitchTo(ctx))])];
      }
      rings := rings[i := rings[i].(active := Some(ctx))];
    }

    /** a5xx_next_ringbuffer: the highest-priority ring that does not look empty. */
    method NextRingbuffer() returns (n: Option<RingId>)
      ensures n == if FirstBusy(rings, 0) < |rings| then Some(FirstBusy(rings, 0)) else None
    {
      var i := 0;
      while i < |rings|
        invariant 0 <= i <= |rings|
        invariant FirstBusy(rings, 0) == FirstBusy(rings, i)
      {
        var empty := rings[i].shadowRptr == rings[i].wptr;
        if !empty {
          return Some(i);
        }
        i := i + 1;
      }
      return None;
    }

    /** a5xx_preemption_trigger. */
    method PreemptionTrigger()
      requires MayEnter(TryTrigger)
      modifies this
      ensures View() == Finish(old(View()), TryTrigger, true)
    {
      hide Inv, Finish, FirstBusy;
      ghost var before := View();
      var moved := MovePreemptState(NONE, START);
      if !moved {
        TriggerNeedsNone(before, true);
        return;
      }
      var n := NextRingbuffer();
      TriggerEnds(before);
      if n.None? || n == Some(cur) {
        if n.Some? {
          UpdateWptr();
        }
        state := NONE;
      } else {
        ProgramCp(n.value);
      }
    }

    /** adreno_preemption_timer; `queued` reports whether the worker is queued. */
    method PreemptionTimer() returns (queued: bool)
      requires MayEnter(TryFaulted)
      modifies this`state
      ensures queued <==> old(state) == TRIGGERED
      ensures state == if queued then FAULTED else old(state)
      ensures View() == Finish(old(View()), TryFaulted, true)
    {
      hide Inv, Finish;
      TimerDeclaresDead(View(), true);
      queued := MovePreemptState(TRIGGERED, FAULTED);
    }

    /** The critical section of a5xx_preemption_trigger, from the record to CONTEXT_SWITCH_CNTL. */
    method ProgramCp(n: RingId)
      requires n < |rings|
      modifies this
      ensures View() == ArmSwitch(ProgramSwitch(FillRecord(old(View()), n), n, old(rings)[n].scratch))
    {
      var table := rings[n].scratch;
      rings := rings[n := rings[n].(desc := rings[n].desc.(wptr := rings[n].wptr))];
      smmuInfo := table;
      cp := cp.(restore := n);
      next := Some(n);
      state := TRIGGERED;
      cp := cp.(cntl := true);
      armed := armed + 1;
    }

    /** a5xx_preempt_callback. */
    method PreemptCallback()
      requires MayEnter(TryPending)
      modifies this
      ensures View() == Finish(old(View()), TryPending, true)
    {
      hide Inv, Finish;
      ghost var before := View();
      var moved := MovePreemptState(TRIGGERED, PENDING);
      if !moved {
        StrayCallbackReturns(before, true);
        return;
      }
      if cp.cntl {
        EarlyCallbackDefers(before, true);
        state := COMPLETE;
        return;
      }
      CallbackTakesOver(before, true);
      TakeOver();
      state := NONE;
      PreemptionTrigger();
    }

    /** The part that a5xx_preempt_callback and _a5xx_preemption_done share. */
    method TakeOver()
      requires next.Some? && next.value < |rings|
      modifies this
      ensures View() == TakenOver(old(View())).(state := old(state))
    {
      prev := Some(cur);
      cur := next.value;
      next := None;
      swapped := swapped + 1;
      UpdateWptr();
    }

    /** _a5xx_preemption_done; `fault` reports the call of adreno_dispatcher_fault. */
    method PreemptionDone(awake: bool) returns (fault: bool)
      requires next.Some? && next.value < |rings|
      modifies this
      ensures fault <==> awake && old(cp.cntl)
      ensures View() == if awake && !old(cp.cntl) then TakenOver(old(View())) else old(View())
    {
      if !awake {
        return false;
      }
      if cp.cntl {
        return true;
      }
      TakeOver();
      state := NONE;
      return false;
    }

    /** a5xx_preemption_schedule. */
    method PreemptionSchedule(awake: bool) returns (fault: bool)
      requires MayEnter(SchedLock)
      modifies this
      ensures View() == Finish(old(View()), SchedLock, awake)
      ensures fault <==> old(state) == COMPLETE && awake && old(cp.cntl)
    {
      hide Inv, Finish;
      ghost var before := View();
      fault := false;
      if state == COMPLETE {
        CompleteHasNext(before);
        Onward(before, SchedLock, awake);
        Onward(before, SchedLook, awake);
        fault := PreemptionDone(awake);
        if awake && !before.cp.cntl {
          ScheduleTakesOver(before);
        } else {
          ScheduleWaits(before, awake);
          Onward(before, DoneStatus, awake);
        }
      } else {
        ScheduleTriggers(before, awake);
      }
      ghost var middle := View();
      PreemptionTrigger();
      AwakeIsNoMatter(middle, awake);
    }

    /** _a5xx_preemption_worker with _a5xx_preemption_fault. */
    method PreemptionWorker(awake: bool) returns (fault: bool)
      requires MayEnter(WorkLock)
      modifies this
      ensures View() == Finish(old(View()), WorkLock, awake)
      ensures fault <==> old(state) == FAULTED && (!awake || old(cp.cntl))
    {
      WorkerRechecks(View(), awake);
      fault := false;
      if state == FAULTED {
        if awake {
          if !cp.cntl {
            state := COMPLETE;
            return;
          }
        }
        fault := true;
      }
    }
  }

  /** The trigger part of a pass does not look at the power state. */
  lemma AwakeIsNoMatter(d: Device, awake: bool)
    requires Inv(World(d, [TryTrigger]))
    ensures Finish(d, TryTrigger, awake) == Finish(d, TryTrigger, true)
  {
    if d.state == NONE {
      var d1, n := d.(state := START), FirstBusy(d.rings, 0);
      TriggerScans(d, awake);
      TriggerScans(d, true);
      if n == |d.rings| {
        ScanFindsNothing(d1, awake);
        ScanFindsNothing(d1, true);
      } else if n == d.cur {
        ScanFindsCurrent(d1, awake);
        ScanFindsCurrent(d1, true);
      } else {
        ScanFindsOther(d1, n, awake);
        ScanFindsOther(d1, n, true);
      }
    } else {
      TriggerNeedsNone(d, awake);
      TriggerNeedsNone(d, true);
    }
  }

  /** Where an undisturbed trigger ends, by what its scan finds. */
  lemma TriggerEnds(d: Device)
    requires Inv(World(d, [TryTrigger])) && d.state == NONE
    ensures d.cur < |d.rings|
    ensures var n, r := FirstBusy(d.rings, 0), Finish(d, TryTrigger, true);
      if n == |d.rings| then r == d
      else if n == d.cur then r == PreemptModel.UpdateWptr(d)
      else r == ArmSwitch(ProgramSwitch(FillRecord(d, n), n, d.rings[n].scratch))
  {
    assert d.cur < |d.rings|;
    hide Inv, Finish;
    var d1, n := d.(state := START), FirstBusy(d.rings, 0);
    TriggerScans(d, true);
    if n == |d.rings| {
      ScanFindsNothing(d1, true);
    } else if n == d.cur {
      ScanFindsCurrent(d1, true);
    } else {
      ScanFindsOther(d1, n, true);
    }
  }
}
