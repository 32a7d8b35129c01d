/** Completing a switch, and the steps by which the protocol makes progress. */
module PreemptProgress {
  import opened Wrappers
  import opened PreemptModel
  import opened PreemptInvariant
  import opened PreemptTheorems

  // ------------------------------------------------ completing a switch

  /** The device once the driver has noticed a completed switch. */
  function TakenOver(d: Device): Device
    requires d.next.Some? && d.next.value < |d.rings|
  {
    var n := d.next.value;
    d.(state := NONE, prev := Some(d.cur), cur := n, next := None, swapped := d.swapped + 1,
       cp := d.cp.(wptr := d.rings[n].wptr))
  }

  lemma SwapHasNext(d: Device, irq: bool)
    requires Inv(World(d, [Swap(irq)]))
    ensures d.next.Some? && d.next.value < |d.rings|
  {
    assert ThreadOk(d, [Swap(irq)][0]);
  }

  lemma TailTakesOver(d: Device, irq: bool, awake: bool)
    requires Inv(World(d, [Swap(irq)]))
    ensures d.next.Some? && d.next.value < |d.rings|
    ensures Inv(World(TakenOver(d), [TryTrigger]))
    ensures Finish(d, Swap(irq), awake) == Finish(TakenOver(d), TryTrigger, awake)
  {
    SwapHasNext(d, irq);
    hide Inv, Finish;
    Onward(d, Swap(irq), awake);
    TailCatchesUp(SwapRings(d), irq, awake);
  }

  lemma TailCatchesUp(d: Device, irq: bool, awake: bool)
    requires Inv(World(d, [UpdateNew(irq)]))
    ensures var d' := d.(state := NONE, cp := d.cp.(wptr := d.rings[d.cur].wptr));
      Inv(World(d', [TryTrigger])) && Finish(d, UpdateNew(irq), awake) == Finish(d', TryTrigger, awake)
  {
    hide Inv, Finish;
    Onward(d, UpdateNew(irq), awake);
    StateIsCleared(UpdateWptr(d), irq, awake);
    assert UpdateWptr(d) == d.(cp := d.cp.(wptr := d.rings[d.cur].wptr));
  }

  lemma StateIsCleared(d: Device, irq: bool, awake: bool)
    requires Inv(World(d, [ClearState(irq)]))
    ensures var d' := d.(state := NONE);
      Inv(World(d', [TryTrigger])) && Finish(d, ClearState(irq), awake) == Finish(d', TryTrigger, awake)
  {
    hide Inv, Finish;
    Onward(d, ClearState(irq), awake);
  }

  /** The completion interrupt of a switch that is through hands over and looks for the next ring. */
  lemma CallbackTakesOver(d: Device, awake: bool)
    requires Inv(World(d, [TryPending])) && d.state == TRIGGERED && !d.cp.cntl
    ensures d.next.Some? && d.next.value < |d.rings|
    ensures Inv(World(TakenOver(d), [TryTrigger]))
    ensures Finish(d, TryPending, awake) == Finish(TakenOver(d), TryTrigger, awake)
  {
    hide Inv, Finish;
    Onward(d, TryPending, awake);
    var d1 := d.(state := PENDING);
    Onward(d1, ReadStatus, awake);
    TailTakesOver(d1, true, awake);
    assert TakenOver(d1) == TakenOver(d);
  }

  /** The same interrupt, too early: the work is left to the dispatcher. */
  lemma EarlyCallbackDefers(d: Device, awake: bool)
    requires Inv(World(d, [TryPending])) && d.state == TRIGGERED && d.cp.cntl
    ensures Finish(d, TryPending, awake) == d.(state := COMPLETE)
  {
    hide Inv, Finish;
    Onward(d, TryPending, awake);
    var d1 := d.(state := PENDING);
    Onward(d1, ReadStatus, awake);
    FinishReturned(d1.(state := COMPLETE), awake);
  }

  /** An interrupt that belongs to no armed switch does nothing. */
  lemma StrayCallbackReturns(d: Device, awake: bool)
    requires Inv(World(d, [TryPending])) && d.state != TRIGGERED
    ensures Finish(d, TryPending, awake) == d
  {
    hide Inv, Finish;
    Onward(d, TryPending, awake);
    FinishReturned(d, awake);
  }

  /** A dispatcher pass that finds COMPLETE finds a ring to take over. */
  lemma CompleteHasNext(d: Device)
    requires Inv(World(d, [SchedLock])) && d.state == COMPLETE
    ensures d.next.Some? && d.next.value < |d.rings|
  {
    var threads := [SchedLock];
    assert !Manned(threads);
  }

  /** The dispatcher pass ends up exactly where the interrupt would have. */
  lemma ScheduleTakesOver(d: Device)
    requires Inv(World(d, [SchedLock])) && d.state == COMPLETE && !d.cp.cntl
    ensures d.next.Some? && d.next.value < |d.rings|
    ensures Inv(World(TakenOver(d), [TryTrigger]))
    ensures Finish(d, SchedLock, true) == Finish(TakenOver(d), TryTrigger, true)
  {
    hide Inv, Finish;
    Onward(d, SchedLock, true);
    Onward(d, SchedLook, true);
    Onward(d, DoneStatus, true);
    TailTakesOver(d, false, true);
  }

  /** Power off or a switch that is still not through: the dispatcher pass changes nothing. */
  lemma ScheduleWaits(d: Device, awake: bool)
    requires Inv(World(d, [SchedLock])) && d.state == COMPLETE && (!awake || d.cp.cntl)
    ensures Finish(d, SchedLock, awake) == d
  {
    hide Inv, Finish;
    Onward(d, SchedLock, awake);
    Onward(d, SchedLook, awake);
    Onward(d, DoneStatus, awake);
    TriggerNeedsNone(d, awake);
  }

  /** A dispatcher pass that finds no completed preemption is a trigger. */
  lemma ScheduleTriggers(d: Device, awake: bool)
    requires Inv(World(d, [SchedLock])) && d.state != COMPLETE
    ensures Inv(World(d, [TryTrigger]))
    ensures Finish(d, SchedLock, awake) == Finish(d, TryTrigger, awake)
  {
    hide Inv, Finish;
    Onward(d, SchedLock, awake);
    Onward(d, SchedLook, awake);
  }

  /** After a timeout the worker gives a finished switch to the dispatcher and nothing else. */
  lemma WorkerRechecks(d: Device, awake: bool)
    requires Inv(World(d, [WorkLock]))
    ensures Finish(d, WorkLock, awake)
         == if d.state == FAULTED && awake && !d.cp.cntl then d.(state := COMPLETE) else d
  {
    hide Inv, Finish;
    Onward(d, WorkLock, awake);
    Onward(d, WorkLook, awake);
    if d.state == FAULTED {
      Onward(d, FaultStatus, awake);
      FinishReturned(if awake && !d.cp.cntl then d.(state := COMPLETE) else d, awake);
    } else {
      FinishReturned(d, awake);
    }
  }

  /** The timer: a switch that is still TRIGGERED is declared dead, and nothing else changes. */
  lemma TimerDeclaresDead(d: Device, awake: bool)
    requires Inv(World(d, [TryFaulted]))
    ensures Finish(d, TryFaulted, awake) == if d.state == TRIGGERED then d.(state := FAULTED) else d
  {
    hide Inv, Finish;
    Onward(d, TryFaulted, awake);
    FinishReturned(if d.state == TRIGGERED then d.(state := FAULTED) else d, awake);
  }

  // ------------------------------------------ runs and what is pending

  lemma {:induction false} RunConcat(w: World, s: seq<Step>, w1: World, t: seq<Step>, w2: World)
    requires IsRun(w, s, w1) && IsRun(w1, t, w2)
    ensures IsRun(w, s + t, w2)
    decreases |s|
  {
    if s == [] {
      assert s + t == t;
    } else {
      RunConcat(Apply(w, s[0]), s[1..], w1, t, w2);
      assert (s + t)[1..] == s[1..] + t;
    }
  }

  /** Submissions published to a ring and not yet run. */
  function Outstanding(r: Ring): nat {
    if r.wptr >= |r.ran| then r.wptr - |r.ran| else 0
  }

  function Pending(rings: seq<Ring>): nat {
    if rings == [] then 0 else Pending(rings[..|rings| - 1]) + Outstanding(rings[|rings| - 1])
  }

  lemma {:induction false} PendingUpdate(rings: seq<Ring>, i: nat, r: Ring)
    requires i < |rings|
    ensures Pending(rings[i := r]) == Pending(rings) - Outstanding(rings[i]) + Outstanding(r)
  {
    var n := |rings| - 1;
    if i == n {
      assert rings[i := r][..n] == rings[..n];
    } else {
      assert rings[i := r][..n] == rings[..n][i := r];
      PendingUpdate(rings[..n], i, r);
    }
  }

  lemma {:induction false} PendingZero(rings: seq<Ring>)
    ensures Pending(rings) == 0 <==> forall i | 0 <= i < |rings| :: Outstanding(rings[i]) == 0
  {
    if rings != [] {
      var n := |rings| - 1;
      PendingZero(rings[..n]);
      assert forall i | 0 <= i < n :: rings[..n][i] == rings[i];
    }
  }

  predicate AllReturned(threads: seq<Pc>) {
    forall k | 0 <= k < |threads| :: threads[k] == Returned
  }

  lemma QuietInv(d: Device, threads: seq<Pc>, pc: Pc)
    requires AllReturned(threads) && Inv(World(d, threads)) && EntryPoint(pc)
    ensures Inv(World(d, [pc]))
  {
    assert forall k | 0 <= k < |threads| :: !Owner(threads[k]);
  }

  lemma StepAmongReturned(d: Device, threads: seq<Pc>, pc: Pc, awake: bool)
    requires AllReturned(threads) && SafeAt(d, pc)
    ensures var w, s := World(d, threads + [pc]), Thread(|threads|, awake);
      var (d', pc') := Advance(d, pc, awake);
      Enabled(w, s) && Safe(w, s) && Apply(w, s) == World(d', threads + [pc'])
  {
    var w := World(d, threads + [pc]);
    assert w.threads[|threads|] == pc;
    assert pc.SchedLock? || pc.WorkLock? ==> MutexFree(w.threads);
    assert w.threads[|threads| := Advance(d, pc, awake).1] == threads + [Advance(d, pc, awake).1];
  }

  /** A thread that runs undisturbed among threads that have returned. */
  lemma {:induction false} FinishAmongReturned(d: Device, threads: seq<Pc>, pc: Pc, awake: bool)
    returns (steps: seq<Step>)
    requires AllReturned(threads) && Inv(World(d, [pc]))
    ensures IsRun(World(d, threads + [pc]), steps, World(Finish(d, pc, awake), threads + [Returned]))
    decreases Rank(|d.rings|, pc)
  {
    if pc == Returned {
      steps := [];
    } else {
      AdvanceAlone(d, pc, awake);
      Onward(d, pc, awake);
      var (d', pc') := Advance(d, pc, awake);
      var rest := FinishAmongReturned(d', threads, pc', awake);
      StepAmongReturned(d, threads, pc, awake);
      steps := PrependStep(World(d, threads + [pc]), Thread(|threads|, awake), rest,
                           World(Finish(d, pc, awake), threads + [Returned]));
    }
  }

  lemma PrependStep(w: World, s: Step, rest: seq<Step>, w': World) returns (steps: seq<Step>)
    requires Enabled(w, s) && Safe(w, s) && IsRun(Apply(w, s), rest, w')
    ensures IsRun(w, steps, w')
  {
    steps := [s] + rest;
    assert steps[1..] == rest;
  }

  // ------------------------------------------------ nothing gets stuck

  /** The CP runs one submission. */
  lemma RunShrinksPending(w: World)
    requires Inv(w) && w.d.cp.rptr < w.d.cp.wptr
    ensures Safe(w, Run) && Inv(Apply(w, Run))
    ensures Pending(Apply(w, Run).d.rings) == Pending(w.d.rings) - 1
  {
    StepKeepsInv(w, Run);
    var b := w.d.cp.rbBase;
    var r := Apply(w, Run).d.rings[b];
    CpRunKeepsDevice(w.d);
    assert Apply(w, Run).d.rings == w.d.rings[b := r];
    PendingUpdate(w.d.rings, b, r);
  }

  /** The CP is idle and has said so. */
  predicate IdleCp(d: Device) {
    && d.cp.rbBase < |d.rings|
    && d.cp.rptr == d.cp.wptr && d.rings[d.cp.rbBase].shadowRptr == d.cp.rptr
  }

  /**
   No stall: when the CP sits idle and one more trigger comes, then either
   nothing is outstanding, or the CP has something to run, or it can switch
   to a ring that has.
   */
  lemma TriggerFindsWork(d: Device)
    requires Inv(World(d, [TryTrigger])) && d.state == NONE && IdleCp(d)
    ensures var n, r := FirstBusy(d.rings, 0), Finish(d, TryTrigger, true);
      if n == |d.rings| then Pending(d.rings) == 0 && r == d
      else if n == d.cur then r.state == NONE && r.cp.rptr < r.cp.wptr && r.rings == d.rings
      else r.state == TRIGGERED && r.cp.cntl && Enabled(World(r, []), HwSwitch) && r.next == Some(n)
  {
    TriggerAlone(d, true);
    var n := FirstBusy(d.rings, 0);
    assert forall i | 0 <= i < |d.rings| :: RingOk(d.rings[i], i, d.defaultTtbr0);
    if n == |d.rings| {
      forall i | 0 <= i < |d.rings| ensures Outstanding(d.rings[i]) == 0 {
        assert LooksEmpty(d.rings[i]);
        assert i != d.cp.rbBase ==> ParkedOk(d.rings[i]);
      }
      PendingZero(d.rings);
    }
  }

  /** The same submissions are on the rings, however far the CP has come. */
  predicate SameSubmissions(d: Device, d': Device) {
    && |d'.rings| == |d.rings|
    && forall i | 0 <= i < |d.rings| :: d'.rings[i].mem == d.rings[i].mem && d'.rings[i].wptr == d.rings[i].wptr
  }

  lemma {:induction false} SamePending(a: seq<Ring>, b: seq<Ring>)
    requires |a| == |b| && forall i | 0 <= i < |a| :: Outstanding(a[i]) == Outstanding(b[i])
    ensures Pending(a) == Pending(b)
  {
    if a != [] {
      var n := |a| - 1;
      assert forall i | 0 <= i < n :: a[..n][i] == a[i] && b[..n][i] == b[i];
      SamePending(a[..n], b[..n]);
    }
  }

  lemma {:induction false} FirstBusyIs(rings: seq<Ring>, i: nat, n: nat)
    requires i <= n < |rings| && !LooksEmpty(rings[n])
    requires forall k | i <= k < n :: LooksEmpty(rings[k])
    ensures FirstBusy(rings, i) == n
    decreases n - i
  {
    if i < n { FirstBusyIs(rings, i + 1, n); }
  }

  /** The CP stands where it may switch. */
  predicate AtSwitchPoint(d: Device) {
    d.cp.cntl && (d.cp.yielded || d.cp.rptr == d.cp.wptr)
  }

  lemma SwitchKeepsShadows(d: Device)
    requires DeviceOk(d) && AtSwitchPoint(d)
    ensures DeviceOk(CpSwitch(d)) && d.cp.save == d.cp.rbBase
    ensures var d' := CpSwitch(d);
      && SameSubmissions(d, d') && Pending(d'.rings) == Pending(d.rings)
      && d'.cp.rbBase == d.cp.restore && d'.cp.rptr < d'.cp.wptr && !d'.cp.cntl
      && d'.state == d.state && d'.next == d.next
      && forall i | 0 <= i < |d.rings| && (i != d.cp.rbBase || LooksEmpty(d.rings[i])) ::
           d'.rings[i].shadowRptr == d.rings[i].shadowRptr
  {
    CpSwitchKeepsDevice(d);
    assert RingOk(d.rings[d.cp.rbBase], d.cp.rbBase, d.defaultTtbr0);
    SamePending(d.rings, CpSwitch(d).rings);
  }

  /** What the two exits of a trigger, spelt out, come to. */
  lemma ExitsCompared(d: Device, r: Device, n: nat)
    requires n == FirstBusy(d.rings, 0) && IdleCp(d) && d.cur < |d.rings|
    requires if n == |d.rings| || n == d.cur then r.rings == d.rings
      else
        && r.state == TRIGGERED && r.cp == d.cp.(cntl := true, restore := n) && r.next == Some(n)
        && r.rings == d.rings[n := d.rings[n].(desc := d.rings[n].desc.(wptr := d.rings[n].wptr))]
    ensures SameSubmissions(d, r) && Pending(r.rings) == Pending(d.rings)
    ensures n < |d.rings| ==> FirstBusy(r.rings, 0) == n
    ensures n < |d.rings| && n != d.cur ==> IdleCp(r)
  {
    SamePending(d.rings, r.rings);
    if n < |d.rings| { FirstBusyIs(r.rings, 0, n); }
  }

  lemma TriggerOutcome(d: Device)
    requires Inv(World(d, [TryTrigger])) && d.state == NONE && IdleCp(d)
    ensures var r, n := Finish(d, TryTrigger, true), FirstBusy(d.rings, 0);
      && SameSubmissions(d, r) && Pending(r.rings) == Pending(d.rings)
      && (r.state == NONE ==> Pending(d.rings) == 0 || r.cp.rptr < r.cp.wptr)
      && (r.state != NONE ==>
            r.state == TRIGGERED && r.cp.cntl && IdleCp(r) && n < |r.rings| && r.next == Some(n)
            && FirstBusy(r.rings, 0) == n)
  {
    assert d.cur < |d.rings|;
    hide Inv, Finish, Pending, IdleCp, SameSubmissions;
    TriggerFindsWork(d);
    TriggerAlone(d, true);
    ExitsCompared(d, Finish(d, TryTrigger, true), FirstBusy(d.rings, 0));
  }

  // ------------------------------------------ between two passes

  /** With no thread in the driver the state is NONE or a switch is under way. */
  lemma UnmannedStates(w: World)
    requires Inv(w) && AllReturned(w.threads)
    ensures w.d.state == NONE
      || ((w.d.state == TRIGGERED || w.d.state == FAULTED || w.d.state == COMPLETE) && Armed(w.d))
  {
    assert forall k | 0 <= k < |w.threads| :: !Owner(w.threads[k]);
  }

  // ----------------------------------- letting the threads return

  function TotalRank(rings: nat, threads: seq<Pc>): nat {
    if threads == [] then 0 else TotalRank(rings, threads[..|threads| - 1]) + Rank(rings, threads[|threads| - 1])
  }

  lemma {:induction false} RankUpdate(rings: nat, threads: seq<Pc>, k: nat, pc: Pc)
    requires k < |threads|
    ensures TotalRank(rings, threads[k := pc]) == TotalRank(rings, threads) - Rank(rings, threads[k]) + Rank(rings, pc)
  {
    var n := |threads| - 1;
    if k == n {
      assert threads[k := pc][..n] == threads[..n];
    } else {
      assert threads[k := pc][..n] == threads[..n][k := pc];
      RankUpdate(rings, threads[..n], k, pc);
    }
  }

  /** Some thread can act: the one that holds the mutex, or if nobody does any one that has not returned. */
  lemma SomeoneCanAct(w: World) returns (k: nat)
    requires !AllReturned(w.threads)
    ensures k < |w.threads| && w.threads[k] != Returned && Enabled(w, Thread(k, true))
  {
    if MutexFree(w.threads) {
      k :| 0 <= k < |w.threads| && w.threads[k] != Returned;
    } else {
      k :| 0 <= k < |w.threads| && HoldsMutex(w.threads[k]);
    }
  }

  lemma ActingGoesOn(w: World, k: nat)
    requires Inv(w) && k < |w.threads| && w.threads[k] != Returned && Enabled(w, Thread(k, true))
    ensures Safe(w, Thread(k, true))
    ensures var w' := Apply(w, Thread(k, true));
      && Inv(w') && SameSubmissions(w.d, w'.d)
      && TotalRank(|w'.d.rings|, w'.threads) < TotalRank(|w.d.rings|, w.threads)
  {
    ThreadKeepsInv(w, k, true);
    var pc, w' := w.threads[k], Apply(w, Thread(k, true));
    AdvanceGoesOn(w.d, pc, true);
    RankUpdate(|w.d.rings|, w.threads, k, Advance(w.d, pc, true).1);
    forall i | 0 <= i < |w.d.rings|
      ensures w'.d.rings[i].mem == w.d.rings[i].mem && w'.d.rings[i].wptr == w.d.rings[i].wptr
    {
      ThreadsDoNotSubmit(w.d, pc, true, i);
    }
  }
}
