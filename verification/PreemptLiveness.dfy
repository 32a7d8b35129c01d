/** Why no submission is lost, and exactly when one lies where nobody will look for it. */
module PreemptLiveness {
  import opened Wrappers
  import opened PreemptModel
  import opened PreemptInvariant
  import opened PreemptTheorems
  import opened PreemptProgress
  import opened PreemptTables
  import opened PreemptEvents

  // ------------------------------------------------- runs and their parts

  predicate Publishes(c: Cause) {
    c.Plain? && c.s.Wptr?
  }

  predicate NothingPublished(causes: seq<Cause>) {
    forall k | 0 <= k < |causes| :: !Publishes(causes[k])
  }

  lemma Prepend(l: Live, c: Cause, rest: seq<Cause>, l': Live) returns (causes: seq<Cause>)
    requires Possible(l, c) && !Publishes(c) && LiveRun(Happen(l, c), rest, l') && NothingPublished(rest)
    ensures LiveRun(l, causes, l') && NothingPublished(causes)
  {
    causes := [c] + rest;
    assert causes[1..] == rest;
  }

  lemma {:induction false} Concat(l: Live, a: seq<Cause>, l1: Live, b: seq<Cause>, l2: Live)
    requires LiveRun(l, a, l1) && LiveRun(l1, b, l2)
    ensures LiveRun(l, a + b, l2)
    decreases |a|
  {
    if a == [] {
      assert a + b == b;
    } else {
      Concat(Happen(l, a[0]), a[1..], l1, b, l2);
      assert (a + b)[1..] == a[1..] + b;
    }
  }

  /** What is published stays, and nothing is added to it. */
  predicate Kept(d: Device, d': Device) {
    && |d'.rings| == |d.rings| && d'.defaultTtbr0 == d.defaultTtbr0
    && forall i | 0 <= i < |d.rings| :: d'.rings[i].wptr == d.rings[i].wptr && d.rings[i].mem <= d'.rings[i].mem
  }

  lemma StepKeeps(l: Live, c: Cause)
    requires LiveInv(l) && Possible(l, c) && !Publishes(c)
    ensures Kept(l.w.d, Happen(l, c).w.d)
  {
    hide CallbacksOk, Noticed, Next, Inv;
    if !c.CounterLooks? {
      WorldKeeps(l.w, if c.Plain? then c.s else Spawn(EntryOf(c)));
    }
  }

  lemma WorldKeeps(w: World, s: Step)
    requires Inv(w) && Enabled(w, s) && !s.Wptr?
    ensures Safe(w, s) && Kept(w.d, Apply(w, s).d)
  {
    InvIsSafe(w, s);
    var d, d' := w.d, Apply(w, s).d;
    assert d'.defaultTtbr0 == d.defaultTtbr0;
    assert d.cur < |d.rings|;
    hide Inv, Apply;
    HistoryIsKept(w, s, d.cur);
    forall i | 0 <= i < |d.rings| ensures d'.rings[i].wptr == d.rings[i].wptr && d.rings[i].mem <= d'.rings[i].mem {
      HistoryIsKept(w, s, i);
    }
  }

  lemma {:induction false} RunKeeps(l: Live, causes: seq<Cause>, l': Live)
    requires LiveInv(l) && LiveRun(l, causes, l') && NothingPublished(causes)
    ensures Kept(l.w.d, l'.w.d) && LiveInv(l')
    decreases |causes|
  {
    if causes != [] {
      assert !Publishes(causes[0]);
      StepKeeps(l, causes[0]);
      LiveStep(l, causes[0]);
      var l1 := Happen(l, causes[0]);
      hide LiveInv, Possible, Happen;
      assert forall k | 0 <= k < |causes| - 1 :: causes[1..][k] == causes[k + 1];
      RunKeeps(l1, causes[1..], l');
      KeptTrans(l.w.d, l1.w.d, l'.w.d);
    }
  }

  lemma KeptTrans(a: Device, b: Device, c: Device)
    requires Kept(a, b) && Kept(b, c)
    ensures Kept(a, c)
  {}

  // ------------------------------------------------------ undisturbed passes

  /** No thread is in the driver and no fault was raised. */
  predicate Quiet(l: Live) {
    LiveInv(l) && AllReturned(l.w.threads) && !l.e.broken
  }

  /** A thread that is going to look at the status finds the switch over. */
  predicate Careful(d: Device, pc: Pc) {
    pc.SchedLock? || pc.SchedLook? || pc.DoneStatus? || pc.WorkLock? || pc.WorkLook? || pc.FaultStatus? ==> !d.cp.cntl
  }

  lemma CarefulGoesOn(d: Device, pc: Pc, e: Events)
    requires SafeAt(d, pc) && Careful(d, pc) && !e.broken
    ensures Careful(d, pc) && Careful(Advance(d, pc, true).0, Advance(d, pc, true).1)
    ensures !SetsOff(d, pc, true, e).broken
  {}

  lemma Act(l: Live, threads: seq<Pc>, pc: Pc) returns (l': Live)
    requires LiveInv(l) && !l.e.broken && AllReturned(threads) && l.w.threads == threads + [pc]
    requires SafeAt(l.w.d, pc) && Careful(l.w.d, pc)
    ensures var c, (d', pc') := Plain(Thread(|threads|, true)), Advance(l.w.d, pc, true);
      && Possible(l, c) && l' == Happen(l, c) && LiveInv(l') && !l'.e.broken
      && l'.w == World(d', threads + [pc']) && Careful(d', pc')
  {
    var c := Plain(Thread(|threads|, true));
    StepAmongReturned(l.w.d, threads, pc, true);
    assert l.w == World(l.w.d, threads + [pc]);
    CarefulGoesOn(l.w.d, pc, l.e);
    LiveStep(l, c);
    l' := Happen(l, c);
    hide LiveInv, Advance, SetsOff, Careful, SafeAt;
    assert l.w.threads[|threads|] == pc;
  }

  lemma {:induction false} FinishLive(l: Live, threads: seq<Pc>, pc: Pc) returns (causes: seq<Cause>, l': Live)
    requires LiveInv(l) && !l.e.broken && AllReturned(threads) && l.w.threads == threads + [pc]
    requires Inv(World(l.w.d, [pc])) && Careful(l.w.d, pc)
    ensures LiveRun(l, causes, l') && NothingPublished(causes) && Quiet(l')
    ensures l'.w == World(Finish(l.w.d, pc, true), threads + [Returned])
    decreases Rank(|l.w.d.rings|, pc)
  {
    if pc == Returned {
      causes, l' := [], l;
    } else {
      AdvanceAlone(l.w.d, pc, true);
      Onward(l.w.d, pc, true);
      var pc' := Advance(l.w.d, pc, true).1;
      var l1 := Act(l, threads, pc);
      hide Inv, LiveInv, Finish, Advance, Careful, Happen, Possible;
      causes, l' := FinishLive(l1, threads, pc');
      causes := Prepend(l, Plain(Thread(|threads|, true)), causes, l');
    }
  }

  /** One whole pass of the driver. */
  lemma LivePass(l: Live, c: Cause) returns (causes: seq<Cause>, l': Live)
    requires Quiet(l) && IsPass(c) && Possible(l, c) && Careful(l.w.d, EntryOf(c))
    ensures Inv(World(l.w.d, [EntryOf(c)]))
    ensures LiveRun(l, causes, l') && NothingPublished(causes) && Quiet(l')
    ensures l'.w.d == Finish(l.w.d, EntryOf(c), true)
  {
    QuietInv(l.w.d, l.w.threads, EntryOf(c));
    LiveStep(l, c);
    var l1 := Happen(l, c);
    hide Inv, LiveInv, Finish, Careful;
    causes, l' := FinishLive(l1, l.w.threads, EntryOf(c));
    causes := Prepend(l, c, causes, l');
  }

  // ------------------------------------------------------------- rounds

  /** Something is due that no thread on its way out can take back. */
  predicate Due(l: Live) {
    || l.e.tsIrq || l.e.sched || l.e.own > 0 || l.e.callbacks != {}
    || l.w.d.cp.rptr < l.w.d.cp.wptr || l.w.d.cp.cntl
  }

  predicate WorkFrom(rings: seq<Ring>, i: nat) {
    exists j :: i <= j < |rings| && Outstanding(rings[j]) > 0
  }

  /** The thread may yet make the CP run or switch: it will look for work, or what it has still to look at has some. */
  predicate WillLook(d: Device, pc: Pc) {
    match pc
    case TryTrigger => true
    case SchedLock => true
    case SchedLook => true
    case UpdateNew(_) => true
    case ClearState(_) => true
    case WriteRecord(_) => true
    case Program(_, _) => true
    case Arm(_) => true
    case Scan(i) => WorkFrom(d.rings, i)
    case UpdateCur => d.cur < |d.rings| && Outstanding(d.rings[d.cur]) > 0
    case _ => false
  }

  predicate SomeoneWillLook(w: World) {
    exists k :: 0 <= k < |w.threads| && WillLook(w.d, w.threads[k])
  }

  /** A counter's submitter is about to schedule the dispatcher. */
  predicate WillSchedule(l: Live) {
    l.e.looks > 0 && l.w.d.cur != 0
  }

  /** Something is left that will run, switch, or make the driver look. */
  predicate Hope(l: Live) {
    Due(l) || WillSchedule(l) || Armed(l.w.d) || SomeoneWillLook(l.w)
  }

  /** Work is published, and nothing is left that would get it run. */
  predicate Lost(l: Live) {
    Pending(l.w.d.rings) > 0 && !Hope(l)
  }

  function Phase(d: Device): nat {
    if d.cp.rptr < d.cp.wptr then 0 else if d.cp.cntl then 1 else if d.state == NONE then 2
    else if d.state == FAULTED then 4 else 3
  }

  predicate Nearer(d: Device, d': Device) {
    || Pending(d'.rings) < Pending(d.rings)
    || (Pending(d'.rings) == Pending(d.rings) && Phase(d') < Phase(d))
  }

  lemma RunRound(l: Live) returns (l': Live)
    requires Quiet(l) && l.w.d.cp.rptr < l.w.d.cp.wptr
    ensures Possible(l, Plain(Run)) && l' == Happen(l, Plain(Run))
    ensures Quiet(l') && !Lost(l') && Pending(l'.w.d.rings) == Pending(l.w.d.rings) - 1
  {
    RunShrinksPending(l.w);
    LiveStep(l, Plain(Run));
    l' := Happen(l, Plain(Run));
  }

  lemma SwitchRound(l: Live) returns (l': Live)
    requires Quiet(l) && l.w.d.cp.cntl && l.w.d.cp.rptr >= l.w.d.cp.wptr
    ensures Possible(l, Plain(HwSwitch)) && l' == Happen(l, Plain(HwSwitch))
    ensures Quiet(l') && !Lost(l') && Pending(l'.w.d.rings) == Pending(l.w.d.rings)
    ensures l'.w.d.cp.rptr < l'.w.d.cp.wptr
  {
    assert CpOk(l.w.d);
    StepKeepsInv(l.w, HwSwitch);
    SwitchKeepsShadows(l.w.d);
    LiveStep(l, Plain(HwSwitch));
    l' := Happen(l, Plain(HwSwitch));
  }

  /** An idle CP writes its read pointer back. */
  lemma GoIdle(l: Live) returns (l': Live)
    requires Quiet(l) && l.w.d.cp.rptr >= l.w.d.cp.wptr
    ensures Possible(l, Plain(WriteRptr)) && l' == Happen(l, Plain(WriteRptr))
    ensures Quiet(l') && IdleCp(l'.w.d) && Pending(l'.w.d.rings) == Pending(l.w.d.rings)
    ensures l'.e == l.e && l'.w.d.state == l.w.d.state && l'.w.d.cp == l.w.d.cp && l'.w.d.cur == l.w.d.cur
    ensures l'.w.d.armed == l.w.d.armed && l'.w.d.swapped == l.w.d.swapped && l'.w.threads == l.w.threads
  {
    StepKeepsInv(l.w, WriteRptr);
    SamePending(l.w.d.rings, CpWriteRptr(l.w.d).rings);
    LiveStep(l, Plain(WriteRptr));
    l' := Happen(l, Plain(WriteRptr));
    hide RingsOk, PhaseOk, ThreadsOk, Noticed;
  }

  lemma GoIdleKeepsHope(l: Live, l1: Live)
    requires Quiet(l) && !Lost(l) && l1.w.threads == l.w.threads && Pending(l1.w.d.rings) == Pending(l.w.d.rings)
    requires l1.e == l.e && l1.w.d.cp == l.w.d.cp && l1.w.d.cur == l.w.d.cur
    requires l1.w.d.armed == l.w.d.armed && l1.w.d.swapped == l.w.d.swapped
    ensures !Lost(l1)
  {
    NobodyLooks(l.w);
  }

  /** A trigger that ends a pass leaves work for the CP, a switch to one that has work, or nothing to be done. */
  predicate Served(d: Device) {
    if d.state == NONE then Pending(d.rings) == 0 || d.cp.rptr < d.cp.wptr
    else d.state == TRIGGERED && d.cp.cntl
  }

  lemma TriggerServes(d: Device)
    requires Inv(World(d, [TryTrigger])) && d.state == NONE && d.cp.rbBase < |d.rings|
    requires IdleCp(d) || d.cp.rptr < d.cp.wptr
    ensures var r := Finish(d, TryTrigger, true);
      Served(r) && Pending(r.rings) == Pending(d.rings) && |r.rings| == |d.rings|
  {
    if IdleCp(d) {
      TriggerOutcome(d);
    } else {
      TriggerAlone(d, true);
      var r := Finish(d, TryTrigger, true);
      SamePending(d.rings, r.rings);
      assert CpOk(d) && d.cur < |d.rings|;
      assert r.state == NONE ==> d.cp.rbBase == d.cur;
    }
  }

  lemma TakeOverServes(d: Device)
    requires d.next.Some? && d.next.value < |d.rings| && Inv(World(TakenOver(d), [TryTrigger]))
    requires IdleCp(d) && d.cp.rbBase == d.next.value
    ensures var r := Finish(TakenOver(d), TryTrigger, true);
      Served(r) && Pending(r.rings) == Pending(d.rings)
  {
    var t := TakenOver(d);
    assert t.cp.rptr <= t.cp.wptr by { assert CpOk(t); }
    hide Inv;
    TriggerServes(t);
  }

  lemma NobodyCarries(st: PreemptState, threads: seq<Pc>)
    requires AllReturned(threads)
    ensures !Carried(st, threads)
  {}

  /** Where the CP is and what the driver has lined up while a switch is through and nobody has noticed. */
  lemma SwitchedState(l: Live)
    requires Quiet(l) && l.w.d.state != NONE && !l.w.d.cp.cntl
    ensures l.w.d.state == TRIGGERED || l.w.d.state == FAULTED || l.w.d.state == COMPLETE
    ensures l.w.d.next.Some? && l.w.d.next.value < |l.w.d.rings| && l.w.d.cp.rbBase == l.w.d.next.value
    ensures Called(l.w.d.state, l.e)
  {
    UnmannedStates(l.w);
    NobodyCarries(l.w.d.state, l.w.threads);
  }

  lemma WorkerRound(l: Live) returns (causes: seq<Cause>, l': Live)
    requires Quiet(l) && l.w.d.state == FAULTED && !l.w.d.cp.cntl
    ensures LiveRun(l, causes, l') && NothingPublished(causes) && Quiet(l')
    ensures l'.w.d == l.w.d.(state := COMPLETE)
  {
    SwitchedState(l);
    causes, l' := LivePass(l, WorkerRuns);
    WorkerRechecks(l.w.d, true);
  }

  lemma IrqRound(l: Live) returns (causes: seq<Cause>, l': Live)
    requires Quiet(l) && IdleCp(l.w.d) && l.w.d.state == TRIGGERED && !l.w.d.cp.cntl
    ensures LiveRun(l, causes, l') && NothingPublished(causes) && Quiet(l')
    ensures Served(l'.w.d) && Pending(l'.w.d.rings) == Pending(l.w.d.rings)
  {
    SwitchedState(l);
    causes, l' := LivePass(l, SwitchIrq);
    CallbackTakesOver(l.w.d, true);
    hide Inv, Finish;
    TakeOverServes(l.w.d);
  }

  lemma DispatcherRound(l: Live) returns (causes: seq<Cause>, l': Live)
    requires Quiet(l) && IdleCp(l.w.d) && l.w.d.state == COMPLETE && !l.w.d.cp.cntl
    ensures LiveRun(l, causes, l') && NothingPublished(causes) && Quiet(l')
    ensures Served(l'.w.d) && Pending(l'.w.d.rings) == Pending(l.w.d.rings)
  {
    SwitchedState(l);
    causes, l' := LivePass(l, if l.e.own > 0 then OwnCall else DispatcherRuns);
    ScheduleTakesOver(l.w.d);
    hide Inv, Finish;
    TakeOverServes(l.w.d);
  }

  lemma WakeRound(l: Live) returns (causes: seq<Cause>, l': Live)
    requires Quiet(l) && IdleCp(l.w.d) && l.w.d.state == NONE && (l.e.tsIrq || l.e.sched || l.e.own > 0)
    ensures LiveRun(l, causes, l') && NothingPublished(causes) && Quiet(l')
    ensures Served(l'.w.d) && Pending(l'.w.d.rings) == Pending(l.w.d.rings)
  {
    assert !l.w.d.cp.cntl;
    if l.e.tsIrq {
      causes, l' := LivePass(l, TsIrq);
    } else {
      causes, l' := LivePass(l, if l.e.own > 0 then OwnCall else DispatcherRuns);
      ScheduleTriggers(l.w.d, true);
    }
    hide Inv, Finish;
    TriggerServes(l.w.d);
  }

  /** In a quiet world at rest, what is left is a cause that is due. */
  lemma QuietHope(l: Live)
    requires Quiet(l) && IdleCp(l.w.d) && l.w.d.state == NONE && !Lost(l) && Pending(l.w.d.rings) > 0
    ensures l.e.tsIrq || l.e.sched || l.e.own > 0 || WillSchedule(l)
  {
    NobodyLooks(l.w);
    assert l.e.callbacks == {};
    assert !l.w.d.cp.cntl && !Armed(l.w.d);
  }

  lemma NobodyLooks(w: World)
    requires AllReturned(w.threads)
    ensures !SomeoneWillLook(w)
  {}

  /** The submitter of a counter compares the rings. */
  lemma LookRound(l: Live) returns (l': Live)
    requires LiveInv(l) && WillSchedule(l)
    ensures Possible(l, CounterLooks) && l' == Happen(l, CounterLooks) && LiveInv(l')
    ensures l'.w == l.w && l'.e.sched && l'.e.broken == l.e.broken && l'.e.own == l.e.own
  {
    LiveStep(l, CounterLooks);
    l' := Happen(l, CounterLooks);
  }

  /** The driver is made to look. */
  lemma AnyWakeRound(l: Live) returns (causes: seq<Cause>, l': Live)
    requires Quiet(l) && IdleCp(l.w.d) && l.w.d.state == NONE && !Lost(l) && Pending(l.w.d.rings) > 0
    ensures LiveRun(l, causes, l') && NothingPublished(causes) && Quiet(l')
    ensures Served(l'.w.d) && Pending(l'.w.d.rings) == Pending(l.w.d.rings)
  {
    QuietHope(l);
    if l.e.tsIrq || l.e.sched || l.e.own > 0 {
      causes, l' := WakeRound(l);
    } else {
      var l1 := LookRound(l);
      causes, l' := WakeRound(l1);
      causes := Prepend(l, CounterLooks, causes, l');
    }
  }

  lemma ServedHasHope(l: Live)
    requires Served(l.w.d)
    ensures !Lost(l)
  {}

  /** With an idle CP, the driver makes it run or switch, or one thing less stands in the way. */
  lemma IdleRound(l: Live) returns (causes: seq<Cause>, l': Live)
    requires Quiet(l) && !Lost(l) && IdleCp(l.w.d) && !l.w.d.cp.cntl
    requires l.w.d.state == NONE ==> Pending(l.w.d.rings) > 0
    ensures LiveRun(l, causes, l') && NothingPublished(causes) && Quiet(l') && !Lost(l')
    ensures Pending(l'.w.d.rings) == Pending(l.w.d.rings)
    ensures Phase(l'.w.d) < Phase(l.w.d) || (l'.w.d.state == NONE && Pending(l'.w.d.rings) == 0)
  {
    if l.w.d.state == NONE {
      causes, l' := AnyWakeRound(l);
      ServedHasHope(l');
    } else {
      SwitchedState(l);
      if l.w.d.state == FAULTED {
        causes, l' := WorkerRound(l);
        UnmannedStates(l'.w);
      } else if l.w.d.state == TRIGGERED {
        causes, l' := IrqRound(l);
        ServedHasHope(l');
      } else {
        causes, l' := DispatcherRound(l);
        ServedHasHope(l');
      }
    }
    hide LiveInv, Pending;
  }

  predicate Over(d: Device) {
    d.state == NONE && Pending(d.rings) == 0
  }

  lemma Round(l: Live) returns (causes: seq<Cause>, l': Live)
    requires Quiet(l) && !Lost(l) && !Over(l.w.d)
    ensures LiveRun(l, causes, l') && NothingPublished(causes) && Quiet(l') && !Lost(l')
    ensures Over(l'.w.d) || Nearer(l.w.d, l'.w.d)
  {
    hide Quiet, Pending, Happen, Possible;
    if l.w.d.cp.rptr < l.w.d.cp.wptr {
      l' := RunRound(l);
      causes := Prepend(l, Plain(Run), [], l');
    } else if l.w.d.cp.cntl {
      l' := SwitchRound(l);
      causes := Prepend(l, Plain(HwSwitch), [], l');
    } else {
      var l1 := GoIdle(l);
      GoIdleKeepsHope(l, l1);
      causes, l' := IdleRound(l1);
      causes := Prepend(l, Plain(WriteRptr), causes, l');
    }
  }

  lemma {:induction false} FinishAll(l: Live) returns (causes: seq<Cause>, l': Live)
    requires Quiet(l) && !Lost(l)
    ensures LiveRun(l, causes, l') && NothingPublished(causes) && Quiet(l') && Over(l'.w.d)
    decreases Pending(l.w.d.rings), Phase(l.w.d)
  {
    if Over(l.w.d) {
      causes, l' := [], l;
    } else {
      var l1;
      causes, l1 := Round(l);
      if Over(l1.w.d) {
        l' := l1;
      } else {
        hide Quiet, Hope;
        var rest;
        rest, l' := FinishAll(l1);
        Concat(l, causes, l1, rest, l');
        causes := causes + rest;
      }
    }
  }

  // ------------------------------------------- letting the threads return

  /** How far a switch that was handed to the CP is from being over. */
  function SwitchLeft(d: Device): nat {
    if !d.cp.cntl then 0 else if d.cp.yielded then 1 else 2
  }

  lemma CpGoesOn(l: Live) returns (c: Cause, l': Live)
    requires LiveInv(l) && !l.e.broken && l.w.d.cp.cntl
    ensures Possible(l, c) && !Publishes(c) && l' == Happen(l, c) && LiveInv(l') && !l'.e.broken
    ensures l'.w.threads == l.w.threads && |l'.w.d.rings| == |l.w.d.rings| && SwitchLeft(l'.w.d) < SwitchLeft(l.w.d)
    ensures Due(l')
  {
    assert CpOk(l.w.d);
    c := Plain(if l.w.d.cp.yielded then HwSwitch else Run);
    InvIsSafe(l.w, c.s);
    assert Possible(l, c);
    LiveStep(l, c);
    l' := Happen(l, c);
    hide Inv, Noticed;
  }

  lemma NothingBreaks(d: Device, pc: Pc, e: Events)
    requires !d.cp.cntl && !e.broken
    ensures !SetsOff(d, pc, true, e).broken
  {}

  lemma ThreadGoesOn(l: Live, k: nat) returns (l': Live)
    requires LiveInv(l) && !l.e.broken && !l.w.d.cp.cntl
    requires k < |l.w.threads| && l.w.threads[k] != Returned && Enabled(l.w, Thread(k, true))
    ensures var c := Plain(Thread(k, true));
      Possible(l, c) && l' == Happen(l, c) && LiveInv(l') && !l'.e.broken
    ensures TotalRank(|l'.w.d.rings|, l'.w.threads) < TotalRank(|l.w.d.rings|, l.w.threads)
  {
    hide Inv, Noticed, CallbacksOk, TotalRank, Advance, SetsOff;
    var c := Plain(Thread(k, true));
    ActingGoesOn(l.w, k);
    NothingBreaks(l.w.d, l.w.threads[k], l.e);
    LiveStep(l, c);
    l' := Happen(l, c);
  }

  // -------------------------------------- what threads do to what is left

  lemma WptrOnlyGrows(d: Device, pc: Pc, awake: bool)
    requires DeviceOk(d) && ThreadOk(d, pc) && SafeAt(d, pc)
    ensures var d' := Advance(d, pc, awake).0;
      d'.cp.rptr == d.cp.rptr && d.cp.wptr <= d'.cp.wptr && (d.cp.cntl ==> d'.cp.cntl)
  {
    hide TableAfter, Solo;
  }

  lemma ThreadLeavesDue(l: Live, k: nat)
    requires LiveInv(l) && Possible(l, Plain(Thread(k, true))) && Due(l)
    ensures Due(Happen(l, Plain(Thread(k, true))))
  {
    var pc := l.w.threads[k];
    assert ThreadOk(l.w.d, pc);
    WptrOnlyGrows(l.w.d, pc, true);
    hide LiveInv, Advance, SetsOff, ThreadOk, SafeAt;
  }

  /** Threads neither publish nor run anything. */
  lemma SameWork(d: Device, pc: Pc, awake: bool)
    requires SafeAt(d, pc)
    ensures var d' := Advance(d, pc, awake).0;
      && |d'.rings| == |d.rings|
      && (forall i | 0 <= i < |d.rings| :: Outstanding(d'.rings[i]) == Outstanding(d.rings[i]))
      && Pending(d'.rings) == Pending(d.rings)
  {
    var d' := Advance(d, pc, awake).0;
    assert |d'.rings| == |d.rings|;
    forall i | 0 <= i < |d.rings| ensures Outstanding(d'.rings[i]) == Outstanding(d.rings[i]) {
      ThreadsDoNotSubmit(d, pc, awake, i);
    }
    SamePending(d.rings, d'.rings);
  }

  /** With an idle CP on the current ring, a ring looks busy exactly if it has work. */
  lemma LooksAreTrue(d: Device, i: nat)
    requires DeviceOk(d) && IdleCp(d) && i < |d.rings| && d.cp.rbBase == d.cur
    ensures LooksEmpty(d.rings[i]) <==> Outstanding(d.rings[i]) == 0
  {
    hide TableAfter, Solo;
    assert RingOk(d.rings[i], i, d.defaultTtbr0);
  }

  /** Whoever has a right to act goes on until it has made the CP run or switch, if there is work where it still looks. */
  lemma OwnerKeepsHope(d: Device, pc: Pc, e: Events)
    requires DeviceOk(d) && ThreadOk(d, pc) && SafeAt(d, pc) && Owner(pc) && IdleCp(d) && !d.cp.cntl
    requires WillLook(d, pc) || Armed(d)
    ensures var (d', pc') := Advance(d, pc, true);
      || WillLook(d', pc') || Armed(d') || d'.cp.rptr < d'.cp.wptr || d'.cp.cntl || SetsOff(d, pc, true, e).sched
  {
    hide TableAfter, Solo;
    if pc.Scan? && pc.i < |d.rings| {
      LooksAreTrue(d, pc.i);
      hide RingsOk, CpOk;
    } else if pc.UpdateCur? {
      assert RingOk(d.rings[d.cur], d.cur, d.defaultTtbr0);
    }
  }

  lemma PendingIsWork(rings: seq<Ring>)
    ensures Pending(rings) > 0 <==> WorkFrom(rings, 0)
  {
    PendingZero(rings);
  }

  /** Nobody owns the protocol: it is free, or a switch is outstanding. */
  lemma UnownedStates(w: World)
    requires Inv(w) && !Manned(w.threads)
    ensures w.d.state == NONE || Armed(w.d)
  {}

  /** Without an owner, hope passes through a free trigger, or stays with the others. */
  lemma OtherKeepsHope(w: World, k: nat)
    requires Inv(w) && !Manned(w.threads) && k < |w.threads| && SafeAt(w.d, w.threads[k]) && !w.d.cp.cntl
    requires Pending(w.d.rings) > 0 && !Armed(w.d)
    ensures var (d', pc') := Advance(w.d, w.threads[k], true);
      WillLook(w.d, w.threads[k]) ==> WillLook(d', pc')
  {
    UnownedStates(w);
    assert ThreadOk(w.d, w.threads[k]) && !Owner(w.threads[k]);
    PendingIsWork(w.d.rings);
  }

  lemma ArmedStays(d: Device, pc: Pc, awake: bool)
    requires SafeAt(d, pc) && Armed(d) && !pc.Swap? && !pc.Arm?
    ensures Armed(Advance(d, pc, awake).0)
  {}

  /** A thread that is not an owner only waits for its turn. */
  lemma OthersStillLook(d: Device, d': Device, pc: Pc)
    requires !Owner(pc)
    ensures WillLook(d, pc) <==> WillLook(d', pc)
  {}

  lemma SomeoneElseLooks(w: World, k: nat, awake: bool, j: nat)
    requires Inv(w) && Enabled(w, Thread(k, awake)) && Safe(w, Thread(k, awake))
    requires j < |w.threads| && j != k && WillLook(w.d, w.threads[j]) && !Owner(w.threads[j])
    ensures SomeoneWillLook(Apply(w, Thread(k, awake)))
  {
    var w' := Apply(w, Thread(k, awake));
    assert w'.threads[j] == w.threads[j];
    OthersStillLook(w.d, w'.d, w.threads[j]);
    hide Inv, Advance;
  }

  lemma ActorLooks(w: World, k: nat, awake: bool)
    requires Enabled(w, Thread(k, awake)) && Safe(w, Thread(k, awake))
    ensures var (d', pc') := Advance(w.d, w.threads[k], awake);
      WillLook(d', pc') ==> SomeoneWillLook(Apply(w, Thread(k, awake)))
  {
    var w' := Apply(w, Thread(k, awake));
    assert w'.threads[k] == Advance(w.d, w.threads[k], awake).1;
    hide Advance, WillLook;
  }

  /** The owner is the one to let on, otherwise a trigger that can win, otherwise anyone. */
  predicate Chosen(w: World, k: nat) {
    && k < |w.threads| && w.threads[k] != Returned && Enabled(w, Thread(k, true))
    && (Owner(w.threads[k]) || !Manned(w.threads))
  }

  lemma Choose(w: World) returns (k: nat)
    requires !AllReturned(w.threads)
    ensures Chosen(w, k)
  {
    if Manned(w.threads) {
      k :| 0 <= k < |w.threads| && Owner(w.threads[k]);
    } else {
      k := SomeoneCanAct(w);
    }
  }

  lemma OwnerStaysHopeful(l: Live, k: nat)
    requires LiveInv(l) && Chosen(l.w, k) && Possible(l, Plain(Thread(k, true)))
    requires Owner(l.w.threads[k]) && IdleCp(l.w.d) && !l.w.d.cp.cntl
    requires WillLook(l.w.d, l.w.threads[k]) || Armed(l.w.d)
    ensures Hope(Happen(l, Plain(Thread(k, true))))
  {
    var pc := l.w.threads[k];
    assert ThreadOk(l.w.d, pc);
    OwnerKeepsHope(l.w.d, pc, l.e);
    ActorLooks(l.w, k, true);
    hide LiveInv, Advance, SetsOff, ThreadOk, SafeAt, WillLook, SomeoneWillLook, Owner;
  }

  lemma ActStaysHopeful(l: Live, k: nat)
    requires LiveInv(l) && Chosen(l.w, k) && Possible(l, Plain(Thread(k, true)))
    requires IdleCp(l.w.d) && !l.w.d.cp.cntl && Pending(l.w.d.rings) > 0
    requires SomeoneWillLook(l.w) || Armed(l.w.d)
    ensures Hope(Happen(l, Plain(Thread(k, true))))
  {
    var w, pc := l.w, l.w.threads[k];
    if Armed(w.d) {
      if Owner(pc) {
        OwnerStaysHopeful(l, k);
      } else {
        ArmedStays(w.d, pc, true);
      }
    } else {
      var j :| 0 <= j < |w.threads| && WillLook(w.d, w.threads[j]);
      if j != k {
        ApartAt(w, j, k);
        assert !Owner(w.threads[j]);
        SomeoneElseLooks(w, k, true, j);
      } else if Owner(pc) {
        OwnerStaysHopeful(l, k);
      } else {
        OtherKeepsHope(w, k);
        ActorLooks(w, k, true);
      }
    }
    hide LiveInv, WillLook, SomeoneWillLook, Advance, SetsOff;
  }

  lemma SamePendingAfter(l: Live, k: nat)
    requires Possible(l, Plain(Thread(k, true)))
    ensures Pending(Happen(l, Plain(Thread(k, true))).w.d.rings) == Pending(l.w.d.rings)
  {
    SameWork(l.w.d, l.w.threads[k], true);
  }

  /** One more action on the way out, without losing what is left. */
  lemma ActKeepsHope(l: Live, k: nat)
    requires LiveInv(l) && Chosen(l.w, k) && Possible(l, Plain(Thread(k, true))) && !l.w.d.cp.cntl && !Lost(l)
    requires Pending(l.w.d.rings) == 0 || Due(l) || (!WillSchedule(l) && IdleCp(l.w.d))
    ensures !Lost(Happen(l, Plain(Thread(k, true))))
  {
    SamePendingAfter(l, k);
    if Due(l) {
      ThreadLeavesDue(l, k);
    } else if Pending(l.w.d.rings) > 0 {
      ActStaysHopeful(l, k);
    }
    hide LiveInv, Happen, Due, SomeoneWillLook;
  }

  /** The CP has yet to write its read pointer back. */
  function Lag(d: Device): nat {
    if IdleCp(d) then 0 else 1
  }

  lemma RestKeepsLooks(d: Device, pc: Pc)
    requires d.cp.rbBase < |d.rings| && WillLook(d, pc)
    ensures WillLook(CpWriteRptr(d), pc)
  {
    var d' := CpWriteRptr(d);
    assert forall i | 0 <= i < |d.rings| :: Outstanding(d'.rings[i]) == Outstanding(d.rings[i]);
  }

  /** The CP comes to rest. */
  lemma Rest(l: Live) returns (l': Live)
    requires LiveInv(l) && !l.e.broken && !Due(l)
    ensures Possible(l, Plain(WriteRptr)) && l' == Happen(l, Plain(WriteRptr)) && LiveInv(l') && !l'.e.broken
    ensures l'.w.threads == l.w.threads && |l'.w.d.rings| == |l.w.d.rings| && l'.w.d.cp == l.w.d.cp && !Due(l')
    ensures IdleCp(l'.w.d) && (!Lost(l) ==> !Lost(l'))
  {
    StepKeepsInv(l.w, WriteRptr);
    SamePending(l.w.d.rings, CpWriteRptr(l.w.d).rings);
    LiveStep(l, Plain(WriteRptr));
    l' := Happen(l, Plain(WriteRptr));
    assert l'.w.d.cp.rptr == l'.w.d.cp.wptr by { assert CpOk(l.w.d); }
    if SomeoneWillLook(l.w) {
      var k :| 0 <= k < |l.w.threads| && WillLook(l.w.d, l.w.threads[k]);
      RestKeepsLooks(l.w.d, l.w.threads[k]);
      assert WillLook(l'.w.d, l'.w.threads[k]);
    }
    hide Inv, Noticed, WillLook;
  }

  lemma Leave(l: Live) returns (c: Cause, l': Live)
    requires LiveInv(l) && !l.e.broken && !l.w.d.cp.cntl && !AllReturned(l.w.threads)
    requires Lost(l) || Pending(l.w.d.rings) == 0 || Due(l) || (!WillSchedule(l) && IdleCp(l.w.d))
    ensures Possible(l, c) && !Publishes(c) && l' == Happen(l, c) && LiveInv(l') && !l'.e.broken
    ensures TotalRank(|l'.w.d.rings|, l'.w.threads) < TotalRank(|l.w.d.rings|, l.w.threads)
    ensures !Lost(l) ==> !Lost(l')
  {
    var k := Choose(l.w);
    c := Plain(Thread(k, true));
    l' := ThreadGoesOn(l, k);
    if !Lost(l) { ActKeepsHope(l, k); }
    hide LiveInv, Lost, Due, TotalRank, Happen;
  }

  lemma OnTheWayOut(l: Live) returns (c: Cause, l': Live)
    requires LiveInv(l) && !l.e.broken && !AllReturned(l.w.threads)
    ensures Possible(l, c) && !Publishes(c) && l' == Happen(l, c) && LiveInv(l') && !l'.e.broken
    ensures !Lost(l) ==> !Lost(l')
    ensures Further(l, l')
  {
    if l.w.d.cp.cntl {
      c, l' := CpGoesOn(l);
    } else if !Lost(l) && Pending(l.w.d.rings) > 0 && !Due(l) && WillSchedule(l) {
      l' := LookRound(l);
      c := CounterLooks;
    } else if !Lost(l) && Pending(l.w.d.rings) > 0 && !Due(l) && !IdleCp(l.w.d) {
      l' := Rest(l);
      c := Plain(WriteRptr);
    } else {
      c, l' := Leave(l);
    }
    hide LiveInv, Happen, TotalRank, Possible;
  }

  function Owing(l: Live): nat {
    if Due(l) then 0 else 1
  }

  /** What is left to do before all threads are out has become less. */
  predicate Further(l: Live, l': Live) {
    var a, b := TotalRank(|l'.w.d.rings|, l'.w.threads), TotalRank(|l.w.d.rings|, l.w.threads);
    var c, d := SwitchLeft(l'.w.d), SwitchLeft(l.w.d);
    a < b || (a == b && (c < d || (c == d && (Owing(l') < Owing(l) || (Owing(l') == Owing(l) && Lag(l'.w.d) < Lag(l.w.d))))))
  }

  /**
   Wherever they stand, all threads can return without a fault: the CP ends the
   switch under way first. And they can do so without losing what is left.
   */
  lemma {:induction false} Quiesce(l: Live) returns (causes: seq<Cause>, l': Live)
    requires LiveInv(l) && !l.e.broken
    ensures LiveRun(l, causes, l') && NothingPublished(causes) && Quiet(l') && (!Lost(l) ==> !Lost(l'))
    decreases TotalRank(|l.w.d.rings|, l.w.threads), SwitchLeft(l.w.d), Owing(l), Lag(l.w.d)
  {
    if AllReturned(l.w.threads) {
      causes, l' := [], l;
    } else {
      var c, l1 := OnTheWayOut(l);
      hide LiveInv, Quiet, Lost, Possible, Happen, TotalRank, SwitchLeft, Owing, Lag;
      causes, l' := Quiesce(l1);
      causes := Prepend(l, c, causes, l');
    }
  }
}
