/** Runs in which a submission is lost: nobody is left to look at a ring that has work. */
module PreemptStuck {
  import opened Wrappers
  import opened PreemptModel
  import opened PreemptInvariant
  import opened PreemptTheorems
  import opened PreemptProgress
  import opened PreemptEvents
  import opened PreemptLiveness
  import opened PreemptLost

  lemma Then(l: Live, c: Cause, rest: seq<Cause>, l': Live) returns (causes: seq<Cause>)
    requires Possible(l, c) && LiveRun(Happen(l, c), rest, l')
    ensures LiveRun(l, causes, l')
  {
    causes := [c] + rest;
    assert causes[1..] == rest;
  }

  lemma ThenOne(l: Live, c: Cause, l': Live) returns (causes: seq<Cause>)
    requires Possible(l, c) && l' == Happen(l, c)
    ensures LiveRun(l, causes, l')
  {
    causes := Then(l, c, [], l');
  }

  lemma Join(l: Live, a: seq<Cause>, l1: Live, b: seq<Cause>, l2: Live, c: seq<Cause>, l3: Live)
    requires LiveRun(l, a, l1) && LiveRun(l1, b, l2) && LiveRun(l2, c, l3)
    ensures LiveRun(l, a + b + c, l3)
  {
    Concat(l, a, l1, b, l2);
    Concat(l, a + b, l2, c, l3);
  }

  /** A run into a stuck world, all in all. */
  lemma EndsStuck(l: Live, causes: seq<Cause>, l': Live, i: nat)
    requires Fresh(l) && LiveRun(l, causes, l') && i < |l'.w.d.rings|
    requires AllReturned(l'.w.threads) && l'.w.d.state == NONE && l'.w.d.cp.rptr == l'.w.d.cp.wptr
    requires !l'.e.tsIrq && !l'.e.sched && l'.e.own == 0 && (l'.e.looks > 0 ==> l'.w.d.cur == 0) && !l'.e.broken
    requires Outstanding(l'.w.d.rings[i]) > 0
    ensures Quiet(l') && Stuck(l') && !CanFinish(l')
  {
    FreshIsOk(l);
    LiveRunKeepsInv(l, causes, l');
    PendingZero(l'.w.d.rings);
    hide Pending, Outstanding, LiveRun;
    LostIsStuck(l');
    FinishesExactly(l');
  }

  // ------------------------------------ a switch whose draw is turned away

  /**
   A context switch is published on a ring that is not current and the draw it
   was for is turned away. Nobody calls preemption_schedule for the switch, and
   the CP, on another ring, raises no interrupt for it.
   */
  lemma LoneSwitchIsStuck(l: Live, i: RingId, ctx: Context) returns (causes: seq<Cause>, l': Live)
    requires Fresh(l) && i < |l.w.d.rings| && i != l.w.d.cur
    ensures LiveRun(l, causes, l') && Quiet(l') && Stuck(l') && !CanFinish(l')
  {
    var l1 := Happen(l, Plain(Switch(i, ctx, true)));
    l' := Happen(l1, Plain(Wptr(i)));
    hide Happen, Possible;
    causes := Then(l1, Plain(Wptr(i)), [], l');
    causes := Then(l, Plain(Switch(i, ctx, true)), causes, l');
    EndsStuck(l, causes, l', i);
  }

  // ------------------------------------------------- one thread at a time

  /** The last of the threads, one action. */
  lemma Acts(l: Live, threads: seq<Pc>, pc: Pc) returns (l': Live)
    requires l.w.threads == threads + [pc] && SafeAt(l.w.d, pc) && |threads| !in l.e.callbacks
    requires (pc.SchedLock? ==> MutexFree(threads)) && !pc.WorkLock?
    ensures var c, (d, pc') := Plain(Thread(|threads|, true)), Advance(l.w.d, pc, true);
      Possible(l, c) && l' == Happen(l, c) && l' == Live(World(d, threads + [pc']), SetsOff(l.w.d, pc, true, l.e))
  {
    var k := |threads|;
    assert l.w.threads[k] == pc;
    assert pc.SchedLock? ==> MutexFree(l.w.threads);
    l' := Happen(l, Plain(Thread(k, true)));
    assert l.w.threads[k := Advance(l.w.d, pc, true).1] == threads + [Advance(l.w.d, pc, true).1];
  }

  /** The scan goes on over rings that look empty. */
  lemma {:induction false} ScansTo(l: Live, threads: seq<Pc>, i: nat, n: nat) returns (causes: seq<Cause>, l': Live)
    requires l.w.threads == threads + [Scan(i)] && i <= n <= |l.w.d.rings| && |threads| !in l.e.callbacks
    requires forall k | i <= k < n :: LooksEmpty(l.w.d.rings[k])
    ensures LiveRun(l, causes, l') && l' == l.(w := l.w.(threads := threads + [Scan(n)]))
    decreases n - i
  {
    if i == n {
      causes, l' := [], l;
    } else {
      var l1 := Acts(l, threads, Scan(i));
      causes, l' := ScansTo(l1, threads, i + 1, n);
      hide Happen, Possible;
      causes := Then(l, Plain(Thread(|threads|, true)), causes, l');
    }
  }

  /** A call of preemption_schedule gets as far as the trigger. */
  lemma Calls(l: Live, threads: seq<Pc>) returns (causes: seq<Cause>, l': Live)
    requires l.w.threads == threads + [SchedLock] && MutexFree(threads) && |threads| !in l.e.callbacks
    requires l.w.d.state != COMPLETE
    ensures LiveRun(l, causes, l') && l' == l.(w := l.w.(threads := threads + [TryTrigger]))
  {
    var c := Plain(Thread(|threads|, true));
    var l1 := Acts(l, threads, SchedLock);
    l' := Acts(l1, threads, SchedLook);
    hide Happen, Possible;
    causes := Then(l1, c, [], l');
    causes := Then(l, c, causes, l');
  }

  /** A call that finds the state taken. */
  lemma CallsInVain(l: Live, threads: seq<Pc>) returns (causes: seq<Cause>, l': Live)
    requires l.w.threads == threads + [SchedLock] && MutexFree(threads) && |threads| !in l.e.callbacks
    requires l.w.d.state != NONE && l.w.d.state != COMPLETE
    ensures LiveRun(l, causes, l') && l' == l.(w := l.w.(threads := threads + [Returned]))
  {
    var l1;
    causes, l1 := Calls(l, threads);
    l' := Acts(l1, threads, TryTrigger);
    hide Happen, Possible;
    var last := Then(l1, Plain(Thread(|threads|, true)), [], l');
    Concat(l, causes, l1, last, l');
    causes := causes + last;
  }

  // ------------------------------------------- a switch from ring a to b

  predicate Untouched(r: Ring) {
    r.mem == [] && r.wptr == 0 && r.shadowRptr == 0 && r.active == None && r.ran == []
  }

  predicate OthersUntouched(d: Device, b: RingId) {
    b < |d.rings| && forall k | 0 <= k < |d.rings| && k != b :: Untouched(d.rings[k])
  }

  /** A context switch and a draw are published on ring b, and nothing of it has run. */
  predicate TwoWait(r: Ring, b: RingId, desc: Record) {
    r.wptr == 2 == |r.mem| && r.shadowRptr == 0 && r.ran == [] && r.desc == desc && EntryOk(r.mem[0], b) && EntryOk(r.mem[1], b)
  }

  predicate AtRestOn(d: Device, a: RingId) {
    d.cur == a && d.cp.rbBase == a && d.cp.rptr == 0 && d.cp.save == a && d.cp.yielded
  }

  /** The switch to the context comes first; nobody calls preemption_schedule for it. */
  lemma PublishesSwitch(l: Live, b: RingId, ctx: Context) returns (causes: seq<Cause>, l': Live)
    requires Fresh(l) && b < |l.w.d.rings| && l.w.d.cur != b
    ensures LiveRun(l, causes, l') && l'.w.threads == [] && l'.e == Calm && |l'.w.d.rings| == |l.w.d.rings|
    ensures OthersUntouched(l'.w.d, b) && l'.w.d == l.w.d.(rings := l'.w.d.rings)
    ensures var r := l'.w.d.rings[b];
      && r.wptr == 1 == |r.mem| && r.shadowRptr == 0 && r.ran == [] && r.desc == Record(b, 0, 0)
      && EntryOk(r.mem[0], b) && r.active == Some(ctx)
  {
    var l1 := Happen(l, Plain(Switch(b, ctx, true)));
    l' := Happen(l1, Plain(Wptr(b)));
    hide Happen, Possible;
    causes := Then(l1, Plain(Wptr(b)), [], l');
    causes := Then(l, Plain(Switch(b, ctx, true)), causes, l');
  }

  lemma PublishesDraw(l: Live, b: RingId, ctx: Context) returns (causes: seq<Cause>, l': Live)
    requires l.e == Calm && OthersUntouched(l.w.d, b) && l.w.d.cur != b
    requires var r := l.w.d.rings[b];
      && r.wptr == 1 == |r.mem| && r.shadowRptr == 0 && r.ran == [] && r.desc == Record(b, 0, 0)
      && EntryOk(r.mem[0], b) && r.active == Some(ctx)
    ensures LiveRun(l, causes, l') && l'.w.threads == l.w.threads && l'.e == Calm.(own := 1)
    ensures l'.w.d == l.w.d.(rings := l'.w.d.rings) && |l'.w.d.rings| == |l.w.d.rings|
    ensures OthersUntouched(l'.w.d, b) && TwoWait(l'.w.d.rings[b], b, Record(b, 0, 0))
  {
    var l1 := Happen(l, Plain(Submit(b, ctx)));
    l' := Happen(l1, Plain(Wptr(b)));
    hide Happen, Possible;
    causes := Then(l1, Plain(Wptr(b)), [], l');
    causes := Then(l, Plain(Submit(b, ctx)), causes, l');
  }

  /** A draw is submitted to ring b, and the submitter owes its call. */
  lemma Submits(l: Live, b: RingId, ctx: Context) returns (causes: seq<Cause>, l': Live)
    requires Fresh(l) && b < |l.w.d.rings| && l.w.d.cur != b
    ensures LiveRun(l, causes, l') && l'.w.threads == [] && l'.e == Calm.(own := 1) && |l'.w.d.rings| == |l.w.d.rings|
    ensures OthersUntouched(l'.w.d, b) && TwoWait(l'.w.d.rings[b], b, Record(b, 0, 0))
    ensures AtRestOn(l'.w.d, l.w.d.cur) && l'.w.d.state == NONE && !l'.w.d.cp.cntl
  {
    var c1, l1 := PublishesSwitch(l, b, ctx);
    var c2;
    c2, l' := PublishesDraw(l1, b, ctx);
    hide LiveRun, TwoWait, OthersUntouched;
    Concat(l, c1, l1, c2, l');
    causes := c1 + c2;
  }

  /** The call finds ring b ... */
  lemma FindsWork(l: Live, b: RingId) returns (causes: seq<Cause>, l': Live)
    requires l.w.threads == [] && l.e == Calm.(own := 1) && OthersUntouched(l.w.d, b) && !LooksEmpty(l.w.d.rings[b])
    requires l.w.d.cur != b && l.w.d.state == NONE
    ensures LiveRun(l, causes, l') && l' == Live(World(l.w.d.(state := START), [WriteRecord(b)]), Calm)
  {
    var c := Plain(Thread(0, true));
    var l1 := Happen(l, OwnCall);
    assert l1.w.threads == [] + [SchedLock];
    var c1, l2 := Calls(l1, []);
    var l3 := Acts(l2, [], TryTrigger);
    var c2, l4 := ScansTo(l3, [], 0, b);
    l' := Acts(l4, [], Scan(b));
    assert [] + [WriteRecord(b)] == [WriteRecord(b)];
    hide Happen, Possible;
    var last := Then(l4, c, [], l');
    Concat(l3, c2, l4, last, l');
    var tail := Then(l2, c, c2 + last, l');
    Concat(l1, c1, l2, tail, l');
    causes := Then(l, OwnCall, c1 + tail, l');
  }

  /** ... and arms a switch to it. */
  lemma Arms(l: Live, a: RingId, b: RingId) returns (causes: seq<Cause>, l': Live)
    requires l.w.threads == [WriteRecord(b)] && l.e == Calm && a != b && OthersUntouched(l.w.d, b)
    requires TwoWait(l.w.d.rings[b], b, Record(b, 0, 0)) && AtRestOn(l.w.d, a)
    ensures LiveRun(l, causes, l') && l'.w.threads == [Returned] && l'.e == Calm.(timer := true)
    ensures |l'.w.d.rings| == |l.w.d.rings| && OthersUntouched(l'.w.d, b) && TwoWait(l'.w.d.rings[b], b, Record(b, 0, 2))
    ensures var d := l'.w.d;
      AtRestOn(d, a) && d.state == TRIGGERED && d.next == Some(b) && d.cp.restore == b && d.cp.cntl
  {
    var c := Plain(Thread(0, true));
    assert l.w.threads == [] + [WriteRecord(b)];
    var l1 := Acts(l, [], WriteRecord(b));
    var l2 := Acts(l1, [], Program(b, l.w.d.rings[b].scratch));
    l' := Acts(l2, [], Arm(b));
    assert [] + [Returned] == [Returned];
    hide Happen, Possible;
    causes := Then(l2, c, [], l');
    causes := Then(l1, c, causes, l');
    causes := Then(l, c, causes, l');
  }

  /** Every ring looks empty, and the CP is idle on ring b. */
  predicate AllEmpty(d: Device, b: RingId) {
    && OthersUntouched(d, b) && LooksEmpty(d.rings[b]) && |d.rings[b].ran| == 2 == d.rings[b].wptr == |d.rings[b].mem|
    && d.cp.rbBase == b && d.cp.rptr == d.cp.wptr == d.rings[b].wptr && !d.cp.cntl
  }

  /** The CP switches to ring b and runs it. */
  lemma SwitchesAndRuns(l: Live, a: RingId, b: RingId) returns (causes: seq<Cause>, l': Live)
    requires l.w.threads == [Returned] && l.e == Calm.(timer := true) && a != b && a < |l.w.d.rings|
    requires OthersUntouched(l.w.d, b) && TwoWait(l.w.d.rings[b], b, Record(b, 0, 2))
    requires var d := l.w.d;
      AtRestOn(d, a) && d.state == TRIGGERED && d.next == Some(b) && d.cp.restore == b && d.cp.cntl
    ensures LiveRun(l, causes, l') && l'.w.threads == [Returned] && |l'.w.d.rings| == |l.w.d.rings|
    ensures l'.e == Calm.(timer := true, switchIrq := true, tsIrq := true)
    ensures AllEmpty(l'.w.d, b) && l'.w.d.state == TRIGGERED && l'.w.d.next == Some(b)
  {
    var l1 := Happen(l, Plain(HwSwitch));
    var l2;
    causes, l2 := RunsTwo(l1, b);
    l' := Happen(l2, Plain(WriteRptr));
    hide Happen, Possible;
    var last := Then(l2, Plain(WriteRptr), [], l');
    Concat(l1, causes, l2, last, l');
    causes := Then(l, Plain(HwSwitch), causes + last, l');
  }

  lemma RunsTwo(l: Live, b: RingId) returns (causes: seq<Cause>, l': Live)
    requires OthersUntouched(l.w.d, b) && TwoWait(l.w.d.rings[b], b, l.w.d.rings[b].desc)
    requires l.w.d.cp.rbBase == b && l.w.d.cp.rptr == 0 && l.w.d.cp.wptr == 2
    ensures LiveRun(l, causes, l') && l'.w.threads == l.w.threads && l'.e == l.e.(tsIrq := true)
    ensures |l'.w.d.rings| == |l.w.d.rings| && OthersUntouched(l'.w.d, b)
    ensures var r := l'.w.d.rings[b];
      |r.ran| == 2 == r.wptr == |r.mem|
    ensures l'.w.d == l.w.d.(rings := l'.w.d.rings, cp := l'.w.d.cp)
    ensures var cp := l'.w.d.cp;
      cp.rbBase == b && cp.rptr == cp.wptr == 2 && cp.cntl == l.w.d.cp.cntl
  {
    var l1 := Happen(l, Plain(Run));
    l' := Happen(l1, Plain(Run));
    hide Happen, Possible;
    causes := Then(l1, Plain(Run), [], l');
    causes := Then(l, Plain(Run), causes, l');
  }

  /** The interrupt of the submission and the dispatcher it schedules both find TRIGGERED. */
  lemma OthersLookInVain(l: Live) returns (causes: seq<Cause>, l': Live)
    requires l.w.threads == [Returned] && l.w.d.state == TRIGGERED
    requires l.e == Calm.(timer := true, switchIrq := true, tsIrq := true)
    ensures LiveRun(l, causes, l')
    ensures l' == Live(World(l.w.d, [Returned, Returned, Returned]), Calm.(timer := true, switchIrq := true))
  {
    var c1 := Plain(Thread(1, true));
    var l1 := Happen(l, TsIrq);
    assert l1.w.threads == [Returned, TryTrigger] && l1.e.callbacks == {1};
    var l2 := Happen(l1, c1);
    assert l2.e.callbacks == {} && l2.w.threads == [Returned, Returned];
    var l3 := Happen(l2, DispatcherRuns);
    assert l3.w.threads == [Returned, Returned] + [SchedLock];
    causes, l' := CallsInVain(l3, [Returned, Returned]);
    assert [Returned, Returned] + [Returned] == [Returned, Returned, Returned];
    hide Happen, Possible;
    causes := Then(l2, DispatcherRuns, causes, l');
    causes := Then(l1, c1, causes, l');
    causes := Then(l, TsIrq, causes, l');
  }

  /** The interrupt of the switch takes over ... */
  lemma TakesOver(l: Live, threads: seq<Pc>, b: RingId) returns (causes: seq<Cause>, l': Live)
    requires l.w.threads == threads && l.e == Calm.(timer := true, switchIrq := true)
    requires AllEmpty(l.w.d, b) && l.w.d.state == TRIGGERED && l.w.d.next == Some(b)
    ensures LiveRun(l, causes, l') && l'.w.threads == threads + [UpdateNew(true)] && l'.e == Calm
    ensures AllEmpty(l'.w.d, b) && l'.w.d.cur == b && |l'.w.d.rings| == |l.w.d.rings|
  {
    var c := Plain(Thread(|threads|, true));
    var l1;
    causes, l1 := FindsItThrough(l, threads);
    l' := Acts(l1, threads, Swap(true));
    hide Happen, Possible;
    var last := ThenOne(l1, c, l');
    Concat(l, causes, l1, last, l');
    causes := causes + last;
  }

  lemma FindsItThrough(l: Live, threads: seq<Pc>) returns (causes: seq<Cause>, l': Live)
    requires l.w.threads == threads && l.e == Calm.(timer := true, switchIrq := true)
    requires l.w.d.state == TRIGGERED && !l.w.d.cp.cntl
    ensures LiveRun(l, causes, l')
    ensures l' == Live(World(l.w.d.(state := PENDING), threads + [Swap(true)]), Calm.(timer := true))
  {
    var c := Plain(Thread(|threads|, true));
    var l0 := Happen(l, SwitchIrq);
    var l1 := Acts(l0, threads, TryPending);
    l' := Acts(l1, threads, ReadStatus);
    hide Happen, Possible;
    causes := Then(l1, c, [], l');
    causes := Then(l0, c, causes, l');
    causes := Then(l, SwitchIrq, causes, l');
  }

  /** ... and its trigger scans all rings in vain. */
  lemma ScansInVain(l: Live, threads: seq<Pc>, b: RingId) returns (causes: seq<Cause>, l': Live)
    requires l.w.threads == threads + [UpdateNew(true)] && l.e == Calm && AllEmpty(l.w.d, b) && l.w.d.cur == b
    ensures LiveRun(l, causes, l') && l' == Live(World(l.w.d.(state := START), threads + [ClearStart]), Calm)
  {
    var c, n := Plain(Thread(|threads|, true)), |l.w.d.rings|;
    var c1, l1 := BeginsToScan(l, threads);
    var c2, l2 := ScansTo(l1, threads, 0, n);
    l' := Acts(l2, threads, Scan(n));
    hide Happen, Possible;
    var c3 := ThenOne(l2, c, l');
    Join(l, c1, l1, c2, l2, c3, l');
    causes := c1 + c2 + c3;
  }

  lemma BeginsToScan(l: Live, threads: seq<Pc>) returns (causes: seq<Cause>, l': Live)
    requires l.w.threads == threads + [UpdateNew(true)] && l.e == Calm
    requires l.w.d.cur < |l.w.d.rings| && l.w.d.cp.wptr == l.w.d.rings[l.w.d.cur].wptr
    ensures LiveRun(l, causes, l') && l' == Live(World(l.w.d.(state := START), threads + [Scan(0)]), Calm)
  {
    var c := Plain(Thread(|threads|, true));
    var l1 := Acts(l, threads, UpdateNew(true));
    var l2 := Acts(l1, threads, ClearState(true));
    l' := Acts(l2, threads, TryTrigger);
    hide Happen, Possible;
    causes := Then(l2, c, [], l');
    causes := Then(l1, c, causes, l');
    causes := Then(l, c, causes, l');
  }

  lemma RunsBehindTheSwitch(l: Live, b: RingId, ctx: Context) returns (causes: seq<Cause>, l': Live)
    requires Fresh(l) && b < |l.w.d.rings| && l.w.d.cur != b
    ensures LiveRun(l, causes, l') && |l'.w.d.rings| == |l.w.d.rings| && l'.w.threads == [Returned]
    ensures l'.e == Calm.(timer := true, switchIrq := true, tsIrq := true)
    ensures AllEmpty(l'.w.d, b) && l'.w.d.state == TRIGGERED && l'.w.d.next == Some(b)
  {
    var a := l.w.d.cur;
    var c1, l1 := Submits(l, b, ctx);
    var c2, l2 := FindsWork(l1, b);
    var c3, l3 := Arms(l2, a, b);
    var c4;
    c4, l' := SwitchesAndRuns(l3, a, b);
    hide LiveRun, AllEmpty, TwoWait, OthersUntouched;
    Join(l, c1, l1, c2, l2, c3, l3);
    Concat(l, c1 + c2 + c3, l3, c4, l');
    causes := c1 + c2 + c3 + c4;
  }

  /** Everything has run; the trigger that ends a switch to ring b has looked at every ring and not yet returned. */
  lemma TriggerAboutToReturn(l: Live, b: RingId, ctx: Context) returns (causes: seq<Cause>, l': Live)
    requires Fresh(l) && b < |l.w.d.rings| && l.w.d.cur != b
    ensures LiveRun(l, causes, l') && |l'.w.d.rings| == |l.w.d.rings| && l'.e == Calm
    ensures l'.w.threads == [Returned, Returned, Returned, ClearStart]
    ensures AllEmpty(l'.w.d, b) && l'.w.d.cur == b && l'.w.d.state == START
  {
    var out := [Returned, Returned, Returned];
    var c1, l1 := RunsBehindTheSwitch(l, b, ctx);
    hide LiveRun, AllEmpty, Fresh;
    var c2, l2 := OthersLookInVain(l1);
    var c3, l3 := TakesOver(l2, out, b);
    var c4;
    c4, l' := ScansInVain(l3, out, b);
    Join(l, c1, l1, c2, l2, c3, l3);
    Concat(l, c1 + c2 + c3, l3, c4, l');
    causes := c1 + c2 + c3 + c4;
    assert out + [ClearStart] == [Returned, Returned, Returned, ClearStart];
  }

  // ----------------------------------------------------- lost wake-ups

  /** A draw is published on ring c, and the call its submitter makes finds START. */
  lemma DrawComesLate(l: Live, threads: seq<Pc>, b: RingId, c: RingId, ctx: Context) returns (causes: seq<Cause>, l': Live)
    requires l.w.threads == threads && l.e == Calm && AllEmpty(l.w.d, b) && l.w.d.state == START && MutexFree(threads)
    requires c < |l.w.d.rings| && c != b
    ensures LiveRun(l, causes, l') && l'.w.threads == threads + [Returned] && l'.e == Calm
    ensures l'.w.d == l.w.d.(rings := l'.w.d.rings) && |l'.w.d.rings| == |l.w.d.rings|
    ensures Outstanding(l'.w.d.rings[c]) == 2
  {
    assert Untouched(l.w.d.rings[c]);
    var l1 := Happen(l, Plain(Switch(c, ctx, true)));
    var l2 := Happen(l1, Plain(Wptr(c)));
    var l3 := Happen(l2, Plain(Submit(c, ctx)));
    var l4 := Happen(l3, Plain(Wptr(c)));
    var l5 := Happen(l4, OwnCall);
    causes, l' := CallsInVain(l5, threads);
    hide Happen, Possible;
    causes := Then(l4, OwnCall, causes, l');
    causes := Then(l3, Plain(Wptr(c)), causes, l');
    causes := Then(l2, Plain(Submit(c, ctx)), causes, l');
    causes := Then(l1, Plain(Wptr(c)), causes, l');
    causes := Then(l, Plain(Switch(c, ctx, true)), causes, l');
  }

  /** The trigger returns. */
  lemma GivesUp(l: Live, k: nat) returns (l': Live)
    requires k < |l.w.threads| && l.w.threads[k] == ClearStart && l.e.callbacks == {}
    requires forall j | 0 <= j < |l.w.threads| && j != k :: l.w.threads[j] == Returned
    ensures Possible(l, Plain(Thread(k, true))) && l' == Happen(l, Plain(Thread(k, true)))
    ensures AllReturned(l'.w.threads) && l'.w.d == l.w.d.(state := NONE) && l'.e == l.e
  {
    l' := Happen(l, Plain(Thread(k, true)));
    assert l'.w.threads == l.w.threads[k := Returned];
  }

  /**
   The lost wake-up, with any number of rings: a draw comes to another ring after
   the trigger that ends a switch has scanned it; the call its submitter makes
   finds START; then the trigger finds nothing to do. No thread is left in the
   driver, no interrupt or call is due, and no fault was raised.
   */
  lemma WakeUpIsLost(l: Live, b: RingId, c: RingId, ctx: Context, late: Context) returns (causes: seq<Cause>, l': Live)
    requires Fresh(l) && b < |l.w.d.rings| && c < |l.w.d.rings| && b != l.w.d.cur && c != b
    ensures LiveRun(l, causes, l') && Quiet(l') && Stuck(l') && !CanFinish(l')
  {
    var c1, l1 := TriggerAboutToReturn(l, b, ctx);
    var c2, l2 := DrawComesLate(l1, l1.w.threads, b, c, late);
    l' := GivesUp(l2, 3);
    hide LiveRun, Happen, Possible, Pending;
    var c3 := ThenOne(l2, Plain(Thread(3, true)), l');
    Join(l, c1, l1, c2, l2, c3, l');
    causes := c1 + c2 + c3;
    EndsStuck(l, causes, l', c);
  }

  /** A counter is enabled through ring 0, which is current: its submitter sees no reason to schedule the dispatcher. */
  lemma CounterComesLate(l: Live) returns (causes: seq<Cause>, l': Live)
    requires l.e == Calm && AllEmpty(l.w.d, 0) && l.w.d.state == START && l.w.d.cur == 0
    ensures LiveRun(l, causes, l') && l'.w.threads == l.w.threads && l'.e == Calm
    ensures l'.w.d == l.w.d.(rings := l'.w.d.rings) && |l'.w.d.rings| == |l.w.d.rings|
    ensures Outstanding(l'.w.d.rings[0]) == 1
  {
    var l1 := Happen(l, Plain(Inline));
    var l2 := Happen(l1, Plain(Wptr(0)));
    l' := Happen(l2, CounterLooks);
    hide Happen, Possible;
    causes := Then(l2, CounterLooks, [], l');
    causes := Then(l1, Plain(Wptr(0)), causes, l');
    causes := Then(l, Plain(Inline), causes, l');
  }

  /**
   The same for a counter enabled through ring 0 while the trigger that ends a
   switch to ring 0 has not yet given the state back: its caller then waits for
   commands that the CP does not know of.
   */
  lemma CounterIsLost(l: Live, ctx: Context) returns (causes: seq<Cause>, l': Live)
    requires Fresh(l) && l.w.d.cur != 0
    ensures LiveRun(l, causes, l') && Quiet(l') && Stuck(l') && !CanFinish(l')
  {
    var c1, l1 := TriggerAboutToReturn(l, 0, ctx);
    var c2, l2 := CounterComesLate(l1);
    l' := GivesUp(l2, 3);
    hide LiveRun, Happen, Possible, Pending;
    var c3 := ThenOne(l2, Plain(Thread(3, true)), l');
    Join(l, c1, l1, c2, l2, c3, l');
    causes := c1 + c2 + c3;
    EndsStuck(l, causes, l', 0);
  }
}
