/** Why no submission is lost, and exactly when one lies where nobody will look for it. */
module PreemptLost {
  import opened Wrappers
  import opened PreemptModel
  import opened PreemptInvariant
  import opened PreemptTheorems
  import opened PreemptProgress
  import opened PreemptEvents
  import opened PreemptLiveness

  // ------------------------------------------------- once lost, always lost

  /** Where a thread is that will not look any more: nothing but the state can change by it. */
  lemma TurnsAway(d: Device, pc: Pc, awake: bool, e: Events)
    requires DeviceOk(d) && ThreadOk(d, pc) && SafeAt(d, pc)
    requires !Armed(d) && !WillLook(d, pc) && d.cp.rptr >= d.cp.wptr
    ensures var (d', pc') := Advance(d, pc, awake);
      d' == d.(state := d'.state) && !WillLook(d', pc') && SetsOff(d, pc, awake, e) == e
  {
    hide TableAfter, Solo;
    if pc.Scan? && pc.i < |d.rings| {
      assert RingOk(d.rings[pc.i], pc.i, d.defaultTtbr0);
      assert Outstanding(d.rings[pc.i]) == 0;
      assert pc.i != d.cur ==> ParkedOk(d.rings[pc.i]);
    } else if pc.UpdateCur? {
      assert RingOk(d.rings[d.cur], d.cur, d.defaultTtbr0);
    }
  }

  lemma OthersAreBlind(d: Device, state: PreemptState, pc: Pc)
    ensures WillLook(d.(state := state), pc) == WillLook(d, pc)
  {}

  lemma NoHopeThread(l: Live, k: nat, awake: bool)
    requires LiveInv(l) && Possible(l, Plain(Thread(k, awake))) && !Hope(l)
    ensures var l' := Happen(l, Plain(Thread(k, awake)));
      !Hope(l') && l'.w.d.rings == l.w.d.rings
  {
    var w, pc := l.w, l.w.threads[k];
    assert ThreadOk(w.d, pc) && !WillLook(w.d, pc);
    TurnsAway(w.d, pc, awake, l.e);
    var (d', pc') := Advance(w.d, pc, awake);
    var w' := Apply(w, Thread(k, awake));
    forall j | 0 <= j < |w'.threads| ensures !WillLook(d', w'.threads[j]) {
      if j != k {
        assert w'.threads[j] == w.threads[j] && !WillLook(w.d, w.threads[j]);
        OthersAreBlind(w.d, d'.state, w.threads[j]);
      }
    }
    hide Inv, Noticed, WillLook, Advance, SetsOff;
  }

  /** The passes that may still begin are over at once. */
  lemma NoHopePass(l: Live, c: Cause)
    requires LiveInv(l) && Possible(l, c) && IsPass(c) && !Hope(l)
    ensures !Hope(Happen(l, c)) && Happen(l, c).w.d == l.w.d
  {
    var w' := Apply(l.w, Spawn(EntryOf(c)));
    assert Happen(l, c).w == w';
    forall j | 0 <= j < |w'.threads| ensures !WillLook(l.w.d, w'.threads[j]) {
      if j < |l.w.threads| { assert w'.threads[j] == l.w.threads[j]; }
    }
    hide Inv, Noticed;
  }

  lemma SameOutstanding(d: Device, d': Device, pc: Pc)
    requires |d'.rings| == |d.rings| && d'.cur == d.cur
    requires forall i | 0 <= i < |d.rings| :: Outstanding(d'.rings[i]) == Outstanding(d.rings[i])
    ensures WillLook(d', pc) == WillLook(d, pc)
  {}

  /** Writing to a ring publishes nothing, and the CP at rest does nothing. */
  lemma AtRest(w: World, s: Step)
    requires Inv(w) && Enabled(w, s) && !s.Thread? && !s.Spawn? && !s.Wptr? && !s.Run? && !s.HwSwitch?
    ensures Safe(w, s)
    ensures var w' := Apply(w, s);
      && w'.threads == w.threads && w'.d == w.d.(rings := w'.d.rings) && |w'.d.rings| == |w.d.rings|
      && forall i | 0 <= i < |w.d.rings| :: Outstanding(w'.d.rings[i]) == Outstanding(w.d.rings[i])
  {
    InvIsSafe(w, s);
  }

  lemma NoHopeEnvironment(l: Live, s: Step)
    requires LiveInv(l) && Possible(l, Plain(s)) && !s.Thread? && !s.Wptr? && !Hope(l)
    ensures var l' := Happen(l, Plain(s));
      !Hope(l') && Pending(l'.w.d.rings) == Pending(l.w.d.rings)
  {
    var w, w' := l.w, Apply(l.w, s);
    AtRest(w, s);
    SamePending(w.d.rings, w'.d.rings);
    forall j | 0 <= j < |w'.threads| ensures !WillLook(w'.d, w'.threads[j]) {
      assert !WillLook(w.d, w.threads[j]);
      SameOutstanding(w.d, w'.d, w.threads[j]);
    }
    hide Inv, Noticed, WillLook, Pending;
  }

  lemma StaysLost(l: Live, c: Cause)
    requires LiveInv(l) && Lost(l) && Possible(l, c) && !Publishes(c)
    ensures LiveInv(Happen(l, c)) && Lost(Happen(l, c))
    ensures Pending(Happen(l, c).w.d.rings) == Pending(l.w.d.rings)
  {
    LiveStep(l, c);
    hide LiveInv, Due, SomeoneWillLook, Pending;
    if IsPass(c) {
      NoHopePass(l, c);
    } else if c.CounterLooks? {
    } else if c.s.Thread? {
      NoHopeThread(l, c.s.k, c.s.awake);
    } else {
      NoHopeEnvironment(l, c.s);
    }
  }

  lemma {:induction false} StaysLostForGood(l: Live, causes: seq<Cause>, l': Live)
    requires LiveInv(l) && Lost(l) && LiveRun(l, causes, l') && NothingPublished(causes)
    ensures LiveInv(l') && Lost(l') && Pending(l'.w.d.rings) == Pending(l.w.d.rings)
    decreases |causes|
  {
    if causes != [] {
      assert !Publishes(causes[0]);
      StaysLost(l, causes[0]);
      assert forall k | 0 <= k < |causes| - 1 :: causes[1..][k] == causes[k + 1];
      hide LiveInv, Lost, Possible, Happen, Pending;
      StaysLostForGood(Happen(l, causes[0]), causes[1..], l');
    }
  }

  // ------------------------------------------------------- the theorems

  /** Everything that is published can be run without a fault and without anything more being published. */
  ghost predicate CanFinish(l: Live) {
    exists causes, l' ::
      LiveRun(l, causes, l') && NothingPublished(causes) && Pending(l'.w.d.rings) == 0 && !l'.e.broken
  }

  /**
   Wherever threads stand, what is due is enough to have everything published run
   to its end if and only if nothing is lost: nothing is pending, or the CP has
   something to run, or a switch is outstanding, or an interrupt, the dispatcher, a
   call or a counter's look is due that will trigger, or a thread will still
   look where there is work.
   */
  lemma FinishesExactly(l: Live)
    requires LiveInv(l) && !l.e.broken
    ensures CanFinish(l) <==> !Lost(l)
  {
    hide LiveInv, Lost, Quiet, Pending;
    if Lost(l) {
      if CanFinish(l) {
        var causes, l' :| LiveRun(l, causes, l') && NothingPublished(causes) && Pending(l'.w.d.rings) == 0;
        StaysLostForGood(l, causes, l');
        LostHasWork(l');
      }
    } else {
      var out, lq := Quiesce(l);
      var rest, l' := FinishAll(lq);
      Concat(l, out, lq, rest, l');
      OverAndQuiet(l');
      assert LiveRun(l, out + rest, l') && NothingPublished(out + rest);
    }
  }

  lemma LostHasWork(l: Live)
    requires Lost(l)
    ensures Pending(l.w.d.rings) > 0
  {}

  lemma OverAndQuiet(l: Live)
    requires Quiet(l) && Over(l.w.d)
    ensures Pending(l.w.d.rings) == 0 && !l.e.broken
  {}

  /**
   Nobody is in the driver, the CP has nothing to run and nothing is due that
   would make the driver look; yet a ring holds a published submission.
   */
  predicate Stuck(l: Live) {
    && AllReturned(l.w.threads) && l.w.d.state == NONE && l.w.d.cp.rptr == l.w.d.cp.wptr
    && !l.e.tsIrq && !l.e.sched && l.e.own == 0 && (l.e.looks > 0 ==> l.w.d.cur == 0)
    && Pending(l.w.d.rings) > 0
  }

  /** With no thread in the driver, that is what being lost comes to. */
  lemma LostIsStuck(l: Live)
    requires Quiet(l)
    ensures Lost(l) <==> Stuck(l)
  {
    NobodyLooks(l.w);
    assert CpOk(l.w.d);
    assert l.e.callbacks == {};
    UnmannedStates(l.w);
    hide CpOk, RingsOk, ThreadsOk, Pending;
  }

  predicate AllRun(d: Device, d': Device) {
    && |d'.rings| == |d.rings|
    && forall i | 0 <= i < |d.rings| ::
         d.rings[i].wptr <= |d.rings[i].mem| && d'.rings[i].ran == Solo(d.defaultTtbr0, d.rings[i].mem[..d.rings[i].wptr])
  }

  lemma RingAllRun(r: Ring, r1: Ring, i: RingId, dflt: nat)
    requires RingOk(r, i, dflt) && RingOk(r1, i, dflt) && Outstanding(r1) == 0 && r1.wptr == r.wptr && r.mem <= r1.mem
    ensures r.wptr <= |r.mem| && r1.ran == Solo(dflt, r.mem[..r.wptr])
  {
    hide TableAfter, Solo;
    assert r1.mem[..r1.wptr] == r.mem[..r.wptr];
  }

  lemma NothingPendingAllRun(d: Device, w: World)
    requires Inv(w) && Pending(w.d.rings) == 0 && Kept(d, w.d) && RingsOk(d)
    ensures AllRun(d, w.d)
  {
    PendingZero(w.d.rings);
    hide RingOk, Solo, Pending, Outstanding, ThreadsOk, CpOk, PhaseOk;
    forall i | 0 <= i < |d.rings|
      ensures d.rings[i].wptr <= |d.rings[i].mem|
      ensures w.d.rings[i].ran == Solo(d.defaultTtbr0, d.rings[i].mem[..d.rings[i].wptr])
    {
      RingAllRun(d.rings[i], w.d.rings[i], i, d.defaultTtbr0);
    }
  }

  /**
   After any run in which no fault was raised, wherever threads stand in the
   driver and whatever switch is under way, the causes that are due let all
   threads return and the state come to NONE. If nothing was lost, every ring has
   then run exactly what was published to it, in order and with its own tables;
   if something was, the world gets stuck, and no other continuation would help.
   */
  lemma NoSubmissionIsLost(l: Live, causes: seq<Cause>, l1: Live) returns (more: seq<Cause>, l2: Live)
    requires Fresh(l) && LiveRun(l, causes, l1) && !l1.e.broken
    ensures LiveRun(l1, more, l2) && NothingPublished(more)
    ensures AllReturned(l2.w.threads) && l2.w.d.state == NONE && !l2.e.broken
    ensures if Lost(l1) then Stuck(l2) && !CanFinish(l1) else AllRun(l1.w.d, l2.w.d)
  {
    FreshIsOk(l);
    LiveRunKeepsInv(l, causes, l1);
    more, l2 := LeaveAndFinish(l1);
    FinishesExactly(l1);
  }

  lemma FreshIsOk(l: Live)
    requires Fresh(l)
    ensures LiveInv(l)
  {
    InitialOk(l.w);
  }

  lemma LeaveAndFinish(l: Live) returns (more: seq<Cause>, l': Live)
    requires LiveInv(l) && !l.e.broken
    ensures LiveRun(l, more, l') && NothingPublished(more)
    ensures AllReturned(l'.w.threads) && l'.w.d.state == NONE && !l'.e.broken
    ensures if Lost(l) then Stuck(l') else AllRun(l.w.d, l'.w.d)
  {
    var lq;
    more, lq := Quiesce(l);
    if Lost(l) {
      l' := lq;
      StaysLostForGood(l, more, l');
      LostIsStuck(l');
    } else {
      var rest;
      rest, l' := FinishAll(lq);
      Concat(l, more, lq, rest, l');
      more := more + rest;
      RunKeeps(l, more, l');
      hide Lost;
      NothingPendingAllRun(l.w.d, l'.w);
    }
  }
}
