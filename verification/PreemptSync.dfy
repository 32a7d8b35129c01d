/** Which submissions the hardware hears of, and when the WPTR register lags behind. */
module PreemptSync {
  import opened Wrappers
  import opened PreemptModel
  import opened PreemptInvariant
  import opened PreemptTheorems
  import opened PreemptProgress
  import opened PreemptTrigger

  /** With no switch under way, a submission to the current ring is published. */
  predicate PublishesCurrent(w: World, s: Step) {
    s.Wptr? && s.i == w.d.cur < |w.d.rings| && !Armed(w.d)
  }

  /** The thread that acts is about to load the WPTR register itself. */
  predicate Reloads(w: World, s: Step) {
    s.Thread? && s.k < |w.threads| && (w.threads[s.k].UpdateCur? || w.threads[s.k].UpdateNew?)
  }

  /**
   Whether something lies unseen on the current ring, from the steps: a
   publication outside NONE with something new leaves it there, any other
   publication and any reload by a thread clears it.
   */
  function Unseen(w: World, s: Step, unseen: bool): bool {
    if PublishesCurrent(w, s) then w.d.state != NONE && |w.d.rings[w.d.cur].mem| != w.d.cp.wptr
    else unseen && !Reloads(w, s)
  }

  function UnseenAfter(w: World, steps: seq<Step>, w': World, unseen: bool): bool
    requires IsRun(w, steps, w')
    decreases |steps|
  {
    if steps == [] then unseen else UnseenAfter(Apply(w, steps[0]), steps[1..], w', Unseen(w, steps[0], unseen))
  }

  predicate SyncOk(w: World, unseen: bool) {
    && (w.d.state == NONE || w.d.state == START ==> Synced(w.d) == !unseen)
    && (forall k | 0 <= k < |w.threads| :: w.threads[k].ClearState? ==> Synced(w.d) == !unseen)
  }

  /** Of the submissions to the current ring, exactly those made outside NONE with something new stay unseen. */
  lemma PublishReachesHardware(w: World)
    requires Inv(w) && !Armed(w.d)
    ensures var d := w.d;
      Synced(Publish(d, d.cur)) <==> d.state == NONE || |d.rings[d.cur].mem| == d.cp.wptr
  {}

  /** One action of a thread that keeps its promise. */
  lemma AdvanceKeepsSync(d: Device, pc: Pc, awake: bool, unseen: bool)
    requires PhaseOk(d) && SafeAt(d, pc) && ThreadOk(d, pc)
    requires d.state == NONE || d.state == START ==> Synced(d) == !unseen
    requires pc.ClearState? ==> Synced(d) == !unseen
    ensures var (d', pc') := Advance(d, pc, awake);
      var unseen' := unseen && !(pc.UpdateCur? || pc.UpdateNew?);
      && (d'.state == NONE || d'.state == START ==> Synced(d') == !unseen')
      && (pc'.ClearState? ==> Synced(d') == !unseen')
  {}

  lemma OthersKeepSync(d: Device, pc: Pc, awake: bool, other: Pc)
    requires SafeAt(d, pc) && ThreadOk(d, pc) && ThreadOk(d, other) && !(Owner(pc) && Owner(other))
    requires other.ClearState?
    ensures !pc.UpdateCur? && !pc.UpdateNew? && Synced(Advance(d, pc, awake).0) == Synced(d)
  {}

  lemma ThreadKeepsSync(w: World, k: nat, awake: bool, unseen: bool)
    requires Inv(w) && SyncOk(w, unseen) && Enabled(w, Thread(k, awake))
    ensures Safe(w, Thread(k, awake))
    ensures SyncOk(Apply(w, Thread(k, awake)), Unseen(w, Thread(k, awake), unseen))
  {
    InvIsSafe(w, Thread(k, awake));
    var pc, w' := w.threads[k], Apply(w, Thread(k, awake));
    assert ThreadOk(w.d, pc);
    AdvanceKeepsSync(w.d, pc, awake, unseen);
    forall j | 0 <= j < |w'.threads| && w'.threads[j].ClearState?
      ensures Synced(w'.d) == !Unseen(w, Thread(k, awake), unseen)
    {
      if j != k {
        assert ThreadOk(w.d, w.threads[j]);
        ApartAt(w, j, k);
        OthersKeepSync(w.d, pc, awake, w.threads[j]);
      }
    }
  }

  lemma WptrKeepsSync(w: World, i: RingId, unseen: bool)
    requires Inv(w) && SyncOk(w, unseen) && Enabled(w, Wptr(i))
    ensures SyncOk(Apply(w, Wptr(i)), Unseen(w, Wptr(i), unseen))
  {
    var d := Publish(w.d, i);
    if i == w.d.cur && !Armed(w.d) { PublishReachesHardware(w); }
    forall k | 0 <= k < |w.threads| && w.threads[k].ClearState?
      ensures Synced(d) == !Unseen(w, Wptr(i), unseen)
    {
      assert ThreadOk(w.d, w.threads[k]);
    }
  }

  lemma SwitchKeepsSync(w: World, unseen: bool)
    requires Inv(w) && SyncOk(w, unseen) && Enabled(w, HwSwitch)
    ensures Safe(w, HwSwitch) && SyncOk(Apply(w, HwSwitch), unseen)
  {
    InvIsSafe(w, HwSwitch);
    assert Armed(w.d);
    forall k | 0 <= k < |w.threads| ensures !w.threads[k].ClearState? {
      assert ThreadOk(w.d, w.threads[k]);
    }
  }

  lemma OtherStepsKeepSync(w: World, s: Step, unseen: bool)
    requires Inv(w) && SyncOk(w, unseen) && Enabled(w, s)
    requires s.Run? || s.WriteRptr? || s.Switch? || s.Submit? || s.Inline? || s.Spawn?
    ensures Safe(w, s) && SyncOk(Apply(w, s), unseen)
  {
    InvIsSafe(w, s);
    if s.Run? { CpRunKeepsDevice(w.d); }
    var w' := Apply(w, s);
    assert w'.d.cp.wptr == w.d.cp.wptr && w'.d.cur == w.d.cur && w'.d.rings[w.d.cur].wptr == w.d.rings[w.d.cur].wptr;
    forall k | 0 <= k < |w'.threads| && w'.threads[k].ClearState? ensures Synced(w'.d) == !unseen {
      assert k < |w.threads| && w.threads[k] == w'.threads[k];
    }
  }

  lemma StepKeepsSync(w: World, s: Step, unseen: bool)
    requires Inv(w) && SyncOk(w, unseen) && Enabled(w, s)
    ensures Safe(w, s) && SyncOk(Apply(w, s), Unseen(w, s, unseen))
  {
    hide Inv, SyncOk, Safe, Apply, Enabled;
    match s
    case Thread(k, awake) => ThreadKeepsSync(w, k, awake, unseen);
    case Wptr(i) =>
      InvIsSafe(w, s);
      WptrKeepsSync(w, i, unseen);
    case HwSwitch => SwitchKeepsSync(w, unseen);
    case _ => OtherStepsKeepSync(w, s, unseen);
  }

  lemma {:induction false} RunKeepsSync(w: World, steps: seq<Step>, w': World, unseen: bool)
    requires Inv(w) && SyncOk(w, unseen) && IsRun(w, steps, w')
    ensures SyncOk(w', UnseenAfter(w, steps, w', unseen))
    decreases |steps|
  {
    if steps != [] {
      StepKeepsInv(w, steps[0]);
      StepKeepsSync(w, steps[0], unseen);
      hide Inv, SyncOk, Apply, Enabled, Safe, Unseen;
      RunKeepsSync(Apply(w, steps[0]), steps[1..], w', Unseen(w, steps[0], unseen));
    }
  }

  /**
   In every run: whenever the state is NONE, the hardware knows all that is
   published on the current ring if and only if the last publication there with
   no switch under way fell into NONE or found nothing new, or a thread has
   reloaded the register since.
   */
  lemma NoneMeansSynced(w: World, steps: seq<Step>, w': World)
    requires Initial(w) && IsRun(w, steps, w') && w'.d.state == NONE
    ensures w'.d.cur < |w'.d.rings| && w'.d.cp.rbBase == w'.d.cur
    ensures w'.d.cp.wptr == w'.d.rings[w'.d.cur].wptr <==> !UnseenAfter(w, steps, w', false)
  {
    InitialOk(w);
    RunKeepsInv(w, steps, w');
    RunKeepsSync(w, steps, w', false);
  }

  // ------------------------------------------------- a run where it lags

  lemma {:induction false} ScanAll(d: Device, i: nat) returns (steps: seq<Step>)
    requires i <= |d.rings| && forall k | 0 <= k < |d.rings| :: LooksEmpty(d.rings[k])
    ensures IsRun(World(d, [Scan(i)]), steps, World(d, [Scan(|d.rings|)]))
    decreases |d.rings| - i
  {
    if i == |d.rings| {
      steps := [];
    } else {
      var rest := ScanAll(d, i + 1);
      assert [Scan(i)][0 := Scan(i + 1)] == [Scan(i + 1)];
      steps := PrependStep(World(d, [Scan(i)]), Thread(0, true), rest, World(d, [Scan(|d.rings|)]));
    }
  }

  lemma ScanEmptyDevice(w: World) returns (steps: seq<Step>)
    requires Initial(w)
    ensures IsRun(w, steps, World(w.d.(state := START), [Scan(|w.d.rings|)]))
  {
    var d := w.d.(state := START);
    var rest := ScanAll(d, 0);
    var w1 := Apply(w, Spawn(TryTrigger));
    assert Apply(w1, Thread(0, true)) == World(d, [Scan(0)]);
    var end := World(d, [Scan(|w.d.rings|)]);
    hide Apply, Enabled, Safe;
    steps := PrependStep(w1, Thread(0, true), rest, end);
    steps := PrependStep(w, Spawn(TryTrigger), steps, end);
  }

  /** The scan is over, a submission comes, the trigger gives the state back. */
  lemma TooLateForTheScan(d: Device, ctx: Context) returns (steps: seq<Step>, w': World)
    requires d.state == START && d.cur < |d.rings| && d.rings[d.cur].mem == [] && d.rings[d.cur].active == None
    ensures IsRun(World(d, [Scan(|d.rings|)]), steps, w') && w'.d.state == NONE && w'.threads == [Returned]
    ensures |w'.d.rings| == |d.rings| && w'.d.cur == d.cur
    ensures w'.d.cp == d.cp && w'.d.rings[d.cur].wptr == 2
  {
    var c, w := d.cur, World(d, [Scan(|d.rings|)]);
    var w1 := Apply(w, Switch(c, ctx, true));
    var w2 := Apply(w1, Submit(c, ctx));
    var w3 := Apply(w2, Wptr(c));
    var w4 := Apply(w3, Thread(0, true));
    assert w4.threads == [ClearStart];
    w' := Apply(w4, Thread(0, true));
    assert w'.threads == [Returned];
    hide Apply, Enabled, Safe;
    steps := [];
    steps := PrependStep(w4, Thread(0, true), steps, w');
    steps := PrependStep(w3, Thread(0, true), steps, w');
    steps := PrependStep(w2, Wptr(c), steps, w');
    steps := PrependStep(w1, Submit(c, ctx), steps, w');
    steps := PrependStep(w, Switch(c, ctx, true), steps, w');
  }

  /**
   The lag does occur, with any number of rings: a submission to the current
   ring between the end of a trigger's scan and its return lies unseen although
   every thread has returned and the state is NONE.
   */
  lemma LateSubmissionLiesUnseen(w: World, ctx: Context) returns (steps: seq<Step>, w': World)
    requires Initial(w)
    ensures IsRun(w, steps, w') && w'.d.state == NONE && w'.threads == [Returned]
    ensures |w'.d.rings| == |w.d.rings| && w'.d.cur == w.d.cur < |w.d.rings|
    ensures w'.d.cp.wptr == 0 && w'.d.rings[w.d.cur].wptr == 2
  {
    var d := w.d.(state := START);
    var scan := ScanEmptyDevice(w);
    var rest;
    rest, w' := TooLateForTheScan(d, ctx);
    RunConcat(w, scan, World(d, [Scan(|d.rings|)]), rest, w');
    steps := scan + rest;
  }
}
