/** What the preemption protocol guarantees over whole runs. */
module PreemptTheorems {
  import opened Wrappers
  import opened PreemptModel
  import opened PreemptInvariant

  // ------------------------------------------------ safety over all runs

  lemma {:induction false} SoloLength(dflt: nat, mem: seq<Entry>)
    ensures |Solo(dflt, mem)| == |mem|
  {
    if mem != [] { SoloLength(dflt, mem[..|mem| - 1]); }
  }

  /** Position k of a ring run alone is entry k, with the last table its own stream has set. */
  lemma {:induction false} SoloAt(dflt: nat, mem: seq<Entry>, k: nat)
    requires k < |mem|
    ensures |Solo(dflt, mem)| == |mem|
    ensures Solo(dflt, mem)[k] == Ran(mem[k], TableAfter(dflt, mem[..k + 1]))
  {
    SoloLength(dflt, mem);
    SoloLength(dflt, mem[..|mem| - 1]);
    if k < |mem| - 1 {
      SoloAt(dflt, mem[..|mem| - 1], k);
      assert mem[..|mem| - 1][..k + 1] == mem[..k + 1];
    } else {
      assert mem[..k + 1] == mem;
    }
  }

  /**
   Preemption is transparent: in any run the CP has run from every ring an
   in-order prefix of what was submitted to it, and each submission with the
   page table it would have had if no other ring existed.
   */
  lemma PreemptionIsTransparent(w: World, steps: seq<Step>, w': World, i: RingId)
    requires Initial(w) && IsRun(w, steps, w') && i < |w'.d.rings|
    ensures var r := w'.d.rings[i];
      && |r.ran| <= r.wptr <= |r.mem|
      && r.ran == Solo(w'.d.defaultTtbr0, r.mem[..|r.ran|])
      && forall k | 0 <= k < |r.ran| ::
           r.ran[k] == Ran(r.mem[k], TableAfter(w'.d.defaultTtbr0, r.mem[..k + 1]))
  {
    InitialOk(w);
    RunKeepsInv(w, steps, w');
    var r, dflt := w'.d.rings[i], w'.d.defaultTtbr0;
    assert RingOk(r, i, dflt);
    forall k | 0 <= k < |r.ran| ensures r.ran[k] == Ran(r.mem[k], TableAfter(dflt, r.mem[..k + 1])) {
      SoloAt(dflt, r.mem[..|r.ran|], k);
      assert r.mem[..|r.ran|][..k + 1] == r.mem[..k + 1];
    }
  }

  /** Read pointer, hardware WPTR and ring wptr stay in order, and the SMMU has the ring's own table. */
  lemma HardwareAgreesWithItsRing(w: World, steps: seq<Step>, w': World)
    requires Initial(w) && IsRun(w, steps, w')
    ensures var d := w'.d;
      && d.cp.rbBase < |d.rings|
      && d.rings[d.cp.rbBase].shadowRptr <= d.cp.rptr <= d.cp.wptr <= d.rings[d.cp.rbBase].wptr
      && d.cp.rptr == |d.rings[d.cp.rbBase].ran|
      && d.cp.smmu == d.rings[d.cp.rbBase].scratch
      && d.cp.rptr <= |d.rings[d.cp.rbBase].mem|
      && d.cp.smmu == TableAfter(d.defaultTtbr0, d.rings[d.cp.rbBase].mem[..d.cp.rptr])
  {
    InitialOk(w);
    RunKeepsInv(w, steps, w');
    assert RingOk(w'.d.rings[w'.d.cp.rbBase], w'.d.cp.rbBase, w'.d.defaultTtbr0);
  }

  predicate StaysHome(d: Device, d1: Device) {
    && d1.cp.rbBase == d.cp.rbBase < |d1.rings|
    && (d1.cp.wptr != d.cp.wptr ==> d1.cp.wptr == d1.rings[d.cp.rbBase].wptr)
    && d.cp.wptr <= d1.cp.wptr
  }

  lemma ThreadStaysHome(d: Device, pc: Pc, awake: bool)
    requires CpOk(d) && PhaseOk(d) && ThreadOk(d, pc) && SafeAt(d, pc)
    ensures StaysHome(d, Advance(d, pc, awake).0)
  {}

  lemma EnvironmentStaysHome(w: World, s: Step)
    requires CpOk(w.d) && PhaseOk(w.d) && Enabled(w, s) && Safe(w, s) && !s.Thread? && !s.HwSwitch?
    requires s.Wptr? ==> w.d.rings[s.i].wptr <= |w.d.rings[s.i].mem|
    ensures StaysHome(w.d, Apply(w, s).d)
  {
    hide ThreadOk, RingOk;
  }

  /** The driver never loads the WPTR register with the pointer of a ring the hardware is not on. */
  lemma WptrRegisterStaysHome(w: World, steps: seq<Step>, w': World, s: Step)
    requires Initial(w) && IsRun(w, steps, w') && Enabled(w', s) && !s.HwSwitch?
    ensures Safe(w', s)
    ensures var d, d1 := w'.d, Apply(w', s).d;
      && d1.cp.rbBase == d.cp.rbBase < |d1.rings|
      && (d1.cp.wptr != d.cp.wptr ==> d1.cp.wptr == d1.rings[d.cp.rbBase].wptr)
      && d.cp.wptr <= d1.cp.wptr
  {
    InitialOk(w);
    RunKeepsInv(w, steps, w');
    InvIsSafe(w', s);
    OneStepStaysHome(w', s);
  }

  lemma OneStepStaysHome(w: World, s: Step)
    requires Inv(w) && Enabled(w, s) && Safe(w, s) && !s.HwSwitch?
    ensures StaysHome(w.d, Apply(w, s).d)
  {
    if s.Thread? {
      assert ThreadOk(w.d, w.threads[s.k]);
      hide Inv, CpOk, PhaseOk, ThreadOk, StaysHome, Advance;
      ThreadStaysHome(w.d, w.threads[s.k], s.awake);
    } else {
      if s.Wptr? { assert RingOk(w.d.rings[s.i], s.i, w.d.defaultTtbr0); }
      hide Inv, CpOk, PhaseOk, StaysHome, Apply;
      EnvironmentStaysHome(w, s);
    }
  }

  predicate Extends(r: Ring, r1: Ring) {
    r.mem <= r1.mem && r.ran <= r1.ran
  }

  lemma ThreadsDoNotSubmit(d: Device, pc: Pc, awake: bool, i: RingId)
    requires SafeAt(d, pc) && i < |d.rings|
    ensures var d1 := Advance(d, pc, awake).0;
      |d1.rings| == |d.rings| && d1.rings[i] == d.rings[i].(desc := d1.rings[i].desc)
  {}

  predicate Keeps(d: Device, d1: Device, i: RingId, publishes: bool) {
    && i < |d.rings| == |d1.rings| && Extends(d.rings[i], d1.rings[i])
    && (d1.rings[i].wptr != d.rings[i].wptr ==> publishes && d1.rings[i].wptr == |d.rings[i].mem|)
  }

  lemma RunKeepsHistory(d: Device, i: RingId)
    requires DeviceOk(d) && d.cp.rptr < d.cp.wptr && i < |d.rings|
    ensures Keeps(d, CpRun(d), i, false)
  {
    CpRunKeepsDevice(d);
    hide TableAfter, Solo, RingOk, PhaseOk;
  }

  lemma EnvironmentKeepsHistory(w: World, s: Step, i: RingId)
    requires Enabled(w, s) && Safe(w, s) && i < |w.d.rings| && !s.Thread? && !s.Run?
    ensures Keeps(w.d, Apply(w, s).d, i, s == Wptr(i))
  {}

  /**
   What was written to a ring and what was run from it is never taken back,
   and only the locked section of a submission publishes.
   */
  lemma HistoryIsKept(w: World, s: Step, i: RingId)
    requires Inv(w) && Enabled(w, s) && i < |w.d.rings|
    ensures Safe(w, s) && |Apply(w, s).d.rings| == |w.d.rings|
    ensures var r, r1 := w.d.rings[i], Apply(w, s).d.rings[i];
      Extends(r, r1) && (r1.wptr != r.wptr ==> s == Wptr(i) && r1.wptr == |r.mem|)
  {
    InvIsSafe(w, s);
    hide ThreadsOk, DeviceOk, Advance, CpRun, SafeAt, Extends;
    match s
    case Thread(k, awake) => ThreadKeepsHistory(w.d, w.threads[k], awake, i);
    case Run => RunKeepsHistory(w.d, i);
    case _ => EnvironmentKeepsHistory(w, s, i);
  }

  lemma ThreadKeepsHistory(d: Device, pc: Pc, awake: bool, i: RingId)
    requires SafeAt(d, pc) && i < |d.rings|
    ensures Keeps(d, Advance(d, pc, awake).0, i, false)
  {
    ThreadsDoNotSubmit(d, pc, awake, i);
    hide Advance;
  }

  /** Of all threads in the driver at most one is past a compare-and-swap it won. */
  lemma AtMostOneOwner(w: World, steps: seq<Step>, w': World, j: nat, k: nat)
    requires Initial(w) && IsRun(w, steps, w')
    requires j < |w'.threads| && k < |w'.threads| && j != k
    ensures !(Owner(w'.threads[j]) && Owner(w'.threads[k]))
  {
    InitialOk(w);
    RunKeepsInv(w, steps, w');
    ApartAt(w', j, k);
  }

  /**
   The protocol invariant: at most one switch is outstanding, and while one is,
   next_rb names a ring other than cur_rb. TRIGGERED and FAULTED always have
   one outstanding; NONE and START never.
   */
  lemma SwitchesAreAccountedFor(w: World, steps: seq<Step>, w': World)
    requires Initial(w) && IsRun(w, steps, w')
    ensures var d := w'.d;
      && d.cur < |d.rings|
      && 0 <= d.armed - d.swapped <= 1
      && (d.armed - d.swapped == 1 ==>
            d.next.Some? && d.next.value < |d.rings| && d.next.value != d.cur && d.cp.restore == d.next.value)
      && (d.state == TRIGGERED || d.state == FAULTED ==> d.armed - d.swapped == 1)
      && (d.state == NONE || d.state == START ==> d.armed == d.swapped && d.cp.rbBase == d.cur)
      && (d.state == PENDING || d.state == COMPLETE ==>
            d.armed - d.swapped == 1 || !d.cp.cntl)
  {
    InitialOk(w);
    RunKeepsInv(w, steps, w');
  }

  /** A switch always saves the outgoing ring to its own record. */
  lemma SwitchSavesToOwnRecord(w: World, steps: seq<Step>, w': World)
    requires Initial(w) && IsRun(w, steps, w') && Enabled(w', HwSwitch)
    ensures w'.d.cp.save == w'.d.cp.rbBase == w'.d.cur
    ensures w'.d.next == Some(w'.d.cp.restore)
    ensures Safe(w', HwSwitch)
    ensures var d := Apply(w', HwSwitch).d;
      d.cp.rbBase == w'.d.cp.restore && d.cp.rptr < d.cp.wptr
  {
    InitialOk(w);
    RunKeepsInv(w, steps, w');
    StepKeepsInv(w', HwSwitch);
    CpSwitchKeepsDevice(w'.d);
  }

  // --------------------------------------------- a thread left undisturbed

  /** How far a thread can still go. */
  function Rank(rings: nat, pc: Pc): nat {
    match pc
    case Returned => 0
    case TryTrigger => rings + 20
    case Scan(i) => if i < rings then rings - i + 10 else 10
    case UpdateCur => 6
    case ClearStart => 5
    case WriteRecord(_) => 4
    case Program(_, _) => 3
    case Arm(_) => 2
    case TryPending => rings + 25
    case ReadStatus => rings + 24
    case Swap(_) => rings + 23
    case UpdateNew(_) => rings + 22
    case ClearState(_) => rings + 21
    case TryFaulted => 1
    case SchedLock => rings + 26
    case SchedLook => rings + 25
    case DoneStatus => rings + 24
    case WorkLock => 3
    case WorkLook => 2
    case FaultStatus => 1
  }

  lemma AdvanceGoesOn(d: Device, pc: Pc, awake: bool)
    requires SafeAt(d, pc) && pc != Returned
    ensures var (d', pc') := Advance(d, pc, awake);
      |d'.rings| == |d.rings| && Rank(|d.rings|, pc') < Rank(|d.rings|, pc)
  {}

  lemma AdvanceAlone(d: Device, pc: Pc, awake: bool)
    requires Inv(World(d, [pc])) && pc != Returned
    ensures SafeAt(d, pc)
    ensures var (d', pc') := Advance(d, pc, awake);
      Inv(World(d', [pc'])) && |d'.rings| == |d.rings| && Rank(|d.rings|, pc') < Rank(|d.rings|, pc)
  {
    var w := World(d, [pc]);
    OnlyThreadIsEnabled(d, pc, awake);
    hide Inv, Advance, Rank, SafeAt, Enabled;
    ThreadKeepsInv(w, 0, awake);
    AdvanceGoesOn(d, pc, awake);
    assert [pc][0 := Advance(d, pc, awake).1] == [Advance(d, pc, awake).1];
  }

  lemma OnlyThreadIsEnabled(d: Device, pc: Pc, awake: bool)
    ensures Enabled(World(d, [pc]), Thread(0, awake))
  {}

  /** The device after a thread has run to its end with nothing in between. */
  function Finish(d: Device, pc: Pc, awake: bool): (r: Device)
    requires Inv(World(d, [pc]))
    ensures Inv(World(r, [Returned])) && |r.rings| == |d.rings|
    decreases Rank(|d.rings|, pc)
  {
    if pc == Returned then d
    else
      AdvanceAlone(d, pc, awake);
      var (d', pc') := Advance(d, pc, awake);
      Finish(d', pc', awake)
  }

  /** One action of an undisturbed thread. */
  lemma Onward(d: Device, pc: Pc, awake: bool)
    requires Inv(World(d, [pc])) && pc != Returned
    ensures SafeAt(d, pc)
    ensures var (d', pc') := Advance(d, pc, awake);
      Inv(World(d', [pc'])) && Finish(d, pc, awake) == Finish(d', pc', awake)
  {
    AdvanceAlone(d, pc, awake);
  }

  lemma FinishReturned(d: Device, awake: bool)
    requires Inv(World(d, [Returned]))
    ensures Finish(d, Returned, awake) == d
  {}

  /** The lowest-numbered ring from i on that looks non-empty, or the number of rings. */
  function FirstBusy(rings: seq<Ring>, i: nat): (n: nat)
    requires i <= |rings|
    ensures i <= n <= |rings|
    ensures forall k | i <= k < n :: LooksEmpty(rings[k])
    ensures n < |rings| ==> !LooksEmpty(rings[n])
    decreases |rings| - i
  {
    if i == |rings| || !LooksEmpty(rings[i]) then i else FirstBusy(rings, i + 1)
  }

  lemma ScanGoesOn(d: Device, i: nat, awake: bool)
    requires Inv(World(d, [Scan(i)])) && i < |d.rings| && LooksEmpty(d.rings[i])
    ensures Inv(World(d, [Scan(i + 1)])) && Finish(d, Scan(i), awake) == Finish(d, Scan(i + 1), awake)
  {
    hide Inv, Finish;
    Onward(d, Scan(i), awake);
  }

  lemma {:induction false} ScanFindsFirstBusy(d: Device, i: nat, awake: bool)
    requires Inv(World(d, [Scan(i)])) && i <= |d.rings|
    ensures var n := FirstBusy(d.rings, i);
      Inv(World(d, [Scan(n)])) && Finish(d, Scan(i), awake) == Finish(d, Scan(n), awake)
    decreases |d.rings| - i
  {
    hide Inv, Finish;
    if i < |d.rings| && LooksEmpty(d.rings[i]) {
      ScanGoesOn(d, i, awake);
      ScanFindsFirstBusy(d, i + 1, awake);
    }
  }

  /** Every ring looks empty: by the order of the pointers, WPTR is already up to date. */
  lemma ScanFindsNothing(d: Device, awake: bool)
    requires Inv(World(d, [Scan(|d.rings|)])) && FirstBusy(d.rings, 0) == |d.rings|
    ensures Finish(d, Scan(|d.rings|), awake) == d.(state := NONE)
    ensures d.cp.wptr == d.rings[d.cur].wptr
  {
    EmptyIsSynced(d);
    hide Inv, Finish, FirstBusy;
    Onward(d, Scan(|d.rings|), awake);
    GivesBack(d, awake);
  }

  lemma EmptyIsSynced(d: Device)
    requires Inv(World(d, [Scan(|d.rings|)])) && FirstBusy(d.rings, 0) == |d.rings|
    ensures d.cur < |d.rings| && d.cp.wptr == d.rings[d.cur].wptr
  {
    assert ThreadOk(d, [Scan(|d.rings|)][0]);
    assert LooksEmpty(d.rings[d.cur]) && RingOk(d.rings[d.cur], d.cur, d.defaultTtbr0);
    hide TableAfter, Solo, ThreadsOk;
  }

  lemma GivesBack(d: Device, awake: bool)
    requires Inv(World(d, [ClearStart]))
    ensures Finish(d, ClearStart, awake) == d.(state := NONE)
  {
    hide Inv, Finish;
    Onward(d, ClearStart, awake);
    FinishReturned(d.(state := NONE), awake);
  }

  lemma ScanFindsCurrent(d: Device, awake: bool)
    requires Inv(World(d, [Scan(d.cur)])) && d.cur < |d.rings| && !LooksEmpty(d.rings[d.cur])
    ensures Finish(d, Scan(d.cur), awake)
         == d.(state := NONE, cp := d.cp.(wptr := d.rings[d.cur].wptr))
  {
    hide Inv, Finish;
    Onward(d, Scan(d.cur), awake);
    Onward(d, UpdateCur, awake);
    GivesBack(UpdateWptr(d), awake);
  }

  lemma ScanFindsOther(d: Device, n: RingId, awake: bool)
    requires Inv(World(d, [Scan(n)])) && n < |d.rings| && n != d.cur && !LooksEmpty(d.rings[n])
    ensures Finish(d, Scan(n), awake)
         == ArmSwitch(ProgramSwitch(FillRecord(d, n), n, d.rings[n].scratch))
  {
    Onward(d, Scan(n), awake);
    Onward(d, WriteRecord(n), awake);
    SwitchIsProgrammed(FillRecord(d, n), n, d.rings[n].scratch, awake);
  }

  lemma SwitchIsProgrammed(d: Device, n: RingId, table: Smmu, awake: bool)
    requires Inv(World(d, [Program(n, table)]))
    ensures Finish(d, Program(n, table), awake) == ArmSwitch(ProgramSwitch(d, n, table))
  {
    Onward(d, Program(n, table), awake);
    Onward(ProgramSwitch(d, n, table), Arm(n), awake);
  }

  lemma TriggerScans(d: Device, awake: bool)
    requires Inv(World(d, [TryTrigger])) && d.state == NONE
    ensures var d1, n := d.(state := START), FirstBusy(d.rings, 0);
      Inv(World(d1, [Scan(n)])) && Finish(d, TryTrigger, awake) == Finish(d1, Scan(n), awake)
  {
    AdvanceAlone(d, TryTrigger, awake);
    ScanFindsFirstBusy(d.(state := START), 0, awake);
  }

  /**
   Repair: a trigger that nobody disturbs leaves the hardware WPTR equal to
   cur_rb's wptr and the state NONE, or arms a switch to the highest-priority
   busy ring with that ring's wptr in its record and that ring's table in smmu_info.
   */
  lemma TriggerAlone(d: Device, awake: bool)
    requires Inv(World(d, [TryTrigger])) && d.state == NONE
    ensures var r, n := Finish(d, TryTrigger, awake), FirstBusy(d.rings, 0);
      if n == |d.rings| || n == d.cur
      then r == d.(cp := d.cp.(wptr := d.rings[d.cur].wptr))
      else
        && r.state == TRIGGERED && r.next == Some(n) && r.cur == d.cur && r.armed == d.armed + 1
        && r.cp == d.cp.(cntl := true, restore := n)
        && r.rings == d.rings[n := d.rings[n].(desc := d.rings[n].desc.(wptr := d.rings[n].wptr))]
        && r.smmuInfo == d.rings[n].scratch
  {
    var d1, n := d.(state := START), FirstBusy(d.rings, 0);
    TriggerScans(d, awake);
    if n == |d.rings| {
      ScanFindsNothing(d1, awake);
    } else if n == d.cur {
      ScanFindsCurrent(d1, awake);
    } else {
      ScanFindsOther(d1, n, awake);
    }
  }

  /** A trigger does nothing unless it finds the state NONE. */
  lemma TriggerNeedsNone(d: Device, awake: bool)
    requires Inv(World(d, [TryTrigger])) && d.state != NONE
    ensures Finish(d, TryTrigger, awake) == d
  {
    hide Inv, Finish;
    Onward(d, TryTrigger, awake);
    FinishReturned(d, awake);
  }
}
