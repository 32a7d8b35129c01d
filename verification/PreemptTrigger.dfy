/** What a trigger leaves behind, whoever else is at work while it scans. */
module PreemptTrigger {
  import opened Wrappers
  import opened PreemptModel
  import opened PreemptInvariant
  import opened PreemptTheorems

  /** The WPTR register has all that is published on the current ring. */
  predicate Synced(d: Device) {
    d.cur < |d.rings| && d.cp.wptr == d.rings[d.cur].wptr
  }

  predicate EmptyBelow(d: Device, n: nat) {
    forall j | 0 <= j < |d.rings| && j < n :: LooksEmpty(d.rings[j])
  }

  predicate Busy(d: Device, n: RingId) {
    n < |d.rings| && n != d.cur && !LooksEmpty(d.rings[n])
  }

  /** The record of a ring names everything published on it. */
  predicate RecordIsFull(d: Device, n: RingId) {
    n < |d.rings| && d.rings[n].desc.wptr == d.rings[n].wptr
  }

  /** What the owner of START has found out so far. */
  predicate Found(d: Device, pc: Pc) {
    match pc
    case Scan(i) => EmptyBelow(d, i)
    case UpdateCur => EmptyBelow(d, d.cur)
    case ClearStart => EmptyBelow(d, d.cur) && Synced(d)
    case WriteRecord(n) => EmptyBelow(d, n) && Busy(d, n)
    case Program(n, _) => EmptyBelow(d, n) && Busy(d, n) && RecordIsFull(d, n)
    case Arm(n) => EmptyBelow(d, n) && Busy(d, n) && RecordIsFull(d, n)
    case _ => false
  }

  /** While nothing is published, only the current ring can change its looks. */
  predicate Undisturbed(d0: Device, d: Device) {
    && d.cur == d0.cur && |d.rings| == |d0.rings| && d.armed == d0.armed
    && forall i | 0 <= i < |d.rings| ::
         d.rings[i].wptr == d0.rings[i].wptr && (i != d.cur ==> d.rings[i].shadowRptr == d0.rings[i].shadowRptr)
  }

  /** Where a trigger may end: calm with the hardware up to date, or with a switch to the ring that deserves it. */
  predicate Repaired(d: Device) {
    || (d.state == NONE && d.cur < |d.rings| && EmptyBelow(d, d.cur) && Synced(d))
    || (&& d.state == TRIGGERED && d.cp.cntl && d.next == Some(d.cp.restore)
        && var n := d.cp.restore;
        && EmptyBelow(d, n) && Busy(d, n) && RecordIsFull(d, n)
        && d.smmuInfo == d.rings[n].scratch)
  }

  /** Thread k owns START, has found what it has found, and nothing was published since `d0`. */
  predicate Scanning(d0: Device, w: World, k: nat) {
    Inv(w) && k < |w.threads| && w.d.state == START && Found(w.d, w.threads[k]) && Undisturbed(d0, w.d)
  }

  /** A trigger that has looked at every ring, or at the current one, leaves the register up to date. */
  lemma ScanStep(d0: Device, d: Device, i: nat)
    requires DeviceOk(d) && d.state == START && Found(d, Scan(i)) && Undisturbed(d0, d)
    ensures var (d', pc') := Advance(d, Scan(i), true);
      d' == d && pc' != Returned && Found(d, pc')
  {
    hide TableAfter, Solo;
    assert RingOk(d.rings[d.cur], d.cur, d.defaultTtbr0);
  }

  lemma ReloadStep(d0: Device, d: Device)
    requires DeviceOk(d) && d.state == START && Found(d, UpdateCur) && Undisturbed(d0, d)
    ensures var d' := UpdateWptr(d);
      d'.state == START && Found(d', ClearStart) && Undisturbed(d0, d')
  {
    hide RingsOk, CpOk;
  }

  lemma RecordStep(d0: Device, d: Device, n: RingId)
    requires DeviceOk(d) && ThreadOk(d, WriteRecord(n)) && d.state == START && Found(d, WriteRecord(n)) && Undisturbed(d0, d)
    ensures var d' := FillRecord(d, n);
      d'.state == START && Found(d', Program(n, d.rings[n].scratch)) && Undisturbed(d0, d')
  {
    hide RingsOk, CpOk, PhaseOk;
  }

  lemma LastStep(d0: Device, d: Device)
    requires d.state == START && Found(d, ClearStart) && Undisturbed(d0, d)
    ensures Repaired(d.(state := NONE)) && Undisturbed(d0, d.(state := NONE))
  {}

  lemma ProgramStep(d0: Device, d: Device, n: RingId, table: Smmu)
    requires d.state == START && Found(d, Program(n, table)) && Undisturbed(d0, d)
    ensures var d' := ProgramSwitch(d, n, table);
      d'.state == START && Found(d', Arm(n)) && Undisturbed(d0, d')
  {}

  lemma ArmStep(d0: Device, d: Device, n: RingId)
    requires ThreadOk(d, Arm(n)) && d.state == START && Found(d, Arm(n)) && Undisturbed(d0, d)
    ensures var d' := ArmSwitch(d);
      Repaired(d') && d'.armed == d0.armed + 1 && Undisturbed(d0, d'.(armed := d0.armed))
  {}

  /** One action of the trigger itself. */
  lemma OwnStep(d0: Device, d: Device, pc: Pc, awake: bool)
    requires DeviceOk(d) && ThreadOk(d, pc) && d.state == START && Found(d, pc) && Undisturbed(d0, d)
    ensures SafeAt(d, pc)
    ensures var (d', pc') := Advance(d, pc, awake);
      if pc' == Returned
      then Repaired(d') && d'.armed == d0.armed + (if d'.state == NONE then 0 else 1)
           && Undisturbed(d0, d'.(armed := d0.armed))
      else d'.state == START && Found(d', pc') && Undisturbed(d0, d')
  {
    match pc
    case Scan(i) => ScanStep(d0, d, i);
    case UpdateCur => ReloadStep(d0, d);
    case WriteRecord(n) => RecordStep(d0, d, n);
    case ClearStart => LastStep(d0, d);
    case Program(n, table) => ProgramStep(d0, d, n, table);
    case Arm(n) => ArmStep(d0, d, n);
  }

  /** What another thread does while START has an owner. */
  lemma OtherThread(w: World, j: nat, k: nat, awake: bool)
    requires Inv(w) && j < |w.threads| && k < |w.threads| && j != k
    requires w.d.state == START && Owner(w.threads[k])
    ensures SafeAt(w.d, w.threads[j]) && Advance(w.d, w.threads[j], awake).0 == w.d
  {
    ApartAt(w, j, k);
    assert ThreadOk(w.d, w.threads[j]);
  }

  lemma RunStep(d0: Device, d: Device, pc: Pc)
    requires DeviceOk(d) && d.state == START && Found(d, pc) && Undisturbed(d0, d) && d.cp.rptr < d.cp.wptr
    ensures var d' := CpRun(d);
      d'.state == START && Found(d', pc) && Undisturbed(d0, d')
  {
    CpRunKeepsDevice(d);
    hide TableAfter, Solo;
  }

  lemma WriteRptrStep(d0: Device, d: Device, pc: Pc)
    requires DeviceOk(d) && d.state == START && Found(d, pc) && Undisturbed(d0, d)
    ensures var d' := CpWriteRptr(d);
      d'.state == START && Found(d', pc) && Undisturbed(d0, d')
  {
    hide TableAfter, Solo;
    var r := d.rings[d.cur];
    assert RingOk(r, d.cur, d.defaultTtbr0);
    assert LooksEmpty(r) ==> CpWriteRptr(d).rings[d.cur] == r;
  }

  /** Neither the looks of a ring nor the registers change while a submission is still being written. */
  lemma WritingStep(d0: Device, d: Device, d': Device, pc: Pc)
    requires d.state == START && Found(d, pc) && Undisturbed(d0, d)
    requires |d'.rings| == |d.rings| && d'.(rings := d.rings) == d
    requires forall k | 0 <= k < |d.rings| ::
      d'.rings[k].(mem := d.rings[k].mem, active := d.rings[k].active) == d.rings[k]
    ensures d'.state == START && Found(d', pc) && Undisturbed(d0, d')
  {}

  lemma EnvironmentFinds(d0: Device, w: World, s: Step, pc: Pc)
    requires DeviceOk(w.d) && w.d.state == START && Found(w.d, pc) && Undisturbed(d0, w.d)
    requires Enabled(w, s) && Safe(w, s) && !s.Thread? && !s.Spawn? && !s.Wptr? && !s.HwSwitch?
    ensures var w' := Apply(w, s);
      w'.threads == w.threads && w'.d.state == START && Found(w'.d, pc) && Undisturbed(d0, w'.d)
  {
    var d := w.d;
    hide Found, Undisturbed, DeviceOk, CpRun, CpWriteRptr;
    match s
    case Run => RunStep(d0, d, pc);
    case WriteRptr => WriteRptrStep(d0, d, pc);
    case Switch(i, ctx, ok) => WritingStep(d0, d, DrawctxtSwitch(d, i, ctx, ok), pc);
    case Submit(i, ctx) => WritingStep(d0, d, AddDraw(d, i, ctx), pc);
    case Inline => WritingStep(d0, d, AddCounter(d), pc);
  }

  /** The CP and the submitters, short of publishing; there is no switch to carry out in START. */
  lemma EnvironmentStep(d0: Device, w: World, s: Step, k: nat)
    requires Scanning(d0, w, k) && Enabled(w, s) && !s.Thread? && !s.Spawn? && !s.Wptr?
    ensures Safe(w, s) && Scanning(d0, Apply(w, s), k)
  {
    assert !s.HwSwitch?;
    hide DeviceOk, ThreadsOk, Found, Undisturbed, Apply, Enabled, Safe;
    StepKeepsInv(w, s);
    EnvironmentFinds(d0, w, s, w.threads[k]);
  }

  lemma ThreadStep(d0: Device, w: World, j: nat, awake: bool, k: nat)
    requires Scanning(d0, w, k) && Enabled(w, Thread(j, awake))
    ensures Safe(w, Thread(j, awake))
    ensures var w' := Apply(w, Thread(j, awake));
      Inv(w') && (w'.threads[k] == Returned || Scanning(d0, w', k))
  {
    StepKeepsInv(w, Thread(j, awake));
    assert ThreadOk(w.d, w.threads[k]);
    if j == k {
      OwnStep(d0, w.d, w.threads[k], awake);
    } else {
      OtherThread(w, j, k, awake);
    }
  }

  lemma {:induction false} ScanningLasts(d0: Device, w: World, k: nat, steps: seq<Step>, w': World)
    requires Inv(w) && k < |w.threads| && (w.threads[k] == Returned || Scanning(d0, w, k))
    requires IsRun(w, steps, w') && forall j | 0 <= j < |steps| :: !steps[j].Wptr?
    ensures Inv(w') && k < |w'.threads| && (w'.threads[k] == Returned || Scanning(d0, w', k))
    decreases |steps|
  {
    if steps != [] {
      var s := steps[0];
      StepKeepsInv(w, s);
      var w1 := Apply(w, s);
      assert w1.threads[k] == Returned || Scanning(d0, w1, k) by {
        if w.threads[k] != Returned {
          match s
          case Thread(j, awake) => ThreadStep(d0, w, j, awake, k);
          case Spawn(_) =>
          case _ => EnvironmentStep(d0, w, s, k);
        }
      }
      hide Inv, Scanning, Apply, Enabled, Safe;
      ScanningLasts(d0, w1, k, steps[1..], w');
    }
  }

  /**
   Repair, over runs: thread k wins the compare-and-swap of a trigger, then
   anything may happen except that a submission publishes: other threads,
   interrupts, the CP. When thread k returns, the state is NONE and the
   hardware knows all of the current ring and no ring above it has work, or a
   switch is armed to the highest-priority ring that has work, its whole wptr in
   its record and its table in smmu_info. What has work is what had work
   when the trigger started, but for what the CP has caught up with on the
   current ring.
   */
  lemma TriggerRepairs(w: World, k: nat, awake: bool, steps: seq<Step>, w1: World, awake1: bool)
    requires Inv(w) && k < |w.threads| && w.threads[k] == TryTrigger && w.d.state == NONE
    requires IsRun(World(w.d.(state := START), w.threads[k := Scan(0)]), steps, w1)
    requires forall j | 0 <= j < |steps| :: !steps[j].Wptr?
    requires k < |w1.threads| && w1.threads[k] != Returned
    ensures Apply(w, Thread(k, awake)) == World(w.d.(state := START), w.threads[k := Scan(0)])
    ensures Enabled(w1, Thread(k, awake1)) && Safe(w1, Thread(k, awake1))
    ensures var w2 := Apply(w1, Thread(k, awake1));
      w2.threads[k] == Returned ==>
        && Repaired(w2.d) && w2.d.armed == w.d.armed + (if w2.d.state == NONE then 0 else 1)
        && Undisturbed(w.d, w2.d.(armed := w.d.armed))
  {
    StepKeepsInv(w, Thread(k, awake));
    var w0 := Apply(w, Thread(k, awake));
    assert Scanning(w.d, w0, k);
    ScanningLasts(w.d, w0, k, steps, w1);
    assert ThreadOk(w1.d, w1.threads[k]);
    OwnStep(w.d, w1.d, w1.threads[k], awake1);
  }
}
