/** What every step of the preemption protocol keeps. */
module PreemptInvariant {
  import opened Wrappers
  import opened PreemptModel

  // ------------------------------------------------- one ring on its own

  /** The table a ring's own stream has set once all of `mem` has run. */
  function TableAfter(dflt: nat, mem: seq<Entry>): Smmu {
    if mem == [] then Smmu(dflt, 0)
    else
      var e := mem[|mem| - 1];
      if e.Entry? && e.update.Some? then e.update.value else TableAfter(dflt, mem[..|mem| - 1])
  }

  /** What a GPU that only ever ran this ring would have run. */
  function Solo(dflt: nat, mem: seq<Entry>): seq<Ran> {
    if mem == [] then []
    else Solo(dflt, mem[..|mem| - 1]) + [Ran(mem[|mem| - 1], TableAfter(dflt, mem))]
  }

  // ----------------------------------------------------- the invariant

  predicate EntryOk(e: Entry, i: RingId) {
    e.Entry? && e.save == i && e.scratchRing == i
  }

  /** Facts about ring i that hold wherever the hardware is. */
  predicate RingOk(r: Ring, i: RingId, dflt: nat) {
    && |r.ran| <= r.wptr <= |r.mem|
    && (forall k | 0 <= k < |r.mem| :: EntryOk(r.mem[k], i))
    && r.ran == Solo(dflt, r.mem[..|r.ran|])
    && r.scratch == TableAfter(dflt, r.mem[..|r.ran|])
    && r.desc.rbase == i
    && r.shadowRptr <= |r.ran|
  }

  /** The record of a ring the hardware has left tells exactly where it stopped. */
  predicate ParkedOk(r: Ring) {
    r.desc.rptr == |r.ran| == r.shadowRptr && r.desc.rptr <= r.desc.wptr <= r.wptr
  }

  predicate RingsOk(d: Device) {
    forall i | 0 <= i < |d.rings| ::
      RingOk(d.rings[i], i, d.defaultTtbr0) && (i != d.cp.rbBase ==> ParkedOk(d.rings[i]))
  }

  predicate CpOk(d: Device) {
    && d.cp.rbBase < |d.rings|
    && var r := d.rings[d.cp.rbBase];
    && d.cp.rptr == |r.ran| && d.cp.rptr <= d.cp.wptr <= r.wptr
    && d.cp.smmu == r.scratch
    && (d.cp.yielded ==> d.cp.save == d.cp.rbBase)
    && (!d.cp.yielded ==> d.cp.save < |d.rings| && d.cp.rptr < d.cp.wptr)
  }

  /** A switch has been handed to the CP and the driver has not taken notice yet. */
  predicate Armed(d: Device) {
    d.armed == d.swapped + 1
  }

  predicate ReadyFor(d: Device, n: RingId) {
    n < |d.rings| && n != d.cur && d.rings[n].desc.rptr < d.rings[n].desc.wptr
  }

  /** Where driver and hardware stand relative to each other. */
  predicate PhaseOk(d: Device) {
    && d.cur < |d.rings|
    && (d.armed == d.swapped || Armed(d))
    && (!Armed(d) ==>
          && !d.cp.cntl && d.cp.rbBase == d.cur
          && !d.state.TRIGGERED? && !d.state.FAULTED?)
    && (Armed(d) ==>
          && !d.state.NONE? && !d.state.START?
          && d.next.Some? && d.next.value < |d.rings| && d.next.value != d.cur
          && d.cp.restore == d.next.value
          && (if d.cp.cntl
              then d.cp.rbBase == d.cur && ReadyFor(d, d.next.value)
                   && d.smmuInfo == d.rings[d.next.value].scratch
              else d.cp.rbBase == d.next.value))
  }

  predicate DeviceOk(d: Device) {
    RingsOk(d) && CpOk(d) && PhaseOk(d)
  }

  /** The preemption state that gives a program counter the right to act. */
  function RightOf(pc: Pc): Option<PreemptState> {
    match pc
    case Scan(_) => Some(START)
    case UpdateCur => Some(START)
    case ClearStart => Some(START)
    case WriteRecord(_) => Some(START)
    case Program(_, _) => Some(START)
    case Arm(_) => Some(START)
    case ReadStatus => Some(PENDING)
    case Swap(irq) => Some(if irq then PENDING else COMPLETE)
    case UpdateNew(irq) => Some(if irq then PENDING else COMPLETE)
    case ClearState(irq) => Some(if irq then PENDING else COMPLETE)
    case DoneStatus => Some(COMPLETE)
    case FaultStatus => Some(FAULTED)
    case _ => None
  }

  predicate Owner(pc: Pc) {
    RightOf(pc).Some?
  }

  /** What a thread relies on at its program counter. */
  predicate ThreadOk(d: Device, pc: Pc) {
    && (Owner(pc) ==> d.state == RightOf(pc).value)
    && match pc
       case WriteRecord(n) => n < |d.rings| && n != d.cur && !LooksEmpty(d.rings[n])
       case Program(n, table) => ReadyFor(d, n) && table == d.rings[n].scratch
       case Arm(n) =>
         ReadyFor(d, n) && d.next == Some(n) && d.cp.restore == n && d.smmuInfo == d.rings[n].scratch
       case ReadStatus => Armed(d)
       case DoneStatus => Armed(d)
       case FaultStatus => Armed(d)
       case Swap(_) => Armed(d) && !d.cp.cntl
       case UpdateNew(_) => !Armed(d)
       case ClearState(_) => !Armed(d)
       case _ => true
  }

  /** The driver pass that has swapped the rings but not yet left COMPLETE. */
  predicate InTail(pc: Pc) {
    pc == UpdateNew(false) || pc == ClearState(false)
  }

  /** States that only a thread in the middle of a pass can leave. */
  predicate Transient(d: Device) {
    d.state == START || d.state == PENDING || (d.state == COMPLETE && !Armed(d))
  }

  predicate Manned(threads: seq<Pc>) {
    exists k :: 0 <= k < |threads| && Owner(threads[k])
  }

  predicate ThreadsOk(w: World) {
    && (forall k | 0 <= k < |w.threads| :: ThreadOk(w.d, w.threads[k]))
    && (forall j, k | 0 <= j < k < |w.threads| :: !(Owner(w.threads[j]) && Owner(w.threads[k])))
    && (forall j, k | 0 <= j < k < |w.threads| :: !(HoldsMutex(w.threads[j]) && HoldsMutex(w.threads[k])))
    && (Transient(w.d) ==> Manned(w.threads))
  }

  predicate Inv(w: World) {
    DeviceOk(w.d) && ThreadsOk(w)
  }

  // ------------------------------------------------------- preservation

  lemma InitialOk(w: World)
    requires Initial(w)
    ensures Inv(w)
  {
    forall i | 0 <= i < |w.d.rings|
      ensures RingOk(w.d.rings[i], i, w.d.defaultTtbr0) && ParkedOk(w.d.rings[i])
    {
      assert w.d.rings[i].mem[..0] == [];
    }
  }

  lemma InvIsSafe(w: World, s: Step)
    requires Inv(w) && Enabled(w, s)
    ensures Safe(w, s)
  {}

  /** Writing behind the published part of a ring disturbs nobody. */
  lemma AppendKeepsDevice(d: Device, i: RingId, e: Entry)
    requires DeviceOk(d) && i < |d.rings| && EntryOk(e, i)
    ensures DeviceOk(Append(d, i, e))
  {
    var d' := Append(d, i, e);
    var r, r' := d.rings[i], d'.rings[i];
    assert r'.mem[..|r.ran|] == r.mem[..|r.ran|];
    assert RingOk(r', i, d.defaultTtbr0);
    forall k | 0 <= k < |d.rings| && k != i ensures d'.rings[k] == d.rings[k] {}
  }

  lemma PublishKeepsDevice(d: Device, i: RingId)
    requires DeviceOk(d) && i < |d.rings|
    ensures DeviceOk(Publish(d, i))
  {
    var d' := Publish(d, i);
    assert RingOk(d'.rings[i], i, d.defaultTtbr0);
    forall k | 0 <= k < |d.rings| && k != i ensures d'.rings[k] == d.rings[k] {}
  }

  lemma CpRunKeepsDevice(d: Device)
    requires DeviceOk(d) && d.cp.rptr < d.cp.wptr
    ensures DeviceOk(CpRun(d))
    ensures forall k | 0 <= k < |d.rings| && k != d.cp.rbBase :: CpRun(d).rings[k] == d.rings[k]
  {
    var b := d.cp.rbBase;
    var r, r' := d.rings[b], CpRun(d).rings[b];
    var n := |r.ran|;
    assert EntryOk(r.mem[n], b);
    assert r.mem[..n + 1][..n] == r.mem[..n];
    assert RingOk(r', b, d.defaultTtbr0);
  }

  lemma CpWriteRptrKeepsDevice(d: Device)
    requires DeviceOk(d)
    ensures DeviceOk(CpWriteRptr(d))
  {
    var d' := CpWriteRptr(d);
    assert RingOk(d'.rings[d.cp.rbBase], d.cp.rbBase, d.defaultTtbr0);
    forall k | 0 <= k < |d.rings| && k != d.cp.rbBase ensures d'.rings[k] == d.rings[k] {}
  }

  lemma CpSwitchKeepsDevice(d: Device)
    requires DeviceOk(d) && d.cp.cntl && (d.cp.yielded || d.cp.rptr == d.cp.wptr)
    ensures d.cp.save == d.cp.rbBase
    ensures DeviceOk(CpSwitch(d))
  {
    var d' := CpSwitch(d);
    var b := d.cp.rbBase;
    assert Armed(d);
    assert RingOk(d'.rings[b], b, d.defaultTtbr0);
    forall k | 0 <= k < |d.rings| && k != b ensures d'.rings[k] == d.rings[k] {}
  }

  lemma CpRunKeepsThread(d: Device, pc: Pc)
    requires DeviceOk(d) && d.cp.rptr < d.cp.wptr && ThreadOk(d, pc)
    ensures ThreadOk(CpRun(d), pc)
  {
    CpRunKeepsDevice(d);
    hide TableAfter, Solo;
  }

  lemma CpSwitchKeepsThread(d: Device, pc: Pc)
    requires DeviceOk(d) && d.cp.cntl && (d.cp.yielded || d.cp.rptr == d.cp.wptr) && ThreadOk(d, pc)
    ensures ThreadOk(CpSwitch(d), pc)
  {
    CpSwitchKeepsDevice(d);
    hide TableAfter, Solo;
  }

  lemma PublishKeepsThread(d: Device, i: RingId, pc: Pc)
    requires DeviceOk(d) && i < |d.rings| && ThreadOk(d, pc)
    ensures ThreadOk(Publish(d, i), pc)
  {
    hide TableAfter, Solo;
  }

  lemma WriteRptrKeepsThread(d: Device, pc: Pc)
    requires DeviceOk(d) && ThreadOk(d, pc)
    ensures ThreadOk(CpWriteRptr(d), pc)
  {
    hide TableAfter, Solo;
  }

  /** Threads do not look at what has been written to a ring and not yet been published. */
  lemma WritingKeepsThread(d: Device, d': Device, pc: Pc)
    requires ThreadOk(d, pc) && |d'.rings| == |d.rings| && d'.(rings := d.rings) == d
    requires forall k | 0 <= k < |d.rings| ::
      d'.rings[k].(mem := d.rings[k].mem, active := d.rings[k].active) == d.rings[k]
    ensures ThreadOk(d', pc)
  {}

  /** The steps of submitters and of the CP do not take anything away from a thread. */
  lemma EnvironmentKeepsThread(w: World, s: Step, pc: Pc)
    requires Inv(w) && Enabled(w, s) && !s.Thread? && !s.Spawn? && ThreadOk(w.d, pc)
    ensures ThreadOk(Apply(w, s).d, pc)
  {
    hide ThreadsOk, ThreadOk, RingsOk, TableAfter, Solo, CpRun, CpSwitch, CpWriteRptr, Publish;
    match s
    case Run => CpRunKeepsThread(w.d, pc);
    case HwSwitch => CpSwitchKeepsThread(w.d, pc);
    case Wptr(i) => PublishKeepsThread(w.d, i, pc);
    case WriteRptr => WriteRptrKeepsThread(w.d, pc);
    case Switch(i, ctx, ok) => WritingKeepsThread(w.d, DrawctxtSwitch(w.d, i, ctx, ok), pc);
    case Submit(i, ctx) => WritingKeepsThread(w.d, AddDraw(w.d, i, ctx), pc);
    case Inline => WritingKeepsThread(w.d, AddCounter(w.d), pc);
  }

  lemma DrawctxtSwitchKeepsDevice(d: Device, i: RingId, ctx: Context, ok: bool)
    requires DeviceOk(d) && i < |d.rings|
    ensures DeviceOk(DrawctxtSwitch(d, i, ctx, ok))
  {
    if d.rings[i].active != Some(ctx) {
      var e := Entry(i, TableUpdate(d, i, ctx), i, SwitchTo(ctx));
      if ok { AppendKeepsDevice(d, i, e); }
      var d1 := if ok then Append(d, i, e) else d;
      var d2 := DrawctxtSwitch(d, i, ctx, ok);
      assert RingOk(d2.rings[i], i, d2.defaultTtbr0) by { assert RingOk(d1.rings[i], i, d1.defaultTtbr0); }
      forall k | 0 <= k < |d.rings| && k != i ensures d2.rings[k] == d1.rings[k] {}
    }
  }

  lemma EnvironmentKeepsDevice(w: World, s: Step)
    requires Inv(w) && Enabled(w, s) && !s.Thread? && !s.Spawn?
    ensures DeviceOk(Apply(w, s).d)
  {
    hide DeviceOk, DrawctxtSwitch, Publish, CpRun, CpWriteRptr, CpSwitch, ThreadsOk;
    match s
    case Switch(i, ctx, ok) => DrawctxtSwitchKeepsDevice(w.d, i, ctx, ok);
    case Submit(i, ctx) => AppendKeepsDevice(w.d, i, Entry(i, None, i, Draw(ctx)));
    case Inline => AppendKeepsDevice(w.d, 0, Entry(0, None, 0, EnableCounter));
    case Wptr(i) => PublishKeepsDevice(w.d, i);
    case Run => CpRunKeepsDevice(w.d);
    case WriteRptr => CpWriteRptrKeepsDevice(w.d);
    case HwSwitch => CpSwitchKeepsDevice(w.d);
  }

  lemma EnvironmentKeepsInv(w: World, s: Step)
    requires Inv(w) && Enabled(w, s) && !s.Thread? && !s.Spawn?
    ensures Inv(Apply(w, s))
  {
    EnvironmentKeepsDevice(w, s);
    forall k | 0 <= k < |w.threads| ensures ThreadOk(Apply(w, s).d, w.threads[k]) {
      EnvironmentKeepsThread(w, s, w.threads[k]);
    }
  }

  lemma WriteRecordKeepsDevice(d: Device, n: RingId)
    requires DeviceOk(d) && ThreadOk(d, WriteRecord(n))
    ensures DeviceOk(FillRecord(d, n)) && ReadyFor(FillRecord(d, n), n)
  {
    var d' := FillRecord(d, n);
    assert RingOk(d'.rings[n], n, d.defaultTtbr0);
    forall k | 0 <= k < |d.rings| && k != n ensures d'.rings[k] == d.rings[k] {}
  }

  lemma UpdateWptrKeepsDevice(d: Device)
    requires DeviceOk(d) && d.cp.rbBase == d.cur
    ensures DeviceOk(UpdateWptr(d)) && UpdateWptr(d).cp.wptr == d.rings[d.cur].wptr
  {}

  /** Rings and CP do not mind what the driver does to its own variables. */
  lemma DriverFieldsAreFree(d: Device, d': Device)
    requires RingsOk(d) && CpOk(d)
    requires d'.rings == d.rings && d'.defaultTtbr0 == d.defaultTtbr0
    requires d'.cp == d.cp.(cntl := d'.cp.cntl, restore := d'.cp.restore)
    ensures RingsOk(d') && CpOk(d')
  {}

  predicate TouchesRings(pc: Pc) {
    pc.WriteRecord? || pc.UpdateCur? || pc.UpdateNew?
  }

  lemma AdvanceKeepsPhase(d: Device, pc: Pc, awake: bool)
    requires PhaseOk(d) && ThreadOk(d, pc) && SafeAt(d, pc) && !TouchesRings(pc)
    requires pc.SchedLook? && d.state == COMPLETE ==> Armed(d)
    ensures PhaseOk(Advance(d, pc, awake).0)
    ensures ThreadOk(Advance(d, pc, awake).0, Advance(d, pc, awake).1)
  {
    if RightOf(pc) == Some(START) {
      TriggerKeepsPhase(d, pc, awake);
    } else {
      OthersKeepPhase(d, pc, awake);
    }
  }

  lemma TriggerKeepsPhase(d: Device, pc: Pc, awake: bool)
    requires PhaseOk(d) && ThreadOk(d, pc) && SafeAt(d, pc) && !TouchesRings(pc) && RightOf(pc) == Some(START)
    ensures PhaseOk(Advance(d, pc, awake).0)
    ensures ThreadOk(Advance(d, pc, awake).0, Advance(d, pc, awake).1)
  {}

  lemma OthersKeepPhase(d: Device, pc: Pc, awake: bool)
    requires PhaseOk(d) && ThreadOk(d, pc) && SafeAt(d, pc) && !TouchesRings(pc) && RightOf(pc) != Some(START)
    requires pc.SchedLook? && d.state == COMPLETE ==> Armed(d)
    ensures PhaseOk(Advance(d, pc, awake).0)
    ensures ThreadOk(Advance(d, pc, awake).0, Advance(d, pc, awake).1)
  {}

  lemma AdvanceOffRings(d: Device, pc: Pc, awake: bool)
    requires RingsOk(d) && CpOk(d) && SafeAt(d, pc) && !TouchesRings(pc)
    ensures RingsOk(Advance(d, pc, awake).0) && CpOk(Advance(d, pc, awake).0)
  {
    DriverFieldsAreFree(d, Advance(d, pc, awake).0);
  }

  lemma AdvanceOnRings(d: Device, pc: Pc, awake: bool)
    requires DeviceOk(d) && ThreadOk(d, pc) && SafeAt(d, pc) && TouchesRings(pc)
    ensures DeviceOk(Advance(d, pc, awake).0)
    ensures ThreadOk(Advance(d, pc, awake).0, Advance(d, pc, awake).1)
  {
    match pc
    case WriteRecord(n) => WriteRecordKeepsDevice(d, n);
    case UpdateCur => UpdateWptrKeepsDevice(d);
    case UpdateNew(_) => UpdateWptrKeepsDevice(d);
  }

  /** A thread that acts within its right keeps the device consistent and earns its next place. */
  lemma AdvanceKeepsDevice(d: Device, pc: Pc, awake: bool)
    requires DeviceOk(d) && ThreadOk(d, pc) && SafeAt(d, pc)
    requires pc.SchedLook? && d.state == COMPLETE ==> Armed(d)
    ensures DeviceOk(Advance(d, pc, awake).0)
    ensures ThreadOk(Advance(d, pc, awake).0, Advance(d, pc, awake).1)
  {
    if TouchesRings(pc) {
      AdvanceOnRings(d, pc, awake);
    } else {
      AdvanceKeepsPhase(d, pc, awake);
      AdvanceOffRings(d, pc, awake);
    }
  }

  /** Threads without the right to act change nothing that an owner relies on. */
  lemma AdvanceKeepsOthers(d: Device, pc: Pc, awake: bool, other: Pc)
    requires SafeAt(d, pc) && ThreadOk(d, other) && !(Owner(pc) && Owner(other))
    ensures ThreadOk(Advance(d, pc, awake).0, other)
  {}

  /** In COMPLETE, whoever holds the mutex outside the tail of _a5xx_preemption_done sees a switch in flight. */
  lemma CompleteIsArmed(w: World, k: nat)
    requires Inv(w) && k < |w.threads| && HoldsMutex(w.threads[k]) && !InTail(w.threads[k])
    ensures w.d.state == COMPLETE ==> Armed(w.d)
  {
    forall j | 0 <= j < |w.threads| && j != k ensures !InTail(w.threads[j]) {
      ApartAt(w, k, j);
    }
    assert ThreadOk(w.d, w.threads[k]);
    assert forall j | 0 <= j < |w.threads| :: ThreadOk(w.d, w.threads[j]);
  }

  lemma ApartAt(w: World, j: nat, k: nat)
    requires ThreadsOk(w) && j < |w.threads| && k < |w.threads| && j != k
    ensures !(Owner(w.threads[j]) && Owner(w.threads[k]))
    ensures !(HoldsMutex(w.threads[j]) && HoldsMutex(w.threads[k]))
  {
    var a, b := if j < k then j else k, if j < k then k else j;
    assert 0 <= a < b < |w.threads|;
  }

  /** The compare-and-swaps and the mutex admit at most one owner of the protocol. */
  lemma AdvanceStaysAlone(d: Device, pc: Pc, awake: bool, other: Pc)
    requires SafeAt(d, pc) && ThreadOk(d, pc) && ThreadOk(d, other)
    requires !(Owner(pc) && Owner(other)) && !(HoldsMutex(pc) && HoldsMutex(other))
    requires pc.SchedLock? || pc.WorkLock? ==> !HoldsMutex(other)
    ensures var pc' := Advance(d, pc, awake).1;
      !(Owner(pc') && Owner(other)) && !(HoldsMutex(pc') && HoldsMutex(other))
  {}

  /** What an action of thread k means for another thread. */
  lemma OthersStay(w: World, k: nat, awake: bool, j: nat)
    requires Inv(w) && k < |w.threads| && j < |w.threads| && j != k && SafeAt(w.d, w.threads[k])
    requires w.threads[k].SchedLock? || w.threads[k].WorkLock? ==> MutexFree(w.threads)
    ensures var (d', pc') := Advance(w.d, w.threads[k], awake);
      && ThreadOk(d', w.threads[j])
      && !(Owner(pc') && Owner(w.threads[j])) && !(HoldsMutex(pc') && HoldsMutex(w.threads[j]))
  {
    assert ThreadOk(w.d, w.threads[k]) && ThreadOk(w.d, w.threads[j]);
    ApartAt(w, k, j);
    hide DeviceOk, ThreadOk, ThreadsOk, Advance, SafeAt, Owner, HoldsMutex;
    AdvanceStaysAlone(w.d, w.threads[k], awake, w.threads[j]);
    AdvanceKeepsOthers(w.d, w.threads[k], awake, w.threads[j]);
  }

  /** What it means for the device and for itself. */
  lemma ActorStays(w: World, k: nat, awake: bool)
    requires Inv(w) && k < |w.threads| && SafeAt(w.d, w.threads[k])
    ensures DeviceOk(Advance(w.d, w.threads[k], awake).0)
    ensures ThreadOk(Advance(w.d, w.threads[k], awake).0, Advance(w.d, w.threads[k], awake).1)
  {
    var pc := w.threads[k];
    assert ThreadOk(w.d, pc);
    if HoldsMutex(pc) && !InTail(pc) { CompleteIsArmed(w, k); }
    hide DeviceOk, ThreadOk, ThreadsOk, Advance, SafeAt, Armed;
    AdvanceKeepsDevice(w.d, pc, awake);
  }

  lemma ThreadKeepsInv(w: World, k: nat, awake: bool)
    requires Inv(w) && Enabled(w, Thread(k, awake))
    ensures Safe(w, Thread(k, awake)) && Inv(Apply(w, Thread(k, awake)))
  {
    InvIsSafe(w, Thread(k, awake));
    var w' := Apply(w, Thread(k, awake));
    ActorStays(w, k, awake);
    hide DeviceOk, ThreadOk, SafeAt, Advance, Owner, HoldsMutex, Transient;
    forall j | 0 <= j < |w.threads| && j != k
      ensures w'.threads[j] == w.threads[j] && ThreadOk(w'.d, w.threads[j])
      ensures !(Owner(w'.threads[k]) && Owner(w.threads[j])) && !(HoldsMutex(w'.threads[k]) && HoldsMutex(w.threads[j]))
    {
      OthersStay(w, k, awake, j);
    }
    if Transient(w'.d) {
      StaysManned(w, k, awake);
    }
    AllApart(w, w', k);
  }

  /** Only thread k has moved, and it has come to stand alone. */
  lemma AllApart(w: World, w': World, k: nat)
    requires ThreadsOk(w) && k < |w.threads| && |w'.threads| == |w.threads|
    requires forall j | 0 <= j < |w.threads| && j != k ::
      && w'.threads[j] == w.threads[j]
      && !(Owner(w'.threads[k]) && Owner(w.threads[j])) && !(HoldsMutex(w'.threads[k]) && HoldsMutex(w.threads[j]))
    ensures forall i, j | 0 <= i < j < |w'.threads| :: !(Owner(w'.threads[i]) && Owner(w'.threads[j]))
    ensures forall i, j | 0 <= i < j < |w'.threads| :: !(HoldsMutex(w'.threads[i]) && HoldsMutex(w'.threads[j]))
  {
    hide ThreadOk, Owner, HoldsMutex, Transient;
  }

  /** Nobody else takes the driver out of the middle of a pass. */
  lemma TransientStays(d: Device, pc: Pc, awake: bool)
    requires SafeAt(d, pc) && ThreadOk(d, pc) && Transient(Advance(d, pc, awake).0)
    ensures Owner(Advance(d, pc, awake).1) || (Transient(d) && !Owner(pc))
  {}

  lemma StaysManned(w: World, k: nat, awake: bool)
    requires Inv(w) && Enabled(w, Thread(k, awake)) && Safe(w, Thread(k, awake))
    requires Transient(Apply(w, Thread(k, awake)).d)
    ensures Manned(Apply(w, Thread(k, awake)).threads)
  {
    var pc' := Advance(w.d, w.threads[k], awake).1;
    var threads := Apply(w, Thread(k, awake)).threads;
    assert threads[k] == pc' && ThreadOk(w.d, w.threads[k]);
    TransientStays(w.d, w.threads[k], awake);
    hide DeviceOk, ThreadOk, Advance, Transient, SafeAt, Owner;
    if !Owner(pc') {
      var j :| 0 <= j < |w.threads| && Owner(w.threads[j]);
      assert threads[j] == w.threads[j];
    }
  }

  lemma SpawnKeepsInv(w: World, entry: Pc)
    requires Inv(w) && EntryPoint(entry)
    ensures Inv(Apply(w, Spawn(entry)))
  {
    hide DeviceOk;
    var w' := Apply(w, Spawn(entry));
    forall k | 0 <= k < |w.threads| ensures w'.threads[k] == w.threads[k] {}
    if Transient(w.d) {
      var j :| 0 <= j < |w.threads| && Owner(w.threads[j]);
      assert Owner(w'.threads[j]);
    }
  }

  /** Every step that the world can take is safe and keeps the invariant. */
  lemma StepKeepsInv(w: World, s: Step)
    requires Inv(w) && Enabled(w, s)
    ensures Safe(w, s) && Inv(Apply(w, s))
  {
    match s
    case Spawn(entry) => SpawnKeepsInv(w, entry);
    case Thread(k, awake) => ThreadKeepsInv(w, k, awake);
    case _ => EnvironmentKeepsInv(w, s);
  }

  lemma {:induction false} RunKeepsInv(w: World, steps: seq<Step>, w': World)
    requires Inv(w) && IsRun(w, steps, w')
    ensures Inv(w')
    decreases |steps|
  {
    if steps != [] {
      StepKeepsInv(w, steps[0]);
      RunKeepsInv(Apply(w, steps[0]), steps[1..], w');
    }
  }
}
