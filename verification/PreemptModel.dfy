/**
 The A5xx ring preemption protocol as a step machine.

 Every atomic action of the driver (a locked section, a compare-and-swap, one
 unlocked group of writes) is a function on Device. Threads of control carry a
 program counter and interleave freely; the command processor (CP) and the
 submitters are further sources of steps. Ring positions count submissions and
 never wrap.
 */
module PreemptModel {
  import opened Wrappers

  // ---------------------------------------------------------------- data

  /** enum adreno_preempt_states. */
  datatype PreemptState = NONE | START | TRIGGERED | FAULTED | PENDING | COMPLETE

  type RingId = nat

  /** What the SMMU translates with: the pair that CP_SMMU_TABLE_UPDATE carries. */
  datatype Smmu = Smmu(ttbr0: nat, contextidr: nat)

  /** A draw context together with the ttbr0 of the process that owns it. */
  datatype Context = Context(id: nat, ttbr0: nat)

  datatype Job = Draw(ctx: Context) | SwitchTo(ctx: Context) | EnableCounter

  /**
   One submission as the CP sees it: the record the pre-IB packets point
   CONTEXT_SWITCH_SAVE_ADDR at, the page table update it carries if any, the
   ring whose scratch slot that update is copied to, and the work itself.
   `Unwritten` is what a fetch beyond the written part of a ring returns.
   */
  datatype Entry =
    | Entry(save: RingId, update: Option<Smmu>, scratchRing: RingId, job: Job)
    | Unwritten

  /** A submission the CP has run, and the page table it ran with. */
  datatype Ran = Ran(entry: Entry, table: Smmu)

  /** The fields of struct a5xx_cp_preemption_record that a switch saves and restores. */
  datatype Record = Record(rbase: RingId, rptr: nat, wptr: nat)

  datatype Ring = Ring(
    mem: seq<Entry>,         // what was written to the ring: _wptr is |mem|
    wptr: nat,               // rb->wptr
    shadowRptr: nat,         // the scratch copy of the read pointer
    desc: Record,            // rb->preemption_desc
    scratch: Smmu,           // scratch ttbr0 and contextidr
    active: Option<Context>, // rb->drawctxt_active
    ran: seq<Ran>            // everything the CP has run from this ring
  )

  /** CP registers, and whether the CP has passed a yield since it came to the ring. */
  datatype Cp = Cp(
    rbBase: RingId, rptr: nat, wptr: nat,
    cntl: bool, restore: RingId, save: RingId,
    smmu: Smmu, yielded: bool
  )

  datatype Device = Device(
    rings: seq<Ring>,
    state: PreemptState, cur: RingId, next: Option<RingId>, prev: Option<RingId>,
    smmuInfo: Smmu, cp: Cp, defaultTtbr0: nat,
    armed: nat, swapped: nat  // switches armed and swaps completed since the reset
  )

  // ------------------------------------------------- atomic driver sections

  /** adreno_rb_empty. */
  predicate LooksEmpty(r: Ring) {
    r.shadowRptr == r.wptr
  }

  /** The locked section of _update_wptr. */
  function UpdateWptr(d: Device): Device
    requires d.cur < |d.rings|
  {
    if d.cp.wptr != d.rings[d.cur].wptr
    then d.(cp := d.cp.(wptr := d.rings[d.cur].wptr))
    else d
  }

  /** The locked section of a5xx_ringbuffer_submit. */
  function Publish(d: Device, i: RingId): Device
    requires i < |d.rings|
  {
    var wptr := |d.rings[i].mem|;
    var cp := if d.state == NONE && d.cur == i then d.cp.(wptr := wptr) else d.cp;
    d.(cp := cp, rings := d.rings[i := d.rings[i].(wptr := wptr)])
  }

  /** The locked write of the record in a5xx_preemption_trigger. */
  function FillRecord(d: Device, n: RingId): Device
    requires n < |d.rings|
  {
    var r := d.rings[n];
    d.(rings := d.rings[n := r.(desc := r.desc.(wptr := r.wptr))])
  }

  /** smmu_info, RESTORE_ADDR and next_rb in a5xx_preemption_trigger. */
  function ProgramSwitch(d: Device, n: RingId, table: Smmu): Device {
    d.(smmuInfo := table, cp := d.cp.(restore := n), next := Some(n))
  }

  /** The state change to TRIGGERED and the write of CONTEXT_SWITCH_CNTL. */
  function ArmSwitch(d: Device): Device {
    d.(state := TRIGGERED, cp := d.cp.(cntl := true), armed := d.armed + 1)
  }

  /** cur_rb takes over next_rb after a completed switch. */
  function SwapRings(d: Device): Device
    requires d.next.Some?
  {
    d.(prev := Some(d.cur), cur := d.next.value, next := None, swapped := d.swapped + 1)
  }

  // --------------------------------------------------------- submit side

  function Append(d: Device, i: RingId, e: Entry): Device
    requires i < |d.rings|
  {
    d.(rings := d.rings[i := d.rings[i].(mem := d.rings[i].mem + [e])])
  }

  /** a5xx_rb_pagetable_switch together with the test in a5xx_rb_context_switch. */
  function TableUpdate(d: Device, i: RingId, ctx: Context): Option<Smmu>
    requires i < |d.rings|
  {
    var active := d.rings[i].active;
    if active.Some? && active.value.ttbr0 == ctx.ttbr0 then None
    else if ctx.ttbr0 == d.defaultTtbr0 then None
    else Some(Smmu(ctx.ttbr0, ctx.id))
  }

  /**
   a5xx_drawctxt_switch. `ok` says whether a5xx_ringbuffer_addcmds found room and
   no GPU fault. Its error is dropped: the context becomes the active one either way.
   */
  function DrawctxtSwitch(d: Device, i: RingId, ctx: Context, ok: bool): Device
    requires i < |d.rings|
  {
    if d.rings[i].active == Some(ctx) then d
    else
      var d1 := if ok then Append(d, i, Entry(i, TableUpdate(d, i, ctx), i, SwitchTo(ctx))) else d;
      d1.(rings := d1.rings[i := d1.rings[i].(active := Some(ctx))])
  }

  /** The draw itself, after the switch: a5xx_ringbuffer_addcmds from submitcmd. */
  function AddDraw(d: Device, i: RingId, ctx: Context): Device
    requires i < |d.rings|
  {
    Append(d, i, Entry(i, None, i, Draw(ctx)))
  }

  /** The commands of a5xx_counter_inline_enable: they always go to the ring of highest priority. */
  function AddCounter(d: Device): Device
    requires 0 < |d.rings|
  {
    Append(d, 0, Entry(0, None, 0, EnableCounter))
  }

  // ------------------------------------------------------------- threads

  /** Where a thread of driver code stands, between two atomic actions. */
  datatype Pc =
    // a5xx_preemption_trigger
    | TryTrigger | Scan(i: nat) | UpdateCur | ClearStart
    | WriteRecord(n: RingId) | Program(n: RingId, table: Smmu) | Arm(n: RingId)
    // a5xx_preempt_callback, and _a5xx_preemption_done for the common tail
    | TryPending | ReadStatus
    | Swap(irq: bool) | UpdateNew(irq: bool) | ClearState(irq: bool)
    // adreno_preemption_timer
    | TryFaulted
    // a5xx_preemption_schedule and _a5xx_preemption_done
    | SchedLock | SchedLook | DoneStatus
    // _a5xx_preemption_worker and _a5xx_preemption_fault
    | WorkLock | WorkLook | FaultStatus
    | Returned

  /** Parts of the driver that run under device->mutex. */
  predicate HoldsMutex(pc: Pc) {
    || pc.SchedLook? || pc.DoneStatus? || pc.WorkLook? || pc.FaultStatus?
    || pc == Swap(false) || pc == UpdateNew(false) || pc == ClearState(false)
  }

  /** No null pointer is followed and no ring outside the table is touched. */
  predicate SafeAt(d: Device, pc: Pc) {
    && (pc.UpdateCur? || pc.UpdateNew? ==> d.cur < |d.rings|)
    && (pc.WriteRecord? ==> pc.n < |d.rings|)
    && (pc.Swap? ==> d.next.Some?)
  }

  /** One atomic action of a thread, and where it stands afterwards. */
  function Advance(d: Device, pc: Pc, awake: bool): (Device, Pc)
    requires SafeAt(d, pc)
  {
    match pc
    case TryTrigger =>
      if d.state == NONE then (d.(state := START), Scan(0)) else (d, Returned)
    case Scan(i) =>
      if i >= |d.rings| then (d, ClearStart)
      else if LooksEmpty(d.rings[i]) then (d, Scan(i + 1))
      else if i == d.cur then (d, UpdateCur)
      else (d, WriteRecord(i))
    case UpdateCur => (UpdateWptr(d), ClearStart)
    case ClearStart => (d.(state := NONE), Returned)
    case WriteRecord(n) => (FillRecord(d, n), Program(n, d.rings[n].scratch))
    case Program(n, table) => (ProgramSwitch(d, n, table), Arm(n))
    case Arm(n) => (ArmSwitch(d), Returned)
    case TryPending =>
      if d.state == TRIGGERED then (d.(state := PENDING), ReadStatus) else (d, Returned)
    case ReadStatus =>
      if d.cp.cntl then (d.(state := COMPLETE), Returned) else (d, Swap(true))
    case Swap(irq) => (SwapRings(d), UpdateNew(irq))
    case UpdateNew(irq) => (UpdateWptr(d), ClearState(irq))
    case ClearState(_) => (d.(state := NONE), TryTrigger)
    case TryFaulted =>
      if d.state == TRIGGERED then (d.(state := FAULTED), Returned) else (d, Returned)
    case SchedLock => (d, SchedLook)
    case SchedLook =>
      if d.state == COMPLETE then (d, DoneStatus) else (d, TryTrigger)
    case DoneStatus =>
      if !awake || d.cp.cntl then (d, TryTrigger) else (d, Swap(false))
    case WorkLock => (d, WorkLook)
    case WorkLook =>
      if d.state == FAULTED then (d, FaultStatus) else (d, Returned)
    case FaultStatus =>
      if awake && !d.cp.cntl then (d.(state := COMPLETE), Returned) else (d, Returned)
    case Returned => (d, Returned)
  }

  // ---------------------------------------------------- command processor

  /** What the CP finds at position p of a ring. */
  function Fetch(r: Ring, p: nat): Entry {
    if p < |r.mem| then r.mem[p] else Unwritten
  }

  /** Run the next submission of the ring the hardware is on. */
  function CpRun(d: Device): Device
    requires d.cp.rbBase < |d.rings|
  {
    var r := d.rings[d.cp.rbBase];
    var e := Fetch(r, d.cp.rptr);
    var table := if e.Entry? && e.update.Some? then e.update.value else d.cp.smmu;
    var rings := d.rings[d.cp.rbBase := r.(ran := r.ran + [Ran(e, table)])];
    var rings := if e.Entry? && e.update.Some? && e.scratchRing < |rings|
                 then rings[e.scratchRing := rings[e.scratchRing].(scratch := table)] else rings;
    var save := if e.Entry? then e.save else d.cp.save;
    d.(rings := rings, cp := d.cp.(rptr := d.cp.rptr + 1, smmu := table, save := save, yielded := true))
  }

  /** The CP writes its read pointer to the scratch memory. */
  function CpWriteRptr(d: Device): Device
    requires d.cp.rbBase < |d.rings|
  {
    d.(rings := d.rings[d.cp.rbBase := d.rings[d.cp.rbBase].(shadowRptr := d.cp.rptr)])
  }

  /**
   The switch: the outgoing ring goes to the record at SAVE_ADDR, its read
   pointer to the scratch memory, and the registers are loaded from the
   record at RESTORE_ADDR and from smmu_info.
   */
  function CpSwitch(d: Device): Device
    requires d.cp.rbBase < |d.rings| && d.cp.save < |d.rings| && d.cp.restore < |d.rings|
  {
    var rings := CpWriteRptr(d).rings;
    var out := Record(d.cp.rbBase, d.cp.rptr, d.cp.wptr);
    var rings := rings[d.cp.save := rings[d.cp.save].(desc := out)];
    var desc := rings[d.cp.restore].desc;
    d.(rings := rings,
       cp := d.cp.(rbBase := desc.rbase, rptr := desc.rptr, wptr := desc.wptr,
                   smmu := d.smmuInfo, cntl := false, yielded := false))
  }

  // --------------------------------------------------------- the machine

  datatype World = World(d: Device, threads: seq<Pc>)

  datatype Step =
    | Spawn(entry: Pc)             // an interrupt, timer, worker or dispatcher pass begins
    | Thread(k: nat, awake: bool)  // thread k performs one atomic action
    | Switch(i: RingId, ctx: Context, ok: bool)
    | Submit(i: RingId, ctx: Context)
    | Inline                       // a counter is enabled through ring 0
    | Wptr(i: RingId)              // the locked section of a submission
    | Run | WriteRptr | HwSwitch   // the CP

  predicate EntryPoint(pc: Pc) {
    pc.TryTrigger? || pc.TryPending? || pc.TryFaulted? || pc.SchedLock? || pc.WorkLock?
  }

  predicate MutexFree(threads: seq<Pc>) {
    forall k | 0 <= k < |threads| :: !HoldsMutex(threads[k])
  }

  predicate Enabled(w: World, s: Step) {
    match s
    case Spawn(entry) => EntryPoint(entry)
    case Thread(k, _) =>
      k < |w.threads| && (w.threads[k].SchedLock? || w.threads[k].WorkLock? ==> MutexFree(w.threads))
    case Switch(i, _, _) => i < |w.d.rings|
    case Submit(i, ctx) => i < |w.d.rings| && w.d.rings[i].active == Some(ctx)
    case Inline => 0 < |w.d.rings|
    case Wptr(i) => i < |w.d.rings|
    case Run => w.d.cp.rptr < w.d.cp.wptr
    case WriteRptr => true
    case HwSwitch => w.d.cp.cntl && (w.d.cp.yielded || w.d.cp.rptr == w.d.cp.wptr)
  }

  predicate Safe(w: World, s: Step)
    requires Enabled(w, s)
  {
    match s
    case Thread(k, _) => SafeAt(w.d, w.threads[k])
    case Run => w.d.cp.rbBase < |w.d.rings|
    case WriteRptr => w.d.cp.rbBase < |w.d.rings|
    case HwSwitch =>
      w.d.cp.rbBase < |w.d.rings| && w.d.cp.save < |w.d.rings| && w.d.cp.restore < |w.d.rings|
    case _ => true
  }

  function Apply(w: World, s: Step): World
    requires Enabled(w, s) && Safe(w, s)
  {
    match s
    case Spawn(entry) => w.(threads := w.threads + [entry])
    case Thread(k, awake) =>
      var (d, pc) := Advance(w.d, w.threads[k], awake);
      World(d, w.threads[k := pc])
    case Switch(i, ctx, ok) => w.(d := DrawctxtSwitch(w.d, i, ctx, ok))
    case Submit(i, ctx) => w.(d := AddDraw(w.d, i, ctx))
    case Inline => w.(d := AddCounter(w.d))
    case Wptr(i) => w.(d := Publish(w.d, i))
    case Run => w.(d := CpRun(w.d))
    case WriteRptr => w.(d := CpWriteRptr(w.d))
    case HwSwitch => w.(d := CpSwitch(w.d))
  }

  /** `w` leads to `w'` by these steps, none of which is unsafe. */
  predicate IsRun(w: World, steps: seq<Step>, w': World)
    decreases |steps|
  {
    if steps == [] then w == w'
    else
      && Enabled(w, steps[0]) && Safe(w, steps[0])
      && IsRun(Apply(w, steps[0]), steps[1..], w')
  }

  /**
   The device as a5xx_rb_start and a5xx_preemption_start leave it, with the CP
   idle on cur_rb after the start-up submission pointed SAVE_ADDR at its record
   and yielded.
   next_rb is whatever an earlier run left there.
   */
  predicate Initial(w: World) {
    var d := w.d;
    && w.threads == []
    && d.cur < |d.rings|
    && (forall i | 0 <= i < |d.rings| ::
          d.rings[i] == Ring([], 0, 0, Record(i, 0, 0), Smmu(d.defaultTtbr0, 0), None, []))
    && d.state == NONE && d.armed == 0 && d.swapped == 0
    && d.cp.rbBase == d.cur && d.cp.save == d.cur && d.cp.rptr == 0 && d.cp.wptr == 0
    && !d.cp.cntl && d.cp.yielded && d.cp.smmu == Smmu(d.defaultTtbr0, 0)
  }
}
