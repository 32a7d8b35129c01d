/**
 The same protocol one grain finer: the locked section of a submission as the
 three actions it consists of.

 Its lock is the submitted ring's own. It keeps out whoever wants that ring's
 lock, and nobody else: not a trigger that arms a switch to another ring, and
 not the CP.
 */
module PreemptLocks {
  import opened Wrappers
  import opened PreemptModel
  import opened PreemptInvariant
  import opened PreemptProgress

  /**
   A submission inside its locked section on ring i: whether its test has passed
   and the register is still to be written, and whether the CP has switched rings
   since that test.
   */
  datatype Inside = Inside(i: RingId, load: bool, left: bool)

  datatype Fine = Fine(w: World, sub: Option<Inside>)

  datatype FineStep =
    | Base(s: Step)   // anything but the locked section
    | Open(i: RingId) // take the lock, test the state and cur_rb
    | Load            // write the WPTR register
    | Store           // rb->wptr, and give the lock back

  /** The step takes the lock of ring i, or goes on writing to a ring that is being submitted. */
  predicate NeedsLock(w: World, s: Step, i: RingId) {
    match s
    case Thread(k, _) =>
      && k < |w.threads|
      && (match w.threads[k]
          case Scan(j) => j == i
          case UpdateCur => w.d.cur == i
          case UpdateNew(_) => w.d.cur == i
          case WriteRecord(n) => n == i
          case _ => false)
    case Switch(j, _, _) => j == i
    case Submit(j, _) => j == i
    case Inline => i == 0
    case _ => false
  }

  predicate FineEnabled(f: Fine, t: FineStep) {
    match t
    case Base(s) => !s.Wptr? && Enabled(f.w, s) && Safe(f.w, s) && (f.sub.Some? ==> !NeedsLock(f.w, s, f.sub.value.i))
    case Open(i) => f.sub.None? && i < |f.w.d.rings|
    case Load => f.sub.Some? && f.sub.value.load
    case Store => f.sub.Some? && !f.sub.value.load && f.sub.value.i < |f.w.d.rings|
  }

  function LoadWptr(d: Device, i: RingId): Device
    requires i < |d.rings|
  {
    d.(cp := d.cp.(wptr := |d.rings[i].mem|))
  }

  function StoreWptr(d: Device, i: RingId): Device
    requires i < |d.rings|
  {
    d.(rings := d.rings[i := d.rings[i].(wptr := |d.rings[i].mem|)])
  }

  function FineApply(f: Fine, t: FineStep): Fine
    requires FineEnabled(f, t) && (t.Load? ==> f.sub.value.i < |f.w.d.rings|)
  {
    match t
    case Base(s) =>
      var sub := if f.sub.Some? && s.HwSwitch? then Some(f.sub.value.(left := true)) else f.sub;
      Fine(Apply(f.w, s), sub)
    case Open(i) => f.(sub := Some(Inside(i, f.w.d.state == NONE && f.w.d.cur == i, false)))
    case Load => Fine(f.w.(d := LoadWptr(f.w.d, f.sub.value.i)), Some(f.sub.value.(load := false)))
    case Store => Fine(f.w.(d := StoreWptr(f.w.d, f.sub.value.i)), None)
  }

  predicate FineRun(f: Fine, steps: seq<FineStep>, f': Fine)
    decreases |steps|
  {
    if steps == [] then f == f'
    else
      && FineEnabled(f, steps[0]) && (steps[0].Load? ==> f.sub.value.i < |f.w.d.rings|)
      && FineRun(FineApply(f, steps[0]), steps[1..], f')
  }

  /** A submission that loads the register after the CP has left its ring. */
  predicate Astray(f: Fine, t: FineStep) {
    t.Load? && f.sub.Some? && f.sub.value.left
  }

  predicate NoneAstray(f: Fine, steps: seq<FineStep>, f': Fine)
    requires FineRun(f, steps, f')
    decreases |steps|
  {
    steps == [] || (!Astray(f, steps[0]) && NoneAstray(FineApply(f, steps[0]), steps[1..], f'))
  }

  // ------------------------------------------------- seen as one action

  /**
   The world in which a submission has done all it will do as soon as it
   passes its test: its pointer is stored, and loaded into the register, or
   into the record if the CP has saved the register there in the meantime.
   */
  function Settled(d: Device, i: RingId, load: bool): Device
    requires i < |d.rings|
  {
    var r := d.rings[i].(wptr := |d.rings[i].mem|);
    if !load then d.(rings := d.rings[i := r])
    else if d.cp.rbBase == i then d.(rings := d.rings[i := r], cp := d.cp.(wptr := |r.mem|))
    else d.(rings := d.rings[i := r.(desc := r.desc.(wptr := |r.mem|))])
  }

  function Coarse(f: Fine): World
    requires f.sub.Some? ==> f.sub.value.i < |f.w.d.rings|
  {
    if f.sub.None? then f.w else f.w.(d := Settled(f.w.d, f.sub.value.i, f.sub.value.load))
  }

  predicate NotBound(w: World, i: RingId) {
    && (w.d.cp.cntl ==> w.d.cp.restore != i)
    && forall k | 0 <= k < |w.threads| ::
         w.threads[k] != WriteRecord(i) && !(w.threads[k].Program? && w.threads[k].n == i) && w.threads[k] != Arm(i)
  }

  /**
   As long as the register is still to be loaded: the CP is on the ring unless
   it has left, and the lock keeps it from coming back.
   */
  predicate PendingOk(f: Fine) {
    f.sub.Some? && f.sub.value.load ==>
      && (f.w.d.cp.rbBase == f.sub.value.i <==> !f.sub.value.left)
      && NotBound(f.w, f.sub.value.i)
      && (!f.w.d.cp.yielded ==> f.w.d.cp.rptr < f.w.d.cp.wptr)
      && f.sub.value.i < |f.w.d.rings|
      && (!f.sub.value.left ==> f.w.d.cp.wptr <= |f.w.d.rings[f.sub.value.i].mem|)
  }

  predicate FineOk(f: Fine) {
    && (f.sub.Some? ==> f.sub.value.i < |f.w.d.rings|)
    && Inv(Coarse(f)) && PendingOk(f)
  }

  function CoarseSteps(t: FineStep): seq<Step> {
    match t
    case Base(s) => [s]
    case Open(i) => [Wptr(i)]
    case _ => []
  }

  function CoarseRun(steps: seq<FineStep>): seq<Step> {
    if steps == [] then [] else CoarseSteps(steps[0]) + CoarseRun(steps[1..])
  }

  // --------------------------------------------- device by device step

  lemma RunCommutes(d: Device, i: RingId, load: bool)
    requires i < |d.rings| && DeviceOk(Settled(d, i, load)) && d.cp.rptr < d.cp.wptr
    requires load && d.cp.rbBase == i ==> d.cp.wptr <= |d.rings[i].mem|
    ensures Settled(d, i, load).cp.rptr < Settled(d, i, load).cp.wptr && d.cp.rbBase < |d.rings|
    ensures CpRun(Settled(d, i, load)) == Settled(CpRun(d), i, load)
  {
    hide TableAfter, Solo;
    var e := Settled(d, i, load);
    assert RingOk(e.rings[e.cp.rbBase], e.cp.rbBase, e.defaultTtbr0);
    assert e.cp.rptr < |e.rings[e.cp.rbBase].mem|;
    assert EntryOk(e.rings[e.cp.rbBase].mem[e.cp.rptr], e.cp.rbBase);
    OwnRunCommutes(d, i, load);
  }

  lemma OwnRunCommutes(d: Device, i: RingId, load: bool)
    requires i < |d.rings| && d.cp.rbBase < |d.rings| && d.cp.rptr < |d.rings[d.cp.rbBase].mem|
    requires EntryOk(d.rings[d.cp.rbBase].mem[d.cp.rptr], d.cp.rbBase)
    ensures CpRun(Settled(d, i, load)) == Settled(CpRun(d), i, load)
  {
    assert CpRun(Settled(d, i, load)).rings == Settled(CpRun(d), i, load).rings;
  }

  lemma WriteRptrCommutes(d: Device, i: RingId, load: bool)
    requires i < |d.rings| && d.cp.rbBase < |d.rings|
    ensures CpWriteRptr(Settled(d, i, load)) == Settled(CpWriteRptr(d), i, load)
  {
    assert CpWriteRptr(Settled(d, i, load)).rings == Settled(CpWriteRptr(d), i, load).rings;
  }

  lemma SwitchCommutes(d: Device, i: RingId, load: bool)
    requires i < |d.rings| && d.cp.rbBase < |d.rings| && d.cp.restore < |d.rings|
    requires d.cp.save == d.cp.rbBase != d.cp.restore
    requires forall k | 0 <= k < |d.rings| :: d.rings[k].desc.rbase == k
    requires load ==> d.cp.restore != i
    ensures CpSwitch(Settled(d, i, load)) == Settled(CpSwitch(d), i, load)
  {
    assert CpSwitch(Settled(d, i, load)).rings == Settled(CpSwitch(d), i, load).rings;
  }

  lemma RecordCommutes(d: Device, n: RingId, i: RingId, load: bool)
    requires i < |d.rings| && n < |d.rings| && n != i
    ensures FillRecord(Settled(d, i, load), n) == Settled(FillRecord(d, n), i, load)
    ensures Settled(d, i, load).rings[n].scratch == d.rings[n].scratch
  {
    assert FillRecord(Settled(d, i, load), n).rings == Settled(FillRecord(d, n), i, load).rings;
  }

  lemma ReloadCommutes(d: Device, i: RingId, load: bool)
    requires i < |d.rings| && d.cur < |d.rings| && d.cur != i && (load ==> d.cp.rbBase != i)
    ensures UpdateWptr(Settled(d, i, load)) == Settled(UpdateWptr(d), i, load)
  {}

  lemma OtherActionsCommute(d: Device, pc: Pc, awake: bool, i: RingId, load: bool)
    requires i < |d.rings| && SafeAt(d, pc)
    requires pc.Scan? ==> pc.i != i
    requires !pc.WriteRecord? && !pc.UpdateCur? && !pc.UpdateNew?
    ensures SafeAt(Settled(d, i, load), pc)
    ensures Advance(Settled(d, i, load), pc, awake) == (Settled(Advance(d, pc, awake).0, i, load), Advance(d, pc, awake).1)
  {}

  lemma ThreadCommutes(d: Device, pc: Pc, awake: bool, i: RingId, load: bool)
    requires i < |d.rings| && SafeAt(d, pc)
    requires pc.Scan? ==> pc.i != i
    requires pc.WriteRecord? ==> pc.n != i
    requires pc.UpdateCur? || pc.UpdateNew? ==> d.cur != i && (load ==> d.cp.rbBase != i)
    ensures SafeAt(Settled(d, i, load), pc)
    ensures Advance(Settled(d, i, load), pc, awake) == (Settled(Advance(d, pc, awake).0, i, load), Advance(d, pc, awake).1)
  {
    match pc
    case WriteRecord(n) => RecordCommutes(d, n, i, load);
    case UpdateCur => ReloadCommutes(d, i, load);
    case UpdateNew(_) => ReloadCommutes(d, i, load);
    case _ => OtherActionsCommute(d, pc, awake, i, load);
  }

  lemma WritingCommutes(d: Device, i: RingId, load: bool, j: RingId, ctx: Context, ok: bool)
    requires i < |d.rings| && j < |d.rings| && i != j
    ensures DrawctxtSwitch(Settled(d, i, load), j, ctx, ok) == Settled(DrawctxtSwitch(d, j, ctx, ok), i, load)
    ensures AddDraw(Settled(d, i, load), j, ctx) == Settled(AddDraw(d, j, ctx), i, load)
  {
    assert DrawctxtSwitch(Settled(d, i, load), j, ctx, ok).rings == Settled(DrawctxtSwitch(d, j, ctx, ok), i, load).rings;
    assert AddDraw(Settled(d, i, load), j, ctx).rings == Settled(AddDraw(d, j, ctx), i, load).rings;
  }

  lemma CounterCommutes(d: Device, i: RingId, load: bool)
    requires 0 < i < |d.rings|
    ensures AddCounter(Settled(d, i, load)) == Settled(AddCounter(d), i, load)
  {
    assert AddCounter(Settled(d, i, load)).rings == Settled(AddCounter(d), i, load).rings;
  }

  // ------------------------------------------------------- step by step

  /** What the steps of threads need to commute. */
  lemma LockKeepsOut(f: Fine, k: nat, awake: bool)
    requires FineOk(f) && f.sub.Some? && FineEnabled(f, Base(Thread(k, awake)))
    ensures var pc, d := f.w.threads[k], f.w.d;
      && (pc.UpdateCur? || pc.UpdateNew? ==> d.cur != f.sub.value.i && (f.sub.value.load ==> d.cp.rbBase != f.sub.value.i))
  {
    var pc := f.w.threads[k];
    assert ThreadOk(Coarse(f).d, Coarse(f).threads[k]);
  }

  lemma ThreadSimulated(f: Fine, k: nat, awake: bool)
    requires FineOk(f) && f.sub.Some? && FineEnabled(f, Base(Thread(k, awake)))
    ensures Enabled(Coarse(f), Thread(k, awake)) && Safe(Coarse(f), Thread(k, awake))
    ensures f.sub.value.i < |FineApply(f, Base(Thread(k, awake))).w.d.rings|
    ensures Apply(Coarse(f), Thread(k, awake)) == Coarse(FineApply(f, Base(Thread(k, awake))))
  {
    LockKeepsOut(f, k, awake);
    var i, load := f.sub.value.i, f.sub.value.load;
    hide Inv, PendingOk, Settled, Advance;
    ThreadCommutes(f.w.d, f.w.threads[k], awake, i, load);
    SettledKeepsCount(f.w.d, f.w.threads[k], awake);
  }

  lemma SettledKeepsCount(d: Device, pc: Pc, awake: bool)
    requires SafeAt(d, pc)
    ensures |Advance(d, pc, awake).0.rings| == |d.rings|
  {}

  /** When the CP can switch in the fine world, it can in the coarse one. */
  lemma SwitchPointIsTheSame(f: Fine)
    requires FineOk(f) && f.sub.Some? && Enabled(f.w, HwSwitch)
    ensures Enabled(Coarse(f), HwSwitch)
    ensures var d := f.w.d;
      && d.cp.rbBase < |d.rings| && d.cp.restore < |d.rings|
      && d.cp.save == d.cp.rbBase != d.cp.restore
      && (forall k | 0 <= k < |d.rings| :: d.rings[k].desc.rbase == k)
  {
    hide TableAfter, Solo, ThreadsOk;
    var e, d := Coarse(f).d, f.w.d;
    assert Armed(e);
    forall k | 0 <= k < |d.rings| ensures d.rings[k].desc.rbase == k {
      assert RingOk(e.rings[k], k, e.defaultTtbr0);
    }
  }

  lemma HwSwitchSimulated(f: Fine)
    requires FineOk(f) && f.sub.Some? && FineEnabled(f, Base(HwSwitch))
    ensures Enabled(Coarse(f), HwSwitch) && Safe(Coarse(f), HwSwitch)
    ensures f.sub.value.i < |FineApply(f, Base(HwSwitch)).w.d.rings|
    ensures Apply(Coarse(f), HwSwitch) == Coarse(FineApply(f, Base(HwSwitch)))
    ensures f.w.d.cp.restore < |f.w.d.rings| && FineApply(f, Base(HwSwitch)).w.d.cp.rbBase == f.w.d.cp.restore
    ensures FineApply(f, Base(HwSwitch)).w.d.cp.restore == f.w.d.cp.restore
    ensures !FineApply(f, Base(HwSwitch)).w.d.cp.cntl
  {
    SwitchPointIsTheSame(f);
    var i, load := f.sub.value.i, f.sub.value.load;
    assert load ==> f.w.d.cp.restore != i;
    hide Inv, PendingOk;
    SwitchCommutes(f.w.d, i, load);
  }

  lemma EnvironmentSimulated(f: Fine, s: Step)
    requires FineOk(f) && f.sub.Some? && FineEnabled(f, Base(s)) && !s.Thread? && !s.HwSwitch?
    ensures Enabled(Coarse(f), s) && Safe(Coarse(f), s)
    ensures f.sub.value.i < |FineApply(f, Base(s)).w.d.rings|
    ensures Apply(Coarse(f), s) == Coarse(FineApply(f, Base(s)))
  {
    var i, load := f.sub.value.i, f.sub.value.load;
    hide ThreadsOk, RingsOk, CpOk, PhaseOk;
    match s
    case Run =>
      assert load && f.w.d.cp.rbBase == i ==> f.w.d.cp.wptr <= |f.w.d.rings[i].mem|;
      hide DeviceOk;
      RunCommutes(f.w.d, i, load);
    case WriteRptr => WriteRptrCommutes(f.w.d, i, load);
    case Switch(j, ctx, ok) => WritingCommutes(f.w.d, i, load, j, ctx, ok);
    case Submit(j, ctx) => WritingCommutes(f.w.d, i, load, j, ctx, true);
    case Inline => CounterCommutes(f.w.d, i, load);
    case Spawn(_) =>
  }

  lemma BaseSimulated(f: Fine, s: Step)
    requires FineOk(f) && FineEnabled(f, Base(s))
    ensures Enabled(Coarse(f), s) && Safe(Coarse(f), s)
    ensures var f' := FineApply(f, Base(s));
      (f'.sub.Some? ==> f'.sub.value.i < |f'.w.d.rings|) && Apply(Coarse(f), s) == Coarse(f')
  {
    if f.sub.Some? {
      hide Inv, PendingOk, Settled;
      match s
      case Thread(k, awake) => ThreadSimulated(f, k, awake);
      case HwSwitch => HwSwitchSimulated(f);
      case _ => EnvironmentSimulated(f, s);
    }
  }

  /** A thread whose next place could only be reached through the lock of ring i does not get there. */
  lemma ThreadStaysUnbound(w: World, e: World, k: nat, awake: bool, i: RingId)
    requires k < |w.threads| && e.threads == w.threads && ThreadOk(e.d, w.threads[k]) && e.d.cp.restore == w.d.cp.restore
    requires NotBound(w, i) && !NeedsLock(w, Thread(k, awake), i) && SafeAt(w.d, w.threads[k])
    requires Enabled(w, Thread(k, awake))
    ensures NotBound(Apply(w, Thread(k, awake)), i)
  {
    var w' := Apply(w, Thread(k, awake));
    var pc, pc' := w.threads[k], w'.threads[k];
    assert pc != WriteRecord(i) && !(pc.Program? && pc.n == i) && pc != Arm(i);
    assert pc' != WriteRecord(i) && !(pc'.Program? && pc'.n == i) && pc' != Arm(i);
    forall j | 0 <= j < |w'.threads|
      ensures w'.threads[j] != WriteRecord(i) && !(w'.threads[j].Program? && w'.threads[j].n == i) && w'.threads[j] != Arm(i)
    {
      assert j != k ==> w'.threads[j] == w.threads[j];
    }
  }

  lemma ThreadKeepsCp(d: Device, pc: Pc, awake: bool)
    requires SafeAt(d, pc)
    ensures var d' := Advance(d, pc, awake).0;
      && d'.cp == d.cp.(wptr := d'.cp.wptr, cntl := d'.cp.cntl, restore := d'.cp.restore)
      && (!pc.UpdateCur? && !pc.UpdateNew? ==> d'.cp.wptr == d.cp.wptr)
      && |d'.rings| == |d.rings|
      && (forall i | 0 <= i < |d.rings| :: d'.rings[i].mem == d.rings[i].mem)
  {}

  lemma ThreadKeepsPending(f: Fine, k: nat, awake: bool)
    requires FineOk(f) && FineEnabled(f, Base(Thread(k, awake))) && f.sub.Some? && f.sub.value.load
    requires FineApply(f, Base(Thread(k, awake))).sub.value.i < |FineApply(f, Base(Thread(k, awake))).w.d.rings|
    requires Inv(Coarse(FineApply(f, Base(Thread(k, awake)))))
    ensures PendingOk(FineApply(f, Base(Thread(k, awake))))
  {
    LockKeepsOut(f, k, awake);
    ThreadKeepsCp(f.w.d, f.w.threads[k], awake);
    assert ThreadOk(Coarse(f).d, Coarse(f).threads[k]);
    ThreadStaysUnbound(f.w, Coarse(f), k, awake, f.sub.value.i);
    hide ThreadsOk, RingsOk, PhaseOk, Advance, NotBound, ThreadOk, TableAfter, Solo;
  }

  lemma RunKeepsMem(d: Device)
    requires d.cp.rbBase < |d.rings|
    ensures |CpRun(d).rings| == |d.rings|
    ensures forall i | 0 <= i < |d.rings| :: CpRun(d).rings[i].mem == d.rings[i].mem
  {}

  lemma EnvironmentKeepsPending(f: Fine, s: Step)
    requires FineOk(f) && FineEnabled(f, Base(s)) && f.sub.Some? && f.sub.value.load && !s.Thread? && !s.HwSwitch?
    ensures PendingOk(FineApply(f, Base(s)))
  {
    var w' := Apply(f.w, s);
    hide Inv, Settled;
    match s
    case Run => RunKeepsMem(f.w.d);
    case Spawn(entry) =>
      assert forall k | 0 <= k < |f.w.threads| :: w'.threads[k] == f.w.threads[k];
    case _ =>
  }

  lemma BaseKeepsOk(f: Fine, s: Step)
    requires FineOk(f) && FineEnabled(f, Base(s))
    ensures FineOk(FineApply(f, Base(s)))
  {
    BaseSimulated(f, s);
    StepKeepsInv(Coarse(f), s);
    if f.sub.Some? && f.sub.value.load {
      hide Inv;
      match s
      case Thread(k, awake) => ThreadKeepsPending(f, k, awake);
      case HwSwitch => SwitchKeepsPending(f);
      case _ => EnvironmentKeepsPending(f, s);
    }
  }

  lemma SwitchKeepsPending(f: Fine)
    requires FineOk(f) && FineEnabled(f, Base(HwSwitch)) && f.sub.Some? && f.sub.value.load
    ensures PendingOk(FineApply(f, Base(HwSwitch)))
  {
    HwSwitchSimulated(f);
    StepKeepsInv(Coarse(f), HwSwitch);
    var f' := FineApply(f, Base(HwSwitch));
    assert CpOk(Coarse(f').d);
    hide Inv, CpOk;
  }

  lemma OpenSimulated(f: Fine, i: RingId)
    requires FineOk(f) && FineEnabled(f, Open(i))
    ensures Enabled(Coarse(f), Wptr(i)) && Safe(Coarse(f), Wptr(i))
    ensures Apply(Coarse(f), Wptr(i)) == Coarse(FineApply(f, Open(i)))
    ensures FineOk(FineApply(f, Open(i)))
  {
    StepKeepsInv(f.w, Wptr(i));
    var d, f' := f.w.d, FineApply(f, Open(i));
    assert d.state == NONE && d.cur == i ==> d.cp.rbBase == i;
    assert Publish(d, i) == Settled(d, i, f'.sub.value.load);
    if f'.sub.value.load {
      assert CpOk(d) && RingOk(d.rings[i], i, d.defaultTtbr0);
      forall k | 0 <= k < |f.w.threads|
        ensures f.w.threads[k] != WriteRecord(i) && !(f.w.threads[k].Program? && f.w.threads[k].n == i) && f.w.threads[k] != Arm(i)
      {
        assert ThreadOk(d, f.w.threads[k]);
      }
    }
  }

  lemma LoadSimulated(f: Fine)
    requires FineOk(f) && FineEnabled(f, Load) && !f.sub.value.left
    ensures Coarse(FineApply(f, Load)) == Coarse(f) && FineOk(FineApply(f, Load))
  {
    var i := f.sub.value.i;
    assert LoadWptr(f.w.d, i).rings == f.w.d.rings;
    assert Settled(LoadWptr(f.w.d, i), i, false) == Settled(f.w.d, i, true);
  }

  lemma StoreSimulated(f: Fine)
    requires FineOk(f) && FineEnabled(f, Store)
    ensures Coarse(FineApply(f, Store)) == Coarse(f) && FineOk(FineApply(f, Store))
  {}

  // ----------------------------------------------------- over whole runs

  lemma {:induction false} FineRunSimulated(f: Fine, steps: seq<FineStep>, f': Fine)
    requires FineOk(f) && FineRun(f, steps, f') && NoneAstray(f, steps, f')
    ensures FineOk(f') && IsRun(Coarse(f), CoarseRun(steps), Coarse(f'))
    decreases |steps|
  {
    if steps == [] { return; }
    var t, rest := steps[0], steps[1..];
    var f1 := FineApply(f, t);
    assert FineOk(f1) && IsRun(Coarse(f), CoarseSteps(t), Coarse(f1)) by {
      hide FineOk, Inv, Coarse;
      match t
      case Base(s) =>
        BaseSimulated(f, s);
        BaseKeepsOk(f, s);
        OneStep(Coarse(f), s, Coarse(f1));
      case Open(i) =>
        OpenSimulated(f, i);
        OneStep(Coarse(f), Wptr(i), Coarse(f1));
      case Load => LoadSimulated(f);
      case Store => StoreSimulated(f);
    }
    hide FineOk, Coarse, CoarseSteps, FineApply, FineEnabled, IsRun;
    FineRunSimulated(f1, rest, f');
    RunConcat(Coarse(f), CoarseSteps(t), Coarse(f1), CoarseRun(rest), Coarse(f'));
  }

  lemma OneStep(w: World, s: Step, w': World)
    requires Enabled(w, s) && Safe(w, s) && Apply(w, s) == w'
    ensures IsRun(w, [s], w')
  {
    assert [s][1..] == [];
  }

  predicate FineInitial(f: Fine) {
    Initial(f.w) && f.sub.None?
  }

  /**
   Locking each ring on its own is enough as long as no submission goes astray:
   any run of the fine machine is a run of the coarse one, in which every
   submission takes effect where it passed its test.
   */
  lemma LockedSectionsAreAtomic(f: Fine, steps: seq<FineStep>, f': Fine)
    requires FineInitial(f) && FineRun(f, steps, f') && NoneAstray(f, steps, f')
    ensures f'.sub.Some? ==> f'.sub.value.i < |f'.w.d.rings|
    ensures IsRun(f.w, CoarseRun(steps), Coarse(f')) && Inv(Coarse(f'))
    ensures f'.sub.None? ==> Coarse(f') == f'.w
  {
    InitialOk(f.w);
    FineRunSimulated(f, steps, f');
  }

  /**
   When a submission writes the WPTR register, the CP is on the submitted ring
   if and only if it has not switched since the test. Where it has, the register
   gets the pointer of a ring the CP is not on.
   */
  lemma LoadIsHomeExactly(f: Fine, steps: seq<FineStep>, f': Fine)
    requires FineInitial(f) && FineRun(f, steps, f') && NoneAstray(f, steps, f') && FineEnabled(f', Load)
    ensures f'.sub.value.i < |f'.w.d.rings|
    ensures f'.w.d.cp.rbBase == f'.sub.value.i <==> !Astray(f', Load)
    ensures FineApply(f', Load).w.d.cp.wptr == |f'.w.d.rings[f'.sub.value.i].mem|
    ensures FineApply(f', Load).w.d.cp.rbBase == f'.w.d.cp.rbBase
  {
    InitialOk(f.w);
    FineRunSimulated(f, steps, f');
  }

  // ------------------------------------------------- a run that goes astray

  lemma PrependFine(f: Fine, t: FineStep, rest: seq<FineStep>, f': Fine) returns (steps: seq<FineStep>)
    requires FineEnabled(f, t) && (t.Load? ==> f.sub.value.i < |f.w.d.rings|)
    requires FineRun(FineApply(f, t), rest, f')
    ensures FineRun(f, steps, f')
  {
    steps := [t] + rest;
    assert steps[1..] == rest;
  }

  lemma {:induction false} FineConcat(f: Fine, a: seq<FineStep>, f1: Fine, b: seq<FineStep>, f2: Fine)
    requires FineRun(f, a, f1) && FineRun(f1, b, f2)
    ensures FineRun(f, a + b, f2)
    decreases |a|
  {
    if a == [] {
      assert a + b == b;
    } else {
      FineConcat(FineApply(f, a[0]), a[1..], f1, b, f2);
      assert (a + b)[1..] == a[1..] + b;
    }
  }

  /** Ring 0 has one submission published and the CP is idle on ring c. */
  predicate OneWaits(d: Device, c: RingId) {
    && 0 < c < |d.rings| && d.cur == c && d.state == NONE && d.cp.yielded && !d.cp.cntl
    && d.cp.rbBase == c && d.cp.save == c
    && var r := d.rings[0];
    && r.wptr == 1 == |r.mem| && EntryOk(r.mem[0], 0)
    && r.shadowRptr == 0 && r.desc == Record(0, 0, 0) && r.ran == []
  }

  lemma OneComes(f: Fine, ctx: Context) returns (steps: seq<FineStep>, f': Fine)
    requires FineInitial(f) && 0 < f.w.d.cur
    ensures FineRun(f, steps, f') && f'.sub == None && f'.w.threads == []
    ensures |f'.w.d.rings| == |f.w.d.rings|
    ensures OneWaits(f'.w.d, f.w.d.cur) && f'.w.d.rings[f.w.d.cur].mem == [] && f'.w.d.rings[f.w.d.cur].active == None
  {
    var f1 := FineApply(f, Base(Switch(0, ctx, true)));
    var f2 := FineApply(f1, Open(0));
    f' := FineApply(f2, Store);
    hide FineApply, FineEnabled;
    steps := [];
    steps := PrependFine(f2, Store, steps, f');
    steps := PrependFine(f1, Open(0), steps, f');
    steps := PrependFine(f, Base(Switch(0, ctx, true)), steps, f');
  }

  /** A submission of two to ring c passes its test. */
  lemma PassTheTest(f: Fine, ctx: Context, c: RingId) returns (steps: seq<FineStep>, f': Fine)
    requires f.sub == None && f.w.threads == [] && OneWaits(f.w.d, c)
    requires f.w.d.rings[c].mem == [] && f.w.d.rings[c].active == None
    ensures FineRun(f, steps, f') && f'.sub == Some(Inside(c, true, false)) && f'.w.threads == []
    ensures |f'.w.d.rings| == |f.w.d.rings| && OneWaits(f'.w.d, c) && |f'.w.d.rings[c].mem| == 2
  {
    var f1 := FineApply(f, Base(Switch(c, ctx, true)));
    var f2 := FineApply(f1, Base(Submit(c, ctx)));
    f' := FineApply(f2, Open(c));
    hide FineApply, FineEnabled;
    steps := [];
    steps := PrependFine(f2, Open(c), steps, f');
    steps := PrependFine(f1, Base(Submit(c, ctx)), steps, f');
    steps := PrependFine(f, Base(Switch(c, ctx, true)), steps, f');
  }

  lemma OwnAction(f: Fine, pc: Pc) returns (f': Fine)
    requires f.w.threads == [pc] && SafeAt(f.w.d, pc) && !pc.SchedLock? && !pc.WorkLock?
    requires f.sub.Some? ==> !NeedsLock(f.w, Thread(0, true), f.sub.value.i)
    ensures FineEnabled(f, Base(Thread(0, true))) && f' == FineApply(f, Base(Thread(0, true)))
    ensures var (d, pc') := Advance(f.w.d, pc, true);
      f' == Fine(World(d, [pc']), f.sub)
  {
    f' := FineApply(f, Base(Thread(0, true)));
    assert [pc][0 := Advance(f.w.d, pc, true).1] == [Advance(f.w.d, pc, true).1];
  }

  /** Meanwhile a trigger finds ring 0: it never asks for the lock that the submission holds. */
  lemma TriggerArms(f: Fine, c: RingId) returns (steps: seq<FineStep>, f': Fine)
    requires f.sub == Some(Inside(c, true, false)) && f.w.threads == [] && OneWaits(f.w.d, c)
    ensures FineRun(f, steps, f') && f'.sub == f.sub
    ensures f'.w == World(ArmSwitch(ProgramSwitch(FillRecord(f.w.d.(state := START), 0), 0, f.w.d.rings[0].scratch)), [Returned])
  {
    var d := f.w.d.(state := START);
    var t := Base(Thread(0, true));
    var f0 := FineApply(f, Base(Spawn(TryTrigger)));
    assert f0.w.threads == [TryTrigger];
    var f1 := OwnAction(f0, TryTrigger);
    var f2 := OwnAction(f1, Scan(0));
    var f3 := OwnAction(f2, WriteRecord(0));
    var f4 := OwnAction(f3, Program(0, d.rings[0].scratch));
    f' := OwnAction(f4, Arm(0));
    hide FineApply, FineEnabled;
    steps := [];
    steps := PrependFine(f4, t, steps, f');
    steps := PrependFine(f3, t, steps, f');
    steps := PrependFine(f2, t, steps, f');
    steps := PrependFine(f1, t, steps, f');
    steps := PrependFine(f0, t, steps, f');
    steps := PrependFine(f, Base(Spawn(TryTrigger)), steps, f');
  }

  /** The CP switches, and only then is the register written. */
  lemma LoadComesLate(f: Fine, c: RingId) returns (steps: seq<FineStep>, f': Fine)
    requires f.sub == Some(Inside(c, true, false)) && 0 < c < |f.w.d.rings| && |f.w.d.rings[c].mem| == 2
    requires var d := f.w.d;
      && d.cp.cntl && d.cp.yielded && d.cp.rbBase == c && d.cp.save == c && d.cp.restore == 0
      && d.rings[0].desc == Record(0, 0, 1) && d.rings[0].ran == [] && |d.rings[0].mem| == 1
      && d.rings[0].mem[0].Entry? && d.rings[0].mem[0].scratchRing == 0
    ensures FineRun(f, steps, f') && |f'.w.d.rings| == |f.w.d.rings| && f'.w.d.cp.rbBase == 0 && f'.w.d.cp.wptr == 2
    ensures var r := f'.w.d.rings[0];
      r.wptr == f.w.d.rings[0].wptr && |r.ran| == 2 && |r.mem| == 1 && r.ran[1].entry == Unwritten
  {
    var f1 := FineApply(f, Base(HwSwitch));
    var f2 := FineApply(f1, Load);
    var f3 := FineApply(f2, Base(Run));
    f' := FineApply(f3, Base(Run));
    hide FineApply, FineEnabled;
    steps := [];
    steps := PrependFine(f3, Base(Run), steps, f');
    steps := PrependFine(f2, Base(Run), steps, f');
    steps := PrependFine(f1, Load, steps, f');
    steps := PrependFine(f, Base(HwSwitch), steps, f');
  }

  /**
   It does happen, whenever cur_rb is not the ring of highest priority: a
   submission to cur_rb passes its test, a trigger arms a switch to ring 0, the
   CP switches, and the register is then loaded with cur_rb's pointer. The CP
   runs ring 0 beyond what was ever written to it.
   */
  lemma StraySubmission(f: Fine, ctx: Context) returns (steps: seq<FineStep>, f': Fine)
    requires FineInitial(f) && 0 < f.w.d.cur
    ensures FineRun(f, steps, f') && |f'.w.d.rings| == |f.w.d.rings|
    ensures var r := f'.w.d.rings[0];
      f'.w.d.cp.rbBase == 0 && r.wptr == |r.mem| == 1 && |r.ran| == 2 && r.ran[1].entry == Unwritten
  {
    var c := f.w.d.cur;
    var s1, f1 := OneComes(f, ctx);
    var s2, f2 := PassTheTest(f1, ctx, c);
    var s3, f3 := TriggerArms(f2, c);
    var s4;
    s4, f' := LoadComesLate(f3, c);
    hide FineRun, FineInitial;
    FineConcat(f, s1, f1, s2, f2);
    FineConcat(f, s1 + s2, f2, s3, f3);
    FineConcat(f, s1 + s2 + s3, f3, s4, f');
    steps := s1 + s2 + s3 + s4;
  }
}
