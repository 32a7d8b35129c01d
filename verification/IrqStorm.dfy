/**
 Interrupt storms: a5xx_cp_callback masks CACHE_FLUSH_TS when it keeps seeing
 the same unique value, a5xx_irq_storm_worker lets it in again.
 */
module IrqStorm {
  import Ringbuffers

  // ------------------------------------------------------ the detector

  /** The range of an unsigned int. */
  const WRAP := 0x1_0000_0000

  /** The statics of a5xx_cp_callback. */
  datatype Detector = Detector(count: nat, prev: nat)

  const START := Detector(0, 0)

  /** One callback that finds the interrupt not suspended and reads `cur`. */
  function Observe(d: Detector, cur: nat): Detector {
    if d.prev == cur then d.(count := (d.count + 1) % WRAP) else Detector(0, cur)
  }

  /** Whether that callback masks the interrupt. */
  predicate Masks(d: Detector, cur: nat) {
    d.prev == cur && (d.count + 1) % WRAP == 2
  }

  function ObserveAll(d: Detector, readings: seq<nat>): Detector {
    if readings == [] then d else Observe(ObserveAll(d, readings[..|readings| - 1]), readings[|readings| - 1])
  }

  /** How often the last reading has just been repeated, `prev` standing before the first. */
  function Repeats(prev: nat, readings: seq<nat>): nat {
    var n := |readings|;
    if n == 0 then 0
    else if readings[n - 1] == (if n == 1 then prev else readings[n - 2])
    then Repeats(prev, readings[..n - 1]) + 1
    else 0
  }

  lemma {:induction false} DetectorCountsRepeats(prev: nat, readings: seq<nat>)
    ensures var d := ObserveAll(Detector(0, prev), readings);
      && d.prev == (if readings == [] then prev else readings[|readings| - 1])
      && d.count == Repeats(prev, readings) % WRAP
  {
    if readings != [] {
      DetectorCountsRepeats(prev, readings[..|readings| - 1]);
      NextCount(Repeats(prev, readings[..|readings| - 1]));
    }
  }

  lemma NextCount(n: nat)
    ensures (n % WRAP + 1) % WRAP == (n + 1) % WRAP
  {}

  /** The interrupt is masked exactly at the second repetition in a row, and again each 2^32 repetitions later. */
  lemma MasksExactly(prev: nat, readings: seq<nat>, cur: nat)
    ensures Masks(ObserveAll(Detector(0, prev), readings), cur) <==> Repeats(prev, readings + [cur]) % WRAP == 2
  {
    DetectorCountsRepeats(prev, readings);
    NextCount(Repeats(prev, readings));
    assert (readings + [cur])[..|readings|] == readings;
  }

  /**
   A value that has been repeated r times and goes on being read masks again
   exactly when the count of repetitions, cut to 32 bits, comes back to 2: a
   storm that has been acted on goes unnoticed for 2^32 - 1 callbacks, or until
   another value is read.
   */
  lemma StormIsNoticedOnce(prev: nat, readings: seq<nat>, more: seq<nat>, cur: nat)
    requires readings != [] && readings[|readings| - 1] == cur
    requires forall k | 0 <= k < |more| :: more[k] == cur
    ensures Masks(ObserveAll(Detector(0, prev), readings + more), cur)
       <==> (Repeats(prev, readings) + |more| + 1) % WRAP == 2
    ensures Repeats(prev, readings) >= 2 && Repeats(prev, readings) + |more| < WRAP ==>
      !Masks(ObserveAll(Detector(0, prev), readings + more), cur)
  {
    hide Masks, ObserveAll, Repeats;
    MasksExactly(prev, readings + more, cur);
    OnceMore(prev, readings, more, cur);
    var n := Repeats(prev, readings) + |more| + 1;
    if 3 <= n <= WRAP { NotTwoAgain(n); }
  }

  lemma OnceMore(prev: nat, readings: seq<nat>, more: seq<nat>, cur: nat)
    requires readings != [] && readings[|readings| - 1] == cur
    requires forall k | 0 <= k < |more| :: more[k] == cur
    ensures Repeats(prev, readings + more + [cur]) == Repeats(prev, readings) + |more| + 1
  {
    hide Repeats;
    GoesOnRepeating(prev, readings, more + [cur], cur);
    assert readings + more + [cur] == readings + (more + [cur]);
  }

  lemma NotTwoAgain(n: nat)
    requires 3 <= n <= WRAP
    ensures n % WRAP != 2
  {
    if n == WRAP {}
  }

  lemma {:induction false} GoesOnRepeating(prev: nat, readings: seq<nat>, more: seq<nat>, cur: nat)
    requires readings != [] && readings[|readings| - 1] == cur
    requires forall k | 0 <= k < |more| :: more[k] == cur
    ensures Repeats(prev, readings + more) == Repeats(prev, readings) + |more|
  {
    if more == [] {
      assert readings + more == readings;
    } else {
      var init := more[..|more| - 1];
      GoesOnRepeating(prev, readings, init, cur);
      assert (readings + more)[..|readings + more| - 1] == readings + init;
    }
  }

  // --------------------------------------------- unique values in memory

  /** What ref_wait_ts holds after submission n has been the last to complete: the static `sequence`, a u32. */
  function SequenceOf(n: nat): nat {
    n % WRAP
  }

  /** Started at 0 and counted up by each submission, the static holds this value for submission n. */
  lemma SequenceIsCounted(n: nat)
    ensures Ringbuffers.Counted(0, n) == SequenceOf(n)
  {
    Ringbuffers.CountsUp(0, n);
  }

  /**
   The submission last completed at each callback, numbered in the order in
   which they were built. Between two callbacks another one completes; which
   one is up to preemption, so the numbers may go down as well as up.
   */
  predicate FreshEachTime(last: seq<nat>) {
    forall k | 0 <= k < |last| - 1 ::
      last[k] != last[k + 1] && last[k] < last[k + 1] + WRAP && last[k + 1] < last[k] + WRAP
  }

  function ReadingsOf(last: seq<nat>): seq<nat> {
    seq(|last|, k requires 0 <= k < |last| => SequenceOf(last[k]))
  }

  lemma FreshValuesDiffer(a: nat, b: nat)
    requires a < b < a + WRAP
    ensures SequenceOf(a) != SequenceOf(b)
  {
    var q := b / WRAP - a / WRAP;
    assert SequenceOf(a) == SequenceOf(b) ==> b - a == q * WRAP;
  }

  /**
   No false storm: if some other submission has completed between any two
   callbacks, in whatever order, nothing is ever masked, and the count is 0 but
   for a first reading that happens to be the initial value of `prev`.
   */
  lemma {:induction false} NoFalseStorm(last: seq<nat>)
    requires FreshEachTime(last)
    ensures ObserveAll(START, ReadingsOf(last)).count == 0 <==> !(|last| == 1 && SequenceOf(last[0]) == START.prev)
    ensures forall n | 0 <= n < |last| ::
      !Masks(ObserveAll(START, ReadingsOf(last)[..n]), ReadingsOf(last)[n])
    decreases |last|
  {
    if last != [] {
      var n := |last| - 1;
      var init := last[..n];
      NoFalseStorm(init);
      PrefixReadings(last);
      DetectorCountsRepeats(0, ReadingsOf(init));
      if n > 0 { NeighboursDiffer(last, n - 1); }
      hide Repeats, SequenceOf, ReadingsOf, FreshEachTime;
    }
  }

  lemma PrefixReadings(last: seq<nat>)
    requires last != []
    ensures var n := |last| - 1;
      && |ReadingsOf(last)| == n + 1 && |ReadingsOf(last[..n])| == n
      && (forall k | 0 <= k <= n :: ReadingsOf(last)[..k] == ReadingsOf(last[..n])[..k])
      && ReadingsOf(last)[..n] == ReadingsOf(last[..n]) && ReadingsOf(last)[n] == SequenceOf(last[n])
      && (n > 0 ==> ReadingsOf(last[..n])[n - 1] == SequenceOf(last[n - 1]))
      && forall k | 0 <= k < n :: ReadingsOf(last)[k] == ReadingsOf(last[..n])[k]
  {
    hide SequenceOf;
  }

  lemma NeighboursDiffer(last: seq<nat>, k: nat)
    requires FreshEachTime(last) && k + 1 < |last|
    ensures SequenceOf(last[k]) != SequenceOf(last[k + 1])
  {
    hide SequenceOf;
    if last[k] < last[k + 1] { FreshValuesDiffer(last[k], last[k + 1]); }
    else { FreshValuesDiffer(last[k + 1], last[k]); }
  }

  // ------------------------------------------- callback against worker

  /** Where the interrupt handler stands in a5xx_cp_callback. */
  datatype IrqPc = Outside | Passed | Flagged | Cleared | MaskWritten

  /** Where a5xx_irq_storm_worker stands. */
  datatype WorkPc = Off | Queued | Waited | Restored | RestoredInHw

  datatype State = State(
    suspended: bool,   // ADRENO_DEVICE_CACHE_FLUSH_TS_SUSPENDED
    maskBit: bool,     // the bit in irq_mask
    hwBit: bool,       // the bit in A5XX_RBBM_INT_0_MASK
    detector: Detector, irq: IrqPc, work: WorkPc
  )

  datatype Step =
    | Interrupt            // the handler is entered: it tests the flag
    | Callback(cur: nat)   // it reads memory and judges
    | IrqStep              // a further step of masking
    | WorkStep

  /** A handler does not interrupt itself; otherwise it may be entered at any time, even by a late interrupt. */
  predicate Enabled(s: State, step: Step) {
    match step
    case Interrupt => s.irq.Outside?
    case Callback(_) => s.irq.Passed?
    case IrqStep => !s.irq.Outside? && !s.irq.Passed?
    case WorkStep => !s.work.Off?
  }

  function Apply(s: State, step: Step): State
    requires Enabled(s, step)
  {
    match step
    case Interrupt => if s.suspended then s else s.(irq := Passed)
    case Callback(cur) =>
      var d := Observe(s.detector, cur);
      if Masks(s.detector, cur) then s.(detector := d, suspended := true, irq := Flagged)
      else s.(detector := d, irq := Outside)
    case IrqStep =>
      (match s.irq
       case Flagged => s.(maskBit := false, irq := Cleared)
       case Cleared => s.(hwBit := s.maskBit, irq := MaskWritten)
       case _ => s.(work := if s.work.Off? then Queued else s.work, irq := Outside))
    case WorkStep =>
      (match s.work
       case Queued => s.(work := Waited)
       case Waited => s.(maskBit := true, work := Restored)
       case Restored => s.(hwBit := s.maskBit, work := RestoredInHw)
       case _ => s.(suspended := false, work := Off))
  }

  predicate Inv(s: State) {
    && (s.suspended <==> s.irq.Flagged? || s.irq.Cleared? || s.irq.MaskWritten? || !s.work.Off?)
    && (s.irq.Passed? || s.irq.Flagged? || s.irq.Cleared? || s.irq.MaskWritten? ==> s.work.Off?)
    && (!s.maskBit <==> s.irq.Cleared? || s.irq.MaskWritten? || s.work.Queued? || s.work.Waited?)
    && (!s.hwBit <==> s.irq.MaskWritten? || s.work.Queued? || s.work.Waited? || s.work.Restored?)
  }

  predicate Initial(s: State) {
    !s.suspended && s.maskBit && s.hwBit && s.detector == START && s.irq.Outside? && s.work.Off?
  }

  predicate IsRun(s: State, steps: seq<Step>, t: State)
    decreases |steps|
  {
    if steps == [] then s == t
    else Enabled(s, steps[0]) && IsRun(Apply(s, steps[0]), steps[1..], t)
  }

  lemma {:induction false} RunKeepsInv(s: State, steps: seq<Step>, t: State)
    requires Inv(s) && IsRun(s, steps, t)
    ensures Inv(t)
    decreases |steps|
  {
    if steps != [] { RunKeepsInv(Apply(s, steps[0]), steps[1..], t); }
  }

  /**
   In every run the flag is set exactly when the bit is clear in irq_mask and in
   the register, except while the handler or the worker is on the way from one
   to the other; and whenever the bit is clear someone is under way to set it.
   */
  lemma SuspendedMeansMasked(s: State, steps: seq<Step>, t: State)
    requires Initial(s) && IsRun(s, steps, t)
    ensures t.irq.Outside? && (t.work.Off? || t.work.Queued?) ==>
      (t.suspended <==> !t.maskBit) && (t.suspended <==> !t.hwBit)
    ensures !t.maskBit || !t.hwBit ==> t.suspended && (!t.irq.Outside? || !t.work.Off?)
    ensures t.irq.Outside? && t.work.Off? ==> !t.suspended && t.maskBit && t.hwBit
  {
    RunKeepsInv(s, steps, t);
  }

  /** From any reachable state outside the handler the worker's own steps lead back to an open interrupt. */
  lemma WorkerReopens(s: State) returns (steps: seq<Step>, t: State)
    requires Inv(s) && s.irq.Outside?
    ensures IsRun(s, steps, t) && t.irq.Outside? && t.work.Off?
    ensures !t.suspended && t.maskBit && t.hwBit && t.detector == s.detector
    decreases match s.work case Off => 0 case RestoredInHw => 1 case Restored => 2 case Waited => 3 case Queued => 4
  {
    if s.work.Off? {
      return [], s;
    }
    var rest;
    rest, t := WorkerReopens(Apply(s, WorkStep));
    steps := [WorkStep] + rest;
    assert steps[1..] == rest;
  }

  // ------------------------------------------------------- the callback

  class Device {
    var suspended: bool
    var maskBit: bool
    var hwBit: bool
    var queued: bool     // irq_storm_work
    var count: nat
    var prev: nat
    var triggered: nat   // passes on to a5xx_preemption_trigger and the dispatcher

    ghost predicate Valid()
      reads this
    {
      suspended == !maskBit == !hwBit == queued && count < WRAP
    }

    constructor ()
      ensures Valid() && !suspended && count == 0 && prev == 0 && triggered == 0
    {
      suspended, maskBit, hwBit, queued := false, true, true, false;
      count, prev, triggered := 0, 0, 0;
    }

    /** a5xx_cp_callback, undisturbed; `cur` is what ref_wait_ts holds. */
    method CpCallback(cur: nat)
      requires Valid()
      modifies this
      ensures Valid()
      ensures old(suspended) ==> unchanged(this)
      ensures !old(suspended) ==>
        && Detector(count, prev) == Observe(Detector(old(count), old(prev)), cur)
        && suspended == Masks(Detector(old(count), old(prev)), cur)
        && triggered == old(triggered) + (if suspended then 0 else 1)
    {
      if suspended {
        return;
      }
      if prev == cur {
        count := (count + 1) % WRAP;
        if count == 2 {
          suspended := true;
          maskBit := false;
          hwBit := maskBit;
          queued := true;
          return;
        }
      } else {
        count := 0;
        prev := cur;
      }
      triggered := triggered + 1;
    }

    /** a5xx_irq_storm_worker, undisturbed, after the status bit has gone away. */
    method IrqStormWorker()
      requires Valid() && queued
      modifies this
      ensures Valid() && !suspended
      ensures count == old(count) && prev == old(prev)
      ensures triggered == old(triggered) + 1
    {
      queued := false;
      maskBit := true;
      hwBit := maskBit;
      suspended := false;
      triggered := triggered + 1;
    }
  }
}
