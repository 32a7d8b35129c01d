/**
 What makes the driver enter the protocol, and what becomes of a submission
 when it does so only then.

 PreemptModel lets a pass begin at any time, which is right for safety. Here
 every pass has a cause: an interrupt that was raised, a timer that was set, a
 work item that was queued, a call that an accepted draw owes. And whoever
 publishes does so in the order of the code, one at a time under the device
 mutex: what was written is published before anything else is written.
 */
module PreemptEvents {
  import opened Wrappers
  import opened PreemptModel
  import opened PreemptInvariant
  import opened PreemptTheorems
  import opened PreemptProgress

  // ---------------------------------------------------------- the causes

  /** What has been written to a ring and is about to be published, and by whom. */
  datatype Sender = Nobody | Switching(i: RingId) | Drawing(i: RingId) | Counting

  /**
   `own` counts the calls of preemption_schedule that accepted draws still owe,
   `looks` the counters that were published and whose submitter has yet to
   compare cur_rb with ring 0; `callbacks` are the threads in a5xx_cp_callback,
   which schedules the dispatcher when its trigger is done; `broken` says that a
   fault was raised or the power was off, after which the device is reset.
   */
  datatype Events = Events(
    timer: bool, work: bool, sched: bool, own: nat, looks: nat, switchIrq: bool, tsIrq: bool,
    callbacks: set<nat>, sender: Sender, broken: bool
  )

  datatype Live = Live(w: World, e: Events)

  datatype Cause =
    | Plain(s: Step)   // a step of PreemptModel other than a pass that begins
    | CounterLooks     // the end of a5xx_counter_inline_enable
    | TimerFires | WorkerRuns | DispatcherRuns | OwnCall | SwitchIrq | TsIrq

  predicate IsPass(c: Cause) {
    !c.Plain? && !c.CounterLooks?
  }

  /** Where the pass enters the driver. */
  function EntryOf(c: Cause): (pc: Pc)
    requires IsPass(c)
    ensures EntryPoint(pc)
  {
    match c
    case TimerFires => TryFaulted
    case WorkerRuns => WorkLock
    case DispatcherRuns => SchedLock
    case OwnCall => SchedLock
    case SwitchIrq => TryPending
    case TsIrq => TryTrigger
  }

  /** What was written is published first. */
  predicate InOrder(sender: Sender, s: Step) {
    match s
    case Switch(_, _, _) => sender.Nobody?
    case Submit(_, _) => sender.Nobody?
    case Inline => sender.Nobody?
    case Wptr(i) => sender == Switching(i) || sender == Drawing(i) || (sender.Counting? && i == 0)
    case _ => true
  }

  /** The dispatcher does not run while a draw owes its call: both hold the dispatcher mutex. */
  predicate Possible(l: Live, c: Cause) {
    match c
    case Plain(s) => !s.Spawn? && Enabled(l.w, s) && Safe(l.w, s) && InOrder(l.e.sender, s)
    case CounterLooks => l.e.looks > 0
    case TimerFires => l.e.timer
    case WorkerRuns => l.e.work
    case DispatcherRuns => l.e.sched && l.e.own == 0
    case OwnCall => l.e.own > 0
    case SwitchIrq => l.e.switchIrq
    case TsIrq => l.e.tsIrq
  }

  /** What the action of a thread sets off. */
  function SetsOff(d: Device, pc: Pc, awake: bool, e: Events): (e': Events)
    ensures e' == e.(timer := e'.timer, work := e'.work, sched := e'.sched, broken := e'.broken)
    ensures (e.sched ==> e'.sched) && (e.work ==> e'.work) && (e.broken ==> e'.broken)
  {
    match pc
    case TryFaulted => if d.state == TRIGGERED then e.(work := true) else e
    case Arm(_) => e.(timer := true)
    case Swap(_) => e.(timer := false)
    case ReadStatus => if d.cp.cntl then e.(sched := true) else e
    case FaultStatus => if awake && !d.cp.cntl then e.(sched := true) else e.(broken := true)
    case DoneStatus => if !awake || d.cp.cntl then e.(broken := true) else e
    case _ => e
  }

  /** A switch that changes nothing or is turned away leaves nothing to publish. */
  function Writes(d: Device, s: Step, e: Events): (e': Events)
    ensures e' == e.(sender := e'.sender)
  {
    match s
    case Switch(i, ctx, ok) =>
      if ok && i < |d.rings| && d.rings[i].active != Some(ctx) then e.(sender := Switching(i)) else e
    case Submit(i, _) => e.(sender := Drawing(i))
    case Inline => e.(sender := Counting)
    case _ => e
  }

  /** Only an accepted draw is followed by a call; a counter may be by one look; a context switch by nothing. */
  function Published(e: Events): (e': Events)
    ensures e' == e.(own := e'.own, looks := e'.looks, sender := Nobody) && e.own <= e'.own && e.looks <= e'.looks
  {
    match e.sender
    case Drawing(_) => e.(own := e.own + 1, sender := Nobody)
    case Counting => e.(looks := e.looks + 1, sender := Nobody)
    case _ => e.(sender := Nobody)
  }

  function Next(l: Live, c: Cause): Events
    requires Possible(l, c)
  {
    match c
    case CounterLooks => l.e.(looks := l.e.looks - 1, sched := l.e.sched || l.w.d.cur != 0)
    case TimerFires => l.e.(timer := false)
    case WorkerRuns => l.e.(work := false)
    case DispatcherRuns => l.e.(sched := false)
    case OwnCall => l.e.(own := l.e.own - 1)
    case SwitchIrq => l.e.(switchIrq := false)
    case TsIrq => l.e.(tsIrq := false, callbacks := l.e.callbacks + {|l.w.threads|})
    case Plain(s) =>
      match s
      case Wptr(_) => Published(l.e)
      case Run => l.e.(tsIrq := true)
      case HwSwitch => l.e.(switchIrq := true)
      case Thread(k, awake) =>
        var e := SetsOff(l.w.d, l.w.threads[k], awake, l.e);
        if k in e.callbacks && Advance(l.w.d, l.w.threads[k], awake).1 == Returned
        then e.(sched := true, callbacks := e.callbacks - {k}) else e
      case _ => Writes(l.w.d, s, l.e)
  }

  function Happen(l: Live, c: Cause): Live
    requires Possible(l, c)
  {
    match c
    case Plain(s) => Live(Apply(l.w, s), Next(l, c))
    case CounterLooks => Live(l.w, Next(l, c))
    case _ => Live(Apply(l.w, Spawn(EntryOf(c))), Next(l, c))
  }

  predicate LiveRun(l: Live, causes: seq<Cause>, l': Live)
    decreases |causes|
  {
    if causes == [] then l == l'
    else Possible(l, causes[0]) && LiveRun(Happen(l, causes[0]), causes[1..], l')
  }

  const Calm := Events(false, false, false, 0, 0, false, false, {}, Nobody, false)

  /** Nothing has happened yet. */
  predicate Fresh(l: Live) {
    Initial(l.w) && l.e == Calm
  }

  function StepsOf(causes: seq<Cause>): seq<Step>
    decreases |causes|
  {
    if causes == [] then []
    else
      match causes[0]
      case Plain(s) => [s] + StepsOf(causes[1..])
      case CounterLooks => StepsOf(causes[1..])
      case _ => [Spawn(EntryOf(causes[0]))] + StepsOf(causes[1..])
  }

  /** A run in which every pass has a cause is a run: what holds of all runs holds of it. */
  lemma {:induction false} LiveRunIsRun(l: Live, causes: seq<Cause>, l': Live)
    requires LiveRun(l, causes, l')
    ensures IsRun(l.w, StepsOf(causes), l'.w)
    decreases |causes|
  {
    if causes != [] {
      var c, rest := causes[0], causes[1..];
      hide Apply, Enabled, Safe, Next, InOrder;
      LiveRunIsRun(Happen(l, c), rest, l');
      assert !c.CounterLooks? ==> StepsOf(causes)[1..] == StepsOf(rest);
      assert IsPass(c) ==> CanBegin(l.w, EntryOf(c));
    }
  }

  predicate CanBegin(w: World, pc: Pc) {
    Enabled(w, Spawn(pc)) && Safe(w, Spawn(pc))
  }

  // ------------------------------------------- somebody will take notice

  /** A switch is over, or declared dead, and the driver has still to act on it. */
  predicate Waits(d: Device) {
    (d.state == TRIGGERED && !d.cp.cntl) || d.state == FAULTED || (d.state == COMPLETE && Armed(d))
  }

  predicate Called(st: PreemptState, e: Events) {
    match st
    case TRIGGERED => e.switchIrq
    case FAULTED => e.work
    case COMPLETE => e.sched || e.own > 0
    case _ => false
  }

  predicate Carries(st: PreemptState, pc: Pc) {
    match st
    case TRIGGERED => pc.TryPending?
    case FAULTED => pc.WorkLock? || pc.WorkLook? || pc.FaultStatus?
    case COMPLETE => pc.SchedLock? || pc.SchedLook? || pc.DoneStatus? || pc == Swap(false)
    case _ => false
  }

  predicate Carried(st: PreemptState, threads: seq<Pc>) {
    exists k :: 0 <= k < |threads| && Carries(st, threads[k])
  }

  predicate CallbacksOk(l: Live) {
    forall k | k in l.e.callbacks :: k < |l.w.threads| && l.w.threads[k] != Returned
  }

  predicate Noticed(l: Live) {
    !l.e.broken && Waits(l.w.d) ==> Called(l.w.d.state, l.e) || Carried(l.w.d.state, l.w.threads)
  }

  predicate LiveInv(l: Live) {
    Inv(l.w) && CallbacksOk(l) && Noticed(l)
  }

  lemma PassIsNoticed(l: Live, c: Cause)
    requires LiveInv(l) && Possible(l, c) && IsPass(c)
    ensures Noticed(Happen(l, c)) && CallbacksOk(Happen(l, c))
  {
    var w, l' := l.w, Happen(l, c);
    assert l'.w == Apply(w, Spawn(EntryOf(c)));
    assert forall k | 0 <= k < |w.threads| :: l'.w.threads[k] == w.threads[k];
    if !l'.e.broken && Waits(w.d) {
      if Carried(w.d.state, w.threads) {
        var k :| 0 <= k < |w.threads| && Carries(w.d.state, w.threads[k]);
        assert Carries(w.d.state, l'.w.threads[k]);
      } else if !Called(w.d.state, l'.e) {
        assert Carries(w.d.state, l'.w.threads[|w.threads|]);
      }
    }
  }

  /** A thread either leaves the matter to whoever has it, or takes it one step on, or hands it over. */
  lemma ActionIsNoticed(d: Device, pc: Pc, awake: bool, e: Events)
    requires PhaseOk(d) && ThreadOk(d, pc) && SafeAt(d, pc)
    ensures var (d', pc') := Advance(d, pc, awake);
      var e' := SetsOff(d, pc, awake, e);
      !e'.broken && Waits(d') ==>
        || Called(d'.state, e') || Carries(d'.state, pc')
        || (Waits(d) && d'.state == d.state && !Carries(d.state, pc))
  {
    if d.state != Advance(d, pc, awake).0.state {
      HandsOver(d, pc, awake, e);
    } else if Waits(Advance(d, pc, awake).0) && !SetsOff(d, pc, awake, e).broken {
      StaysWaiting(d, pc, awake, e);
    }
  }

  lemma HandsOver(d: Device, pc: Pc, awake: bool, e: Events)
    requires PhaseOk(d) && ThreadOk(d, pc) && SafeAt(d, pc) && d.state != Advance(d, pc, awake).0.state
    ensures Waits(Advance(d, pc, awake).0) ==> Called(Advance(d, pc, awake).0.state, SetsOff(d, pc, awake, e))
  {}

  lemma StaysWaiting(d: Device, pc: Pc, awake: bool, e: Events)
    requires PhaseOk(d) && ThreadOk(d, pc) && SafeAt(d, pc) && d.state == Advance(d, pc, awake).0.state
    requires Waits(Advance(d, pc, awake).0) && !SetsOff(d, pc, awake, e).broken
    ensures Waits(d) && (Carries(d.state, Advance(d, pc, awake).1) || !Carries(d.state, pc))
  {}

  lemma ThreadIsNoticed(l: Live, k: nat, awake: bool)
    requires LiveInv(l) && Possible(l, Plain(Thread(k, awake)))
    ensures Noticed(Happen(l, Plain(Thread(k, awake))))
  {
    var w, l' := l.w, Happen(l, Plain(Thread(k, awake)));
    var pc := w.threads[k];
    assert ThreadOk(w.d, pc);
    ActionIsNoticed(w.d, pc, awake, l.e);
    hide Inv, ThreadOk, PhaseOk, Advance, SetsOff, Waits, Carries;
    if !l'.e.broken && Waits(l'.w.d) {
      assert l'.w.threads[k] == Advance(w.d, pc, awake).1;
      if Carries(l'.w.d.state, l'.w.threads[k]) {
      } else if !Called(l'.w.d.state, l'.e) {
        var j :| 0 <= j < |w.threads| && Carries(w.d.state, w.threads[j]);
        assert l'.w.threads[j] == w.threads[j];
      }
    }
  }

  lemma ThreadKeepsCallbacks(l: Live, k: nat, awake: bool)
    requires LiveInv(l) && Possible(l, Plain(Thread(k, awake)))
    ensures CallbacksOk(Happen(l, Plain(Thread(k, awake))))
  {
    var l' := Happen(l, Plain(Thread(k, awake)));
    hide Inv, Noticed, Advance, SetsOff;
    forall j | j in l'.e.callbacks ensures j < |l'.w.threads| && l'.w.threads[j] != Returned {
      if j != k { assert l'.w.threads[j] == l.w.threads[j]; }
    }
  }

  lemma EnvironmentKeepsWaits(w: World, s: Step)
    requires Enabled(w, s) && Safe(w, s) && !s.Thread? && !s.Spawn?
    ensures var w' := Apply(w, s);
      && w'.threads == w.threads && w'.d.state == w.d.state
      && (Waits(w'.d) && !s.HwSwitch? ==> Waits(w.d))
      && (Waits(w'.d) && w'.d.state != TRIGGERED ==> Waits(w.d))
  {}

  lemma EnvironmentOnlyAdds(l: Live, s: Step)
    requires Possible(l, Plain(s)) && !s.Thread?
    ensures var e, e' := l.e, Next(l, Plain(s));
      && e'.callbacks == e.callbacks && e'.broken == e.broken
      && (e.sched ==> e'.sched) && (e.work ==> e'.work) && e.own <= e'.own && (e.switchIrq || s.HwSwitch? ==> e'.switchIrq)
  {
    hide Writes, Published, Possible, SetsOff, Advance;
    match s
    case Wptr(_) =>
    case Run =>
    case HwSwitch =>
    case _ =>
  }

  lemma EnvironmentIsNoticed(l: Live, s: Step)
    requires LiveInv(l) && Possible(l, Plain(s)) && !s.Thread?
    ensures Noticed(Happen(l, Plain(s))) && CallbacksOk(Happen(l, Plain(s)))
  {
    EnvironmentKeepsWaits(l.w, s);
    EnvironmentOnlyAdds(l, s);
    hide Inv, Apply, Next, Waits, Carried, Enabled, Safe, InOrder;
  }

  lemma LiveStep(l: Live, c: Cause)
    requires LiveInv(l) && Possible(l, c)
    ensures LiveInv(Happen(l, c))
  {
    if c.CounterLooks? { return; }
    hide Inv, Noticed, CallbacksOk;
    StepKeepsInv(l.w, if c.Plain? then c.s else Spawn(EntryOf(c)));
    if IsPass(c) {
      PassIsNoticed(l, c);
    } else if c.s.Thread? {
      ThreadIsNoticed(l, c.s.k, c.s.awake);
      ThreadKeepsCallbacks(l, c.s.k, c.s.awake);
    } else {
      EnvironmentIsNoticed(l, c.s);
    }
  }

  lemma {:induction false} LiveRunKeepsInv(l: Live, causes: seq<Cause>, l': Live)
    requires LiveInv(l) && LiveRun(l, causes, l')
    ensures LiveInv(l')
    decreases |causes|
  {
    if causes != [] {
      LiveStep(l, causes[0]);
      hide LiveInv, Possible, Happen;
      LiveRunKeepsInv(Happen(l, causes[0]), causes[1..], l');
    }
  }

  /**
   A switch that is over never goes unheeded: as long as no fault was raised, the
   interrupt, the worker or the dispatcher that will act on it is due or at work.
   */
  lemma SwitchesAreNoticed(l: Live, causes: seq<Cause>, l': Live)
    requires Fresh(l) && LiveRun(l, causes, l') && !l'.e.broken
    ensures Waits(l'.w.d) ==> Called(l'.w.d.state, l'.e) || Carried(l'.w.d.state, l'.w.threads)
  {
    InitialOk(l.w);
    LiveRunKeepsInv(l, causes, l');
  }

  // ------------------------------------------------------------ timeouts

  /** As long as the state is TRIGGERED, the timer is running or its handler is about to look. */
  predicate Timed(l: Live) {
    l.w.d.state == TRIGGERED ==> l.e.timer || exists k :: 0 <= k < |l.w.threads| && l.w.threads[k].TryFaulted?
  }

  lemma ActionStaysTimed(d: Device, pc: Pc, awake: bool, e: Events)
    requires ThreadOk(d, pc) && SafeAt(d, pc)
    ensures Advance(d, pc, awake).0.state == TRIGGERED ==>
      SetsOff(d, pc, awake, e).timer || (d.state == TRIGGERED && SetsOff(d, pc, awake, e).timer == e.timer && !pc.TryFaulted?)
  {}

  lemma ThreadStaysTimed(l: Live, k: nat, awake: bool)
    requires LiveInv(l) && Timed(l) && Possible(l, Plain(Thread(k, awake)))
    ensures Timed(Happen(l, Plain(Thread(k, awake))))
  {
    var w, l' := l.w, Happen(l, Plain(Thread(k, awake)));
    assert ThreadOk(w.d, w.threads[k]);
    ActionStaysTimed(w.d, w.threads[k], awake, l.e);
    hide Inv, ThreadOk, Advance, SetsOff, Noticed, CallbacksOk;
    if l'.w.d.state == TRIGGERED && !l'.e.timer {
      var j :| 0 <= j < |w.threads| && w.threads[j].TryFaulted?;
      assert l'.w.threads[j] == w.threads[j];
    }
  }

  lemma StepStaysTimed(l: Live, c: Cause)
    requires LiveInv(l) && Timed(l) && Possible(l, c)
    ensures Timed(Happen(l, c))
  {
    if IsPass(c) {
      var l' := Happen(l, c);
      assert l'.w == Apply(l.w, Spawn(EntryOf(c)));
      assert forall k | 0 <= k < |l.w.threads| :: l'.w.threads[k] == l.w.threads[k];
      assert c.TimerFires? ==> l'.w.threads[|l.w.threads|] == TryFaulted;
    } else if c.Plain? && c.s.Thread? {
      ThreadStaysTimed(l, c.s.k, c.s.awake);
    } else if c.Plain? {
      EnvironmentKeepsTimer(l, c.s);
    }
  }

  lemma EnvironmentKeepsTimer(l: Live, s: Step)
    requires Possible(l, Plain(s)) && !s.Thread?
    ensures var l' := Happen(l, Plain(s));
      l'.w.threads == l.w.threads && l'.w.d.state == l.w.d.state && l'.e.timer == l.e.timer
  {
    hide Writes, Published, SetsOff;
    match s
    case Wptr(_) =>
    case Run =>
    case HwSwitch =>
    case _ =>
  }

  lemma {:induction false} RunStaysTimed(l: Live, causes: seq<Cause>, l': Live)
    requires LiveInv(l) && Timed(l) && LiveRun(l, causes, l')
    ensures Timed(l')
    decreases |causes|
  {
    if causes != [] {
      LiveStep(l, causes[0]);
      StepStaysTimed(l, causes[0]);
      hide LiveInv, Timed, Possible, Happen;
      RunStaysTimed(Happen(l, causes[0]), causes[1..], l');
    }
  }

  /** Every switch that was armed and is not through has its timer running, or the timer's handler at work. */
  lemma SwitchesAreTimed(l: Live, causes: seq<Cause>, l': Live)
    requires Fresh(l) && LiveRun(l, causes, l') && l'.w.d.state == TRIGGERED
    ensures l'.e.timer || exists k :: 0 <= k < |l'.w.threads| && l'.w.threads[k].TryFaulted?
  {
    InitialOk(l.w);
    RunStaysTimed(l, causes, l');
  }

  /** One action of the thread that has just been added. */
  lemma NewestActs(l: Live, threads: seq<Pc>, pc: Pc, awake: bool) returns (l': Live)
    requires l.w.threads == threads + [pc] && SafeAt(l.w.d, pc) && |threads| !in l.e.callbacks
    requires pc.SchedLock? || pc.WorkLock? ==> MutexFree(threads)
    ensures var c, (d', pc') := Plain(Thread(|threads|, awake)), Advance(l.w.d, pc, awake);
      Possible(l, c) && l' == Happen(l, c)
      && l' == Live(World(d', threads + [pc']), SetsOff(l.w.d, pc, awake, l.e))
  {
    var k := |threads|;
    assert l.w.threads[k] == pc;
    assert pc.SchedLock? || pc.WorkLock? ==> MutexFree(l.w.threads);
    l' := Happen(l, Plain(Thread(k, awake)));
    assert l.w.threads[k := Advance(l.w.d, pc, awake).1] == threads + [Advance(l.w.d, pc, awake).1];
  }

  lemma Single(l: Live, c: Cause, l': Live)
    requires Possible(l, c) && l' == Happen(l, c)
    ensures LiveRun(l, [c], l')
  {
    assert [c][1..] == [];
  }

  /**
   A timeout: the timer fires in TRIGGERED, whether the CP is through or not. The
   switch is FAULTED, the worker is due, and nothing else has changed.
   */
  lemma TimeoutDeclaresFault(l: Live, awake: bool)
    requires LiveInv(l) && l.e.timer && l.w.d.state == TRIGGERED
    ensures LiveRun(l, [TimerFires, Plain(Thread(|l.w.threads|, awake))],
      Live(World(l.w.d.(state := FAULTED), l.w.threads + [Returned]), l.e.(timer := false, work := true)))
  {
    var l1 := Happen(l, TimerFires);
    assert |l.w.threads| !in l.e.callbacks;
    var l2 := NewestActs(l1, l.w.threads, TryFaulted, awake);
    hide LiveInv, Happen, Possible;
    var causes := [TimerFires, Plain(Thread(|l.w.threads|, awake))];
    assert causes[1..] == [Plain(Thread(|l.w.threads|, awake))];
    Single(l1, causes[1], l2);
  }

  function AfterWorker(l: Live, awake: bool): Live {
    var through := awake && !l.w.d.cp.cntl;
    if through then Live(l.w.(d := l.w.d.(state := COMPLETE)), l.e.(work := false, sched := true))
    else l.(e := l.e.(work := false, broken := true))
  }

  lemma Front(l: Live, c: Cause, rest: seq<Cause>, l': Live)
    requires Possible(l, c) && LiveRun(Happen(l, c), rest, l')
    ensures LiveRun(l, [c] + rest, l')
  {
    assert ([c] + rest)[1..] == rest;
  }

  /** The last action: the status is read. */
  lemma WorkerReads(l: Live, threads: seq<Pc>, awake: bool)
    requires l.w.threads == threads + [FaultStatus] && l.w.d.state == FAULTED && |threads| !in l.e.callbacks && !l.e.work
    ensures LiveRun(l, [Plain(Thread(|threads|, awake))], AfterWorker(l.(w := l.w.(threads := threads + [Returned])), awake))
  {
    var l' := NewestActs(l, threads, FaultStatus, awake);
    hide Happen, Possible;
    Single(l, Plain(Thread(|threads|, awake)), l');
  }

  /** The two before it: the mutex is taken and the state is looked at. */
  lemma WorkerLooks(l: Live, threads: seq<Pc>, awake: bool)
    requires l.w.threads == threads + [WorkLock] && l.w.d.state == FAULTED && |threads| !in l.e.callbacks && !l.e.work
    requires MutexFree(threads)
    ensures var c := Plain(Thread(|threads|, awake));
      LiveRun(l, [c] + ([c] + [c]), AfterWorker(l.(w := l.w.(threads := threads + [Returned])), awake))
  {
    var c := Plain(Thread(|threads|, awake));
    var l1 := NewestActs(l, threads, WorkLock, awake);
    var l2 := NewestActs(l1, threads, WorkLook, awake);
    WorkerReads(l2, threads, awake);
    var l' := AfterWorker(l.(w := l.w.(threads := threads + [Returned])), awake);
    hide Happen, Possible, AfterWorker;
    Front(l1, c, [c], l');
    Front(l, c, [c] + [c], l');
  }

  /**
   The worker that is then due: with the GPU awake and the switch over after all
   the state is COMPLETE and the dispatcher is due; otherwise the fault is raised
   and the state stays.
   */
  lemma WorkerFollowsUp(l: Live, awake: bool)
    requires LiveInv(l) && l.e.work && l.w.d.state == FAULTED && MutexFree(l.w.threads)
    ensures var c, through := Plain(Thread(|l.w.threads|, awake)), awake && !l.w.d.cp.cntl;
      LiveRun(l, [WorkerRuns, c, c, c],
        Live(World(if through then l.w.d.(state := COMPLETE) else l.w.d, l.w.threads + [Returned]),
             if through then l.e.(work := false, sched := true) else l.e.(work := false, broken := true)))
  {
    var c := Plain(Thread(|l.w.threads|, awake));
    var l0 := Happen(l, WorkerRuns);
    assert |l.w.threads| !in l.e.callbacks;
    hide LiveInv;
    WorkerLooks(l0, l.w.threads, awake);
    var l' := AfterWorker(l0.(w := l0.w.(threads := l.w.threads + [Returned])), awake);
    assert [c] + ([c] + [c]) == [c, c, c] && [WorkerRuns] + [c, c, c] == [WorkerRuns, c, c, c];
    hide LiveRun;
    Front(l, WorkerRuns, [c, c, c], l');
  }
}
