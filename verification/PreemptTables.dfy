/** Which page table a draw runs with, whatever was preempted and whatever was turned away. */
module PreemptTables {
  import opened Wrappers
  import opened PreemptModel
  import opened PreemptInvariant
  import opened PreemptTheorems
  import opened PreemptProgress

  // --------------------------- what the calls of the submitters lead to

  /** A job that was accepted on a ring, and the ttbr0 it is to run with. */
  datatype Planned = Planned(job: Job, ttbr0: nat)

  /**
   What is known about a ring from the calls made for it alone: the context
   last switched to, accepted or not; the ttbr0 of the last update that was
   accepted; and the accepted jobs.
   */
  datatype Log = Log(active: Option<Context>, ttbr0: nat, jobs: seq<Planned>)

  /** Whether a switch to `ctx` asks for an update: the process is another one and not on the default table. */
  predicate Asks(active: Option<Context>, ctx: Context, dflt: nat) {
    ctx.ttbr0 != dflt && !(active.Some? && active.value.ttbr0 == ctx.ttbr0)
  }

  function LogStep(l: Log, s: Step, i: RingId, dflt: nat): Log {
    match s
    case Switch(j, ctx, ok) =>
      if j != i || l.active == Some(ctx) then l
      else if !ok then l.(active := Some(ctx))
      else
        var ttbr0 := if Asks(l.active, ctx, dflt) then ctx.ttbr0 else l.ttbr0;
        Log(Some(ctx), ttbr0, l.jobs + [Planned(SwitchTo(ctx), ttbr0)])
    case Submit(j, ctx) =>
      if j != i then l else l.(jobs := l.jobs + [Planned(Draw(ctx), l.ttbr0)])
    case Inline =>
      if i != 0 then l else l.(jobs := l.jobs + [Planned(EnableCounter, l.ttbr0)])
    case _ => l
  }

  function LogRun(l: Log, steps: seq<Step>, i: RingId, dflt: nat): Log
    decreases |steps|
  {
    if steps == [] then l else LogRun(LogStep(l, steps[0], i, dflt), steps[1..], i, dflt)
  }

  function LogOf(steps: seq<Step>, i: RingId, dflt: nat): Log {
    LogRun(Log(None, dflt, []), steps, i, dflt)
  }

  // ------------------------------------------ the stream agrees with it

  predicate PlannedAt(r: Ring, l: Log, dflt: nat, k: nat)
    requires k < |r.mem| == |l.jobs|
  {
    var e := r.mem[k];
    && e.Entry? && e.job == l.jobs[k].job
    && (e.update.Some? ==> e.update.value.ttbr0 != dflt)
    && TableAfter(dflt, r.mem[..k + 1]).ttbr0 == l.jobs[k].ttbr0
  }

  predicate Agrees(r: Ring, l: Log, dflt: nat) {
    && r.active == l.active && |r.mem| == |l.jobs|
    && TableAfter(dflt, r.mem).ttbr0 == l.ttbr0
    && forall k | 0 <= k < |r.mem| :: PlannedAt(r, l, dflt, k)
  }

  lemma AppendAgrees(r: Ring, l: Log, dflt: nat, e: Entry, active: Option<Context>)
    requires Agrees(r, l, dflt) && e.Entry?
    requires e.update.Some? ==> e.update.value.ttbr0 != dflt
    ensures var ttbr0 := if e.update.Some? then e.update.value.ttbr0 else l.ttbr0;
      Agrees(r.(mem := r.mem + [e], active := active),
             Log(active, ttbr0, l.jobs + [Planned(e.job, ttbr0)]), dflt)
  {
    var mem := r.mem + [e];
    assert mem[..|r.mem|] == r.mem;
    var ttbr0 := if e.update.Some? then e.update.value.ttbr0 else l.ttbr0;
    var r1 := r.(mem := mem, active := active);
    var l1 := Log(active, ttbr0, l.jobs + [Planned(e.job, ttbr0)]);
    forall k | 0 <= k < |mem| ensures PlannedAt(r1, l1, dflt, k) {
      if k < |r.mem| {
        assert PlannedAt(r, l, dflt, k);
        assert mem[..k + 1] == r.mem[..k + 1];
      } else {
        assert mem[..k + 1] == mem;
      }
    }
  }

  lemma SwitchAgrees(d: Device, i: RingId, ctx: Context, ok: bool, l: Log)
    requires i < |d.rings| && Agrees(d.rings[i], l, d.defaultTtbr0)
    ensures Agrees(DrawctxtSwitch(d, i, ctx, ok).rings[i], LogStep(l, Switch(i, ctx, ok), i, d.defaultTtbr0), d.defaultTtbr0)
  {
    var r, dflt := d.rings[i], d.defaultTtbr0;
    var r1 := DrawctxtSwitch(d, i, ctx, ok).rings[i];
    if r.active != Some(ctx) {
      if ok {
        var e := Entry(i, TableUpdate(d, i, ctx), i, SwitchTo(ctx));
        AppendAgrees(r, l, dflt, e, Some(ctx));
        assert r1 == r.(mem := r.mem + [e], active := Some(ctx));
      } else {
        var l1 := l.(active := Some(ctx));
        forall k | 0 <= k < |r1.mem| ensures PlannedAt(r1, l1, dflt, k) {
          assert PlannedAt(r, l, dflt, k);
        }
      }
    }
  }

  lemma SubmitAgrees(d: Device, i: RingId, ctx: Context, l: Log)
    requires i < |d.rings| && Agrees(d.rings[i], l, d.defaultTtbr0) && d.rings[i].active == Some(ctx)
    ensures Agrees(AddDraw(d, i, ctx).rings[i], LogStep(l, Submit(i, ctx), i, d.defaultTtbr0), d.defaultTtbr0)
  {
    AppendAgrees(d.rings[i], l, d.defaultTtbr0, Entry(i, None, i, Draw(ctx)), Some(ctx));
  }

  lemma CounterAgrees(d: Device, l: Log)
    requires 0 < |d.rings| && Agrees(d.rings[0], l, d.defaultTtbr0)
    ensures Agrees(AddCounter(d).rings[0], LogStep(l, Inline, 0, d.defaultTtbr0), d.defaultTtbr0)
  {
    AppendAgrees(d.rings[0], l, d.defaultTtbr0, Entry(0, None, 0, EnableCounter), d.rings[0].active);
  }

  predicate SameStream(r: Ring, r1: Ring) {
    r1.mem == r.mem && r1.active == r.active
  }

  predicate Writes(s: Step, i: RingId) {
    (s.Switch? && s.i == i) || (s.Submit? && s.i == i) || (s.Inline? && i == 0)
  }

  lemma OthersKeepStream(w: World, s: Step, i: RingId)
    requires Inv(w) && Enabled(w, s) && i < |w.d.rings| && !Writes(s, i)
    ensures Safe(w, s) && i < |Apply(w, s).d.rings|
    ensures SameStream(w.d.rings[i], Apply(w, s).d.rings[i])
  {
    InvIsSafe(w, s);
    match s
    case Thread(k, awake) =>
      hide Inv, Advance, SafeAt;
      ThreadsDoNotSubmit(w.d, w.threads[k], awake, i);
    case Run =>
      hide ThreadsOk, CpRun;
      RunKeepsStream(w.d, i);
    case _ => hide Inv;
  }

  lemma RunKeepsStream(d: Device, i: RingId)
    requires DeviceOk(d) && d.cp.rptr < d.cp.wptr && i < |d.rings|
    ensures |CpRun(d).rings| == |d.rings| && SameStream(d.rings[i], CpRun(d).rings[i])
  {
    CpRunKeepsDevice(d);
    hide TableAfter, Solo, RingOk;
  }

  lemma SameStreamAgrees(r: Ring, r1: Ring, l: Log, dflt: nat)
    requires Agrees(r, l, dflt) && SameStream(r, r1)
    ensures Agrees(r1, l, dflt)
  {
    forall k | 0 <= k < |r1.mem| ensures PlannedAt(r1, l, dflt, k) {
      assert PlannedAt(r, l, dflt, k);
    }
  }

  lemma StepAgrees(w: World, s: Step, i: RingId, l: Log)
    requires Inv(w) && Enabled(w, s) && i < |w.d.rings| && Agrees(w.d.rings[i], l, w.d.defaultTtbr0)
    ensures Safe(w, s) && i < |Apply(w, s).d.rings| && Apply(w, s).d.defaultTtbr0 == w.d.defaultTtbr0
    ensures Agrees(Apply(w, s).d.rings[i], LogStep(l, s, i, w.d.defaultTtbr0), w.d.defaultTtbr0)
  {
    HistoryIsKept(w, s, i);
    hide Agrees, Inv;
    if s.Switch? && s.i == i {
      SwitchAgrees(w.d, i, s.ctx, s.ok, l);
    } else if s.Submit? && s.i == i {
      SubmitAgrees(w.d, i, s.ctx, l);
    } else if s.Inline? && i == 0 {
      CounterAgrees(w.d, l);
    } else {
      OthersKeepStream(w, s, i);
      SameStreamAgrees(w.d.rings[i], Apply(w, s).d.rings[i], l, w.d.defaultTtbr0);
    }
  }

  lemma {:induction false} RunAgrees(w: World, steps: seq<Step>, w': World, i: RingId, l: Log)
    requires Inv(w) && IsRun(w, steps, w') && i < |w.d.rings| && Agrees(w.d.rings[i], l, w.d.defaultTtbr0)
    ensures i < |w'.d.rings| && w'.d.defaultTtbr0 == w.d.defaultTtbr0
    ensures Agrees(w'.d.rings[i], LogRun(l, steps, i, w.d.defaultTtbr0), w.d.defaultTtbr0)
    decreases |steps|
  {
    if steps != [] {
      StepKeepsInv(w, steps[0]);
      StepAgrees(w, steps[0], i, l);
      hide Inv, Agrees, Apply, Enabled, Safe;
      RunAgrees(Apply(w, steps[0]), steps[1..], w', i, LogStep(l, steps[0], i, w.d.defaultTtbr0));
    }
  }

  lemma RunFollowsLog(w: World, steps: seq<Step>, w': World, i: RingId)
    requires Initial(w) && IsRun(w, steps, w') && i < |w.d.rings|
    ensures i < |w'.d.rings| && w'.d.defaultTtbr0 == w.d.defaultTtbr0
    ensures Agrees(w'.d.rings[i], LogOf(steps, i, w.d.defaultTtbr0), w.d.defaultTtbr0)
  {
    InitialOk(w);
    RunAgrees(w, steps, w', i, Log(None, w.d.defaultTtbr0, []));
  }

  /**
   In any run, whatever was preempted and whatever switch was turned away, a
   ring holds exactly the jobs accepted on it, and each one that has run did so
   with the ttbr0 of the last update accepted before it. So a draw has the table
   of its own process if and only if that update was for its process.
   */
  lemma JobsRunAsPlanned(w: World, steps: seq<Step>, w': World, i: RingId)
    requires Initial(w) && IsRun(w, steps, w') && i < |w.d.rings|
    ensures i < |w'.d.rings|
    ensures var jobs, r := LogOf(steps, i, w.d.defaultTtbr0).jobs, w'.d.rings[i];
      && |r.ran| <= |r.mem| == |jobs|
      && forall k | 0 <= k < |r.ran| ::
           r.ran[k].entry.Entry? && Planned(r.ran[k].entry.job, r.ran[k].table.ttbr0) == jobs[k]
  {
    RunFollowsLog(w, steps, w', i);
    PreemptionIsTransparent(w, steps, w', i);
    var r, l := w'.d.rings[i], LogOf(steps, i, w.d.defaultTtbr0);
    forall k | 0 <= k < |r.ran|
      ensures r.ran[k].entry.Entry? && Planned(r.ran[k].entry.job, r.ran[k].table.ttbr0) == l.jobs[k]
    {
      assert PlannedAt(r, l, w.d.defaultTtbr0, k);
    }
  }

  // ------------------------------------------------ when that is right

  /** A ring is stale: its next draw would not run with the table of the active context. */
  predicate Stale(l: Log, dflt: nat) {
    l.active.Some? && l.ttbr0 != l.active.value.ttbr0 && l.active.value.ttbr0 != dflt
  }

  /**
   A ring becomes stale exactly by a switch to a process that the last accepted
   update was not for, when that switch is turned away or does not ask for an
   update; and it stops being stale exactly by a switch of another kind. Nothing
   else changes it.
   */
  lemma StaleExactly(l: Log, s: Step, i: RingId, dflt: nat)
    ensures Stale(LogStep(l, s, i, dflt), dflt) <==>
      if s.Switch? && s.i == i && l.active != Some(s.ctx)
      then s.ctx.ttbr0 != dflt && s.ctx.ttbr0 != l.ttbr0 && !(s.ok && Asks(l.active, s.ctx, dflt))
      else Stale(l, dflt)
  {}

  /** The step is a switch of ring i that is turned away although it asks for a table the ring does not have. */
  predicate DropsUpdate(l: Log, s: Step, i: RingId, dflt: nat) {
    s.Switch? && s.i == i && !s.ok && Asks(l.active, s.ctx, dflt) && s.ctx.ttbr0 != l.ttbr0
  }

  /** Only a switch that was turned away makes a ring stale. */
  lemma OnlyDropsMakeStale(l: Log, s: Step, i: RingId, dflt: nat)
    requires !Stale(l, dflt) && Stale(LogStep(l, s, i, dflt), dflt)
    ensures DropsUpdate(l, s, i, dflt)
  {}

  /** All draws of processes with a table of their own are planned with it. */
  predicate OwnTables(jobs: seq<Planned>, dflt: nat) {
    forall k | 0 <= k < |jobs| ::
      jobs[k].job.Draw? && jobs[k].job.ctx.ttbr0 != dflt ==> jobs[k].ttbr0 == jobs[k].job.ctx.ttbr0
  }

  /** A draw is submitted to ring i while it is stale. */
  predicate StaleDraw(l: Log, steps: seq<Step>, i: RingId, dflt: nat)
    decreases |steps|
  {
    steps != [] &&
    ((steps[0].Submit? && steps[0].i == i && Stale(l, dflt)) || StaleDraw(LogStep(l, steps[0], i, dflt), steps[1..], i, dflt))
  }

  lemma {:induction false} OwnUnlessStale(w: World, steps: seq<Step>, w': World, i: RingId, l: Log)
    requires Inv(w) && IsRun(w, steps, w') && i < |w.d.rings| && Agrees(w.d.rings[i], l, w.d.defaultTtbr0)
    ensures var dflt := w.d.defaultTtbr0;
      OwnTables(LogRun(l, steps, i, dflt).jobs, dflt)
      <==> OwnTables(l.jobs, dflt) && !StaleDraw(l, steps, i, dflt)
    decreases |steps|
  {
    if steps != [] {
      var dflt, s := w.d.defaultTtbr0, steps[0];
      StepKeepsInv(w, s);
      StepAgrees(w, s, i, l);
      var l1 := LogStep(l, s, i, dflt);
      assert OwnTables(l1.jobs, dflt) <==> OwnTables(l.jobs, dflt) && !(s.Submit? && s.i == i && Stale(l, dflt)) by {
        OneMoreJob(l, s, i, dflt, w.d.rings[i].active);
      }
      hide Inv, Agrees, Apply, Enabled, Safe, OwnTables, Stale;
      OwnUnlessStale(Apply(w, s), steps[1..], w', i, l1);
    }
  }

  lemma OneMoreJob(l: Log, s: Step, i: RingId, dflt: nat, active: Option<Context>)
    requires l.active == active && (s.Submit? && s.i == i ==> active == Some(s.ctx))
    ensures OwnTables(LogStep(l, s, i, dflt).jobs, dflt)
       <==> OwnTables(l.jobs, dflt) && !(s.Submit? && s.i == i && Stale(l, dflt))
  {
    var jobs, jobs1 := l.jobs, LogStep(l, s, i, dflt).jobs;
    if |jobs1| > |jobs| {
      var last := jobs1[|jobs|];
      assert forall k | 0 <= k < |jobs| :: jobs1[k] == jobs[k];
      assert last.job.Draw? ==> s.Submit? && s.i == i && last == Planned(Draw(s.ctx), l.ttbr0);
    }
  }

  predicate OwnTablesRan(ran: seq<Ran>, dflt: nat) {
    forall k | 0 <= k < |ran| ::
      var e := ran[k].entry;
      e.Entry? && (e.job.Draw? && e.job.ctx.ttbr0 != dflt ==> ran[k].table.ttbr0 == e.job.ctx.ttbr0)
  }

  /**
   Once everything on a ring has run, all draws of processes with a table of
   their own have run with it if and only if none of them was submitted while the
   ring was stale.
   */
  lemma DrawsRunOnTheirTable(w: World, steps: seq<Step>, w': World, i: RingId)
    requires Initial(w) && IsRun(w, steps, w') && i < |w.d.rings|
    ensures i < |w'.d.rings|
    ensures var r, dflt := w'.d.rings[i], w.d.defaultTtbr0;
      && (!StaleDraw(Log(None, dflt, []), steps, i, dflt) ==> OwnTablesRan(r.ran, dflt))
      && (OwnTablesRan(r.ran, dflt) && |r.ran| == |r.mem| ==> !StaleDraw(Log(None, dflt, []), steps, i, dflt))
  {
    InitialOk(w);
    JobsRunAsPlanned(w, steps, w', i);
    OwnUnlessStale(w, steps, w', i, Log(None, w.d.defaultTtbr0, []));
    var ran, jobs := w'.d.rings[i].ran, LogOf(steps, i, w.d.defaultTtbr0).jobs;
    hide Inv, IsRun, LogOf, LogRun, StaleDraw;
    assert forall k | 0 <= k < |ran| ::
      ran[k].entry.Entry? && ran[k].entry.job == jobs[k].job && ran[k].table.ttbr0 == jobs[k].ttbr0;
    assert OwnTablesRan(ran, w.d.defaultTtbr0) && |ran| == |jobs| ==> OwnTables(jobs, w.d.defaultTtbr0) by {
      if OwnTablesRan(ran, w.d.defaultTtbr0) && |ran| == |jobs| {
        assert forall k | 0 <= k < |jobs| :: jobs[k] == Planned(ran[k].entry.job, ran[k].table.ttbr0);
      }
    }
  }

  predicate SwitchesSucceed(steps: seq<Step>, i: RingId) {
    forall k | 0 <= k < |steps| && steps[k].Switch? && steps[k].i == i :: steps[k].ok
  }

  lemma {:induction false} NothingDroppedNothingStale(l: Log, steps: seq<Step>, i: RingId, dflt: nat)
    requires SwitchesSucceed(steps, i) && !Stale(l, dflt)
    ensures !StaleDraw(l, steps, i, dflt)
    decreases |steps|
  {
    if steps != [] {
      StaleExactly(l, steps[0], i, dflt);
      assert steps[0].Switch? && steps[0].i == i ==> steps[0].ok;
      assert forall k | 0 <= k < |steps| - 1 :: steps[1..][k] == steps[k + 1];
      NothingDroppedNothingStale(LogStep(l, steps[0], i, dflt), steps[1..], i, dflt);
    }
  }

  /** If no switch of a ring is turned away, its draws have their own tables, whatever was preempted in between. */
  lemma NothingDropped(w: World, steps: seq<Step>, w': World, i: RingId)
    requires Initial(w) && IsRun(w, steps, w') && i < |w.d.rings| && SwitchesSucceed(steps, i)
    ensures i < |w'.d.rings| && OwnTablesRan(w'.d.rings[i].ran, w.d.defaultTtbr0)
  {
    DrawsRunOnTheirTable(w, steps, w', i);
    NothingDroppedNothingStale(Log(None, w.d.defaultTtbr0, []), steps, i, w.d.defaultTtbr0);
  }

  /** A stream leaves the default table exactly when it contains an update. */
  lemma {:induction false} DefaultUntilUpdated(dflt: nat, mem: seq<Entry>)
    requires forall k | 0 <= k < |mem| ::
      mem[k].Entry? && (mem[k].update.Some? ==> mem[k].update.value.ttbr0 != dflt)
    ensures TableAfter(dflt, mem).ttbr0 == dflt <==> forall k | 0 <= k < |mem| :: mem[k].update.None?
  {
    if mem != [] {
      var init := mem[..|mem| - 1];
      assert forall k | 0 <= k < |init| :: init[k] == mem[k];
      DefaultUntilUpdated(dflt, init);
    }
  }

  /**
   A process on the default table is a different matter: the driver emits no
   update for it, so a submission runs on the default table exactly when neither
   it nor an earlier one of its ring carries an update.
   */
  lemma DefaultDrawsInherit(w: World, steps: seq<Step>, w': World, i: RingId, k: nat)
    requires Initial(w) && IsRun(w, steps, w') && i < |w.d.rings|
    requires i < |w'.d.rings| && k < |w'.d.rings[i].ran|
    ensures var ran := w'.d.rings[i].ran;
      ran[k].table.ttbr0 == w.d.defaultTtbr0
      <==> forall j | 0 <= j <= k && ran[j].entry.Entry? :: ran[j].entry.update.None?
  {
    RunFollowsLog(w, steps, w', i);
    PreemptionIsTransparent(w, steps, w', i);
    var ring, dflt := w'.d.rings[i], w.d.defaultTtbr0;
    var l := LogOf(steps, i, dflt);
    var mem := ring.mem[..k + 1];
    forall j | 0 <= j <= k
      ensures mem[j] == ring.mem[j] == ring.ran[j].entry && mem[j].Entry?
      ensures mem[j].update.Some? ==> mem[j].update.value.ttbr0 != dflt
    {
      assert PlannedAt(ring, l, dflt, j);
    }
    DefaultUntilUpdated(dflt, mem);
  }

  /**
   What one submission decides, in any state of the ring: after the call for
   `ctx` and the draw, the draw has its own table exactly when the ring already
   had it, or a switch was called for, asked for an update and was accepted.
   */
  lemma SwitchDecidesTable(d: Device, i: RingId, ctx: Context, ok: bool)
    requires i < |d.rings|
    ensures var dflt, active := d.defaultTtbr0, d.rings[i].active;
      var d1 := AddDraw(DrawctxtSwitch(d, i, ctx, ok), i, ctx);
      TableAfter(dflt, d1.rings[i].mem).ttbr0 == ctx.ttbr0
      <==> TableAfter(dflt, d.rings[i].mem).ttbr0 == ctx.ttbr0 || (ok && Asks(active, ctx, dflt))
  {
    var dflt, mem := d.defaultTtbr0, d.rings[i].mem;
    var d0 := DrawctxtSwitch(d, i, ctx, ok);
    var mem0 := d0.rings[i].mem;
    var mem1 := AddDraw(d0, i, ctx).rings[i].mem;
    assert mem1[..|mem0|] == mem0;
    assert ok && d.rings[i].active != Some(ctx) ==> mem0[..|mem|] == mem;
  }

  /** A run whose last switch submission is turned away: the draw after it runs on a foreign table. */
  lemma DroppedSwitchMisleadsDraw(w: World, a: Context, b: Context)
    returns (steps: seq<Step>, w': World)
    requires Initial(w) && w.d.cur == 0
    requires a.ttbr0 != w.d.defaultTtbr0 && b.ttbr0 != w.d.defaultTtbr0 && a.ttbr0 != b.ttbr0
    ensures IsRun(w, steps, w') && |w'.d.rings| == |w.d.rings|
    ensures w'.d.rings[0].ran == [
      Ran(Entry(0, Some(Smmu(a.ttbr0, a.id)), 0, SwitchTo(a)), Smmu(a.ttbr0, a.id)),
      Ran(Entry(0, None, 0, Draw(b)), Smmu(a.ttbr0, a.id))]
  {
    var w1 := Apply(w, Switch(0, a, true));
    var w2 := Apply(w1, Switch(0, b, false));
    var w3 := Apply(w2, Submit(0, b));
    var w4 := Apply(w3, Wptr(0));
    assert w4.d.rings[0].mem == [Entry(0, Some(Smmu(a.ttbr0, a.id)), 0, SwitchTo(a)), Entry(0, None, 0, Draw(b))];
    var w5 := Apply(w4, Run);
    w' := Apply(w5, Run);
    hide Apply, Enabled, Safe;
    steps := [];
    steps := PrependStep(w5, Run, steps, w');
    steps := PrependStep(w4, Run, steps, w');
    steps := PrependStep(w3, Wptr(0), steps, w');
    steps := PrependStep(w2, Submit(0, b), steps, w');
    steps := PrependStep(w1, Switch(0, b, false), steps, w');
    steps := PrependStep(w, Switch(0, a, true), steps, w');
  }
}
