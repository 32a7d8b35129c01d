/** The streams of the A5xx driver are the submissions of the preemption model. */
module A5xxBridge {
  import opened Wrappers
  import opened Pm4
  import opened CommandProcessor
  import opened Submissions
  import opened StreamBounds
  import opened StreamMeaning
  import opened A5xxStream
  import opened A5xxBounds
  import opened A5xxMeaning
  import opened CommandBuffer
  import R = A5xxRingbuffer
  import M = PreemptModel

  /** The events that matter to page tables: updates, and writes that need the privilege to reach the scratch memory. */
  predicate TableEvent(e: Event) {
    e.UseTable? || (e.Store? && e.apriv)
  }

  function TableEvents(es: seq<Event>): seq<Event> {
    if es == [] then []
    else
      TableEvents(es[..|es| - 1]) + if TableEvent(es[|es| - 1]) then [es[|es| - 1]] else []
  }

  lemma {:induction false} TableEventsConcat(a: seq<Event>, b: seq<Event>)
    ensures TableEvents(a + b) == TableEvents(a) + TableEvents(b)
  {
    if b == [] {
      assert a + b == a;
    } else {
      assert (a + b)[..|a + b| - 1] == a + b[..|b| - 1];
      TableEventsConcat(a, b[..|b| - 1]);
    }
  }

  predicate Neutral(es: seq<Event>) {
    forall e | e in es :: !TableEvent(e)
  }

  lemma {:induction false} NoTableEvents(es: seq<Event>)
    requires Neutral(es)
    ensures TableEvents(es) == []
  {
    if es != [] { NoTableEvents(es[..|es| - 1]); }
  }

  lemma OneTableEvent(e: Event)
    ensures TableEvents([e]) == if TableEvent(e) then [e] else []
  {
    assert [e][..0] == [];
  }

  lemma OpeningIsNeutral(s: Submission, st: State)
    ensures TableEvents(OpeningTrace(s, st)) == []
  {
    assert Neutral(OpeningTrace(s, st));
    NoTableEvents(OpeningTrace(s, st));
  }

  lemma ClosingIsNeutral(t: Target, s: Submission, st: State)
    ensures TableEvents(ClosingTrace(t, s, st)) == []
  {
    assert Neutral(ClosingTrace(t, s, st));
    NoTableEvents(ClosingTrace(t, s, st));
  }

  lemma DrawsAreNeutral(t: Target, ring: RingAddresses, obj: DrawObj, flags: Flags, slots: bool, slot: nat, st: State)
    ensures TableEvents(DrawTrace(t, ring, obj, flags, slots, slot, st)) == []
  {
    IbsAreNeutral(st, Kept(flags, obj.ibs));
    hide IbEvents, Kept;
    assert Neutral(DrawTrace(t, ring, obj, flags, slots, slot, st));
    NoTableEvents(DrawTrace(t, ring, obj, flags, slots, slot, st));
  }

  lemma IbsAreNeutral(st: State, ibs: seq<Ib>)
    ensures Neutral(IbEvents(st, ibs)) && Neutral(IbEvents(st, []))
  {
    assert forall k | 0 <= k < |ibs| :: IbEvents(st, ibs)[k] == OwnEvent(st, ibs[k]);
  }

  lemma TableIsSeen(ring: RingAddresses, id: nat, ttbr0: nat)
    ensures TableEvents(TableTrace(ring, id, ttbr0))
         == [UseTable(ttbr0, id), Store(ring.scratchTtbr0, [Lo(ttbr0), Hi(ttbr0), id], true)]
  {
    var a, b, w := UseTable(ttbr0, id), Store(ring.scratchTtbr0, [Lo(ttbr0), Hi(ttbr0), id], true), [IdleWait, MeWait];
    assert Neutral(w);
    hide TableEvents, Neutral, Lo, Hi;
    NoTableEvents(w);
    OneTableEvent(a);
    OneTableEvent(b);
    TableEventsConcat([a], w);
    TableEventsConcat([a] + w, [b]);
    TableEventsConcat([a] + w + [b], w);
    Gather([a], [b], w);
  }

  lemma Gather(a: seq<Event>, b: seq<Event>, none: seq<Event>)
    ensures TableEvents(none) == [] ==>
      TableEvents(a) + TableEvents(none) + TableEvents(b) + TableEvents(none) == TableEvents(a) + TableEvents(b)
  {
    hide TableEvents;
  }

  lemma SwitchEvents(ring: RingAddresses, ctx: Context, newTable: bool)
    ensures TableEvents(SwitchTrace(ring, ctx, newTable))
         == if newTable
            then [UseTable(ctx.ttbr0, ctx.id), Store(ring.scratchTtbr0, [Lo(ctx.ttbr0), Hi(ctx.ttbr0), ctx.id], true)]
            else []
  {
    var a := if newTable then TableTrace(ring, ctx.id, ctx.ttbr0) else [];
    var b := [Store(ring.currentContext, [ctx.id], false), Store(ring.globalCurrentContext, [ctx.id], false),
              WriteRegisters(A5XX_UCHE_INVALIDATE0, [0x12])];
    TableEventsConcat(a, b);
    NoTableEvents(b);
    if newTable {
      TableIsSeen(ring, ctx.id, ctx.ttbr0);
    } else {
      NoTableEvents(a);
    }
  }

  /** What a submission of the model looks like from the CP: where it saves to, and which table it sets and copies. */
  ghost predicate Realises(e: M.Entry, rings: seq<RingAddresses>, before: State, after: State) {
    && e.Entry? && e.save < |rings| && e.scratchRing < |rings|
    && Join(after.saveLo, after.saveHi) == rings[e.save].desc
    && before.events <= after.events
    && TableEvents(after.events[|before.events|..]) == UpdateEvents(rings[e.scratchRing], e.update)
  }

  function UpdateEvents(ring: RingAddresses, update: Option<M.Smmu>): seq<Event> {
    match update
    case None => []
    case Some(u) =>
      [UseTable(u.ttbr0, u.contextidr), Store(ring.scratchTtbr0, [Lo(u.ttbr0), Hi(u.ttbr0), u.contextidr], true)]
  }

  lemma SubmissionRealises(t: Target, s: Submission, rings: seq<RingAddresses>, i: nat, e: M.Entry,
                           trace: seq<Event>, st: State, fin: State)
    requires t.preemption && i < |rings| && s.ring == rings[i]
    requires fin == Extend(AfterPreIb(t, s, st), OpeningTrace(s, st) + trace + ClosingTrace(t, s, st))
    requires e.Entry? && e.save == i && e.scratchRing == i && TableEvents(trace) == UpdateEvents(rings[i], e.update)
    ensures Realises(e, rings, st, fin)
  {
    var a, c := OpeningTrace(s, st), ClosingTrace(t, s, st);
    SavesToItsRecord(t, s, st, a + trace + c);
    NoTableEvents([YieldMode(2)]);
    TableEventsConcat([YieldMode(2)], a + trace + c);
    OpeningIsNeutral(s, st);
    ClosingIsNeutral(t, s, st);
    TableEventsConcat(a, trace);
    TableEventsConcat(a + trace, c);
  }

  lemma SavesToItsRecord(t: Target, s: Submission, st: State, es: seq<Event>)
    requires t.preemption
    ensures var fin := Extend(AfterPreIb(t, s, st), es);
      && Join(fin.saveLo, fin.saveHi) == s.ring.desc
      && st.events <= fin.events && fin.events[|st.events|..] == [YieldMode(2)] + es
  {
    JoinSplit(s.ring.desc);
  }

  /** The last thing a submission does is to report the read pointer, unless preemption is on. */
  lemma ReportMeaning(t: Target, ring: RingAddresses, st: State, ps: seq<Packet>)
    ensures Run(st, ps + R.Report(t, ring)) == Extend(Run(st, ps), Maybe(!t.preemption, ReportRptr(ring.scratchRptr)))
  {
    if t.preemption {
      assert ps + R.Report(t, ring) == ps;
    } else {
      RunSnoc(st, ps, WhereAmI(ring.scratchRptr));
      JoinSplit(ring.scratchRptr);
    }
  }

  lemma ReportIsSilent(t: Target, ring: RingAddresses, st: State, ps: seq<Packet>)
    requires t.preemption
    ensures Run(st, ps + R.Report(t, ring)) == Run(st, ps)
  {
    assert ps + R.Report(t, ring) == ps;
  }

  /** A draw on ring i is an entry that saves to record i and leaves the table alone. */
  lemma DrawRealisesEntry(t: Target, rings: seq<RingAddresses>, i: nat, obj: DrawObj, flags: Flags, slots: bool, slot: nat,
                          ts: nat, sequence: nat, pre: Option<IbRef>, post: Option<IbRef>, st: State)
    requires t.preemption && i < |rings| && AtRest(st)
    ensures var fin := Run(st, R.DrawCmds(t, rings[i], obj, flags, slots, slot, ts, sequence, pre, post));
      && AtRest(fin)
      && Realises(M.Entry(i, None, i, M.Draw(M.Context(obj.ctx.id, obj.ctx.ttbr0))), rings, st, fin)
  {
    var s := Submission(rings[i], Some(obj.ctx), flags, obj.timestamp, ts, sequence, pre, post);
    ReportIsSilent(t, rings[i], st, AddCmds(t, s, SubmitCmd(t, rings[i], obj, flags, slots, slot)));
    DrawSubmissionMeaning(t, s, obj, slots, slot, st);
    var trace := DrawTrace(t, s.ring, obj, flags, slots, slot, PayloadModes(s, st));
    DrawsAreNeutral(t, s.ring, obj, flags, slots, slot, PayloadModes(s, st));
    hide Run, AddCmds, SubmitCmd, OpeningTrace, ClosingTrace, DrawTrace, R.Report, Realises, AtRest;
    SubmissionRealises(t, s, rings, i, M.Entry(i, None, i, M.Draw(M.Context(obj.ctx.id, obj.ctx.ttbr0))), trace, st,
      Run(st, R.DrawCmds(t, rings[i], obj, flags, slots, slot, ts, sequence, pre, post)));
  }

  /** A context switch on ring i is the entry that the model appends for it. */
  lemma SwitchRealisesEntry(t: Target, rings: seq<RingAddresses>, i: nat, active: Option<Context>, ctx: Context,
                            defaultTtbr0: nat, ts: nat, sequence: nat, d: M.Device, st: State)
    requires t.preemption && i < |rings| && i < |d.rings| && AtRest(st)
    requires d.defaultTtbr0 == defaultTtbr0
    requires d.rings[i].active == if active.Some? then Some(M.Context(active.value.id, active.value.ttbr0)) else None
    ensures var c := M.Context(ctx.id, ctx.ttbr0);
      var fin := Run(st, R.SwitchCmds(t, rings[i], ctx, R.NewTable(active, ctx, defaultTtbr0), ts, sequence));
      && AtRest(fin)
      && Realises(M.Entry(i, M.TableUpdate(d, i, c), i, M.SwitchTo(c)), rings, st, fin)
  {
    var newTable := R.NewTable(active, ctx, defaultTtbr0);
    var s := Submission(rings[i], None, NoFlags.(notProtected := true), 0, ts, sequence, None, None);
    ReportIsSilent(t, rings[i], st, AddCmds(t, s, ContextSwitch(rings[i], ctx, newTable)));
    SwitchSubmissionMeaning(t, s, ctx, newTable, st);
    SwitchEvents(s.ring, ctx, newTable);
    hide Run, AddCmds, ContextSwitch, OpeningTrace, ClosingTrace, SwitchTrace, R.Report, Realises, AtRest;
    var c := M.Context(ctx.id, ctx.ttbr0);
    SubmissionRealises(t, s, rings, i, M.Entry(i, M.TableUpdate(d, i, c), i, M.SwitchTo(c)),
      SwitchTrace(s.ring, ctx, newTable), st, Run(st, R.SwitchCmds(t, rings[i], ctx, newTable, ts, sequence)));
  }

  /** With these pointers there is room for the reservation of the draw and not for that of the switch. */
  predicate OnlyDrawFits(rptr: nat, cursor: nat, draw: nat, switch_: nat) {
    && rptr < RB_DWORDS && Fits(rptr, cursor, R.A5XX_SUBMIT_MAX + draw)
    && !Fits(rptr, cursor, R.A5XX_SUBMIT_MAX + switch_)
  }

  /**
   The context switch can find no room where the draw behind it does exactly if
   the draw is the shorter of the two and fits the ring at all, and the shortest
   draw does: then the draw runs without its switch.
   */
  lemma DrawMayFitWithoutItsSwitch(draw: nat, switch_: nat)
    ensures (exists rptr: nat, cursor: nat :: OnlyDrawFits(rptr, cursor, draw, switch_))
       <==> draw < switch_ && R.A5XX_SUBMIT_MAX + draw <= RB_DWORDS - 2
  {
    if draw < switch_ && R.A5XX_SUBMIT_MAX + draw <= RB_DWORDS - 2 {
      assert OnlyDrawFits(R.A5XX_SUBMIT_MAX + draw + 1, 0, draw, switch_);
    }
  }

  lemma ShortestDrawIsShorter(t: Target, ring: RingAddresses, ctx: Context, obj: DrawObj, slots: bool, slot: nat)
    requires RingOk(ring) && ContextOk(ctx) && obj.ibs == []
    ensures Size(SubmitCmd(t, ring, obj, NoFlags, slots, slot)) < Size(ContextSwitch(ring, ctx, true))
  {
    ShortestDraw(t, ring, obj, slots, slot);
    ContextSwitchBound(ring, ctx, true);
  }
}
