/** Which page table the A3xx is on when a draw object runs. */
module A3xxTables {
  import opened Wrappers
  import opened Pm4
  import opened CommandProcessor
  import opened Submissions
  import opened StreamMeaning
  import opened A3xxStream
  import opened A3xxMeaning
  import R = A3xxRingbuffer

  // ------------------------------------------------- the table of a trace

  predicate SetsTable(e: Event) {
    e.WriteRegisters? && e.reg == SMMU_TTBR0
  }

  /** The words last written to TTBR0. */
  function TableOf(es: seq<Event>): Option<seq<nat>> {
    if es == [] then None
    else if SetsTable(es[|es| - 1]) then Some(es[|es| - 1].values)
    else TableOf(es[..|es| - 1])
  }

  lemma {:induction false} TableOfConcat(a: seq<Event>, b: seq<Event>)
    ensures TableOf(a + b) == if TableOf(b).Some? then TableOf(b) else TableOf(a)
  {
    if b == [] {
      assert a + b == a;
    } else {
      assert (a + b)[..|a + b| - 1] == a + b[..|b| - 1];
      TableOfConcat(a, b[..|b| - 1]);
    }
  }

  predicate Neutral(es: seq<Event>) {
    forall k | 0 <= k < |es| :: !SetsTable(es[k])
  }

  lemma {:induction false} NeutralSetsNone(es: seq<Event>)
    requires Neutral(es)
    ensures TableOf(es) == None
  {
    if es != [] { NeutralSetsNone(es[..|es| - 1]); }
  }

  lemma NeutralMiddle(a: seq<Event>, b: seq<Event>, c: seq<Event>)
    requires Neutral(a) && Neutral(c)
    ensures TableOf(a + b + c) == TableOf(b)
  {
    NeutralSetsNone(a);
    NeutralSetsNone(c);
    TableOfConcat(a, b);
    TableOfConcat(a + b, c);
  }

  lemma FrameIsNeutral(s: Submission, st: State)
    ensures Neutral(OpeningTrace(s, st)) && Neutral(ClosingTrace(s, st))
  {
    hide Lo;
  }

  lemma SwitchSetsTable(ring: RingAddresses, setstate: nat, ctx: Context, newTable: bool, st: State)
    ensures TableOf(SwitchTrace(ring, setstate, ctx, newTable, st))
         == if newTable then Some([ctx.ttbr0 % 0x1_0000_0000, ctx.ttbr0 / 0x1_0000_0000]) else None
  {
    var announced := [Store(Lo(ring.currentContext), [ctx.id], st.apriv), Store(Lo(ring.globalCurrentContext), [ctx.id], st.apriv),
                      WriteRegisters(A3XX_UCHE_CACHE_INVALIDATE0_REG, [0, 0x9000_0000])];
    if newTable {
      var table := TableTrace(setstate, ctx.ttbr0, st);
      var write := WriteRegisters(SMMU_TTBR0, [Lo(ctx.ttbr0), Hi(ctx.ttbr0)]);
      assert table[7] == write && Neutral(table[..7]) && Neutral(table[8..]);
      assert table == table[..7] + [write] + table[8..];
      NeutralMiddle(table[..7], [write], table[8..]);
      NeutralMiddle([], table, announced);
      assert [] + table + announced == table + announced;
    } else {
      NeutralSetsNone(announced);
      assert [] + announced == announced;
    }
  }

  /** The table that the submission of a context switch leaves, told without the streams. */
  lemma SwitchDecidesTable(ring: RingAddresses, setstate: nat, active: Option<Context>, ctx: Context, ts: nat, fixup: IbRef, st: State)
    ensures var fin := Run(st, R.SwitchCmds(ring, setstate, ctx, R.NewTable(active, ctx), ts, fixup));
      TableOf(fin.events) ==
        if active.Some? && active.value.ttbr0 == ctx.ttbr0 then TableOf(st.events) else Some(WordsOf(ctx))
  {
    var newTable := R.NewTable(active, ctx);
    var s := Submission(ring, None, NoFlags.(notProtected := true), 0, ts, fixup, None, None);
    var st1 := Extend(st.(guarded := PayloadGuarded(s, st)), OpeningTrace(s, st));
    var trace := SwitchTrace(ring, setstate, ctx, newTable, st1);
    ContextSwitchMeaning(ring, setstate, ctx, newTable, st1);
    SwitchSetsTable(ring, setstate, ctx, newTable, st1);
    FrameIsNeutral(s, st);
    hide Run, AddCmds, ContextSwitch, OpeningTrace, ClosingTrace, SwitchTrace, TableOf, Neutral;
    SubmissionMeaning(s, ContextSwitch(ring, setstate, ctx, newTable), trace, st);
    NeutralMiddle(OpeningTrace(s, st), trace, ClosingTrace(s, st));
    TableOfConcat(st.events, OpeningTrace(s, st) + trace + ClosingTrace(s, st));
  }

  lemma DrawKeepsTable(s: Submission, obj: DrawObj, st: State)
    ensures TableOf(Run(st, AddCmds(s, SubmitCmd(obj, s.flags))).events) == TableOf(st.events)
  {
    var ibs := if s.flags.skip then [] else Kept(s.flags, obj.ibs);
    var trace := IbEvents(st.(guarded := PayloadGuarded(s, st)), ibs);
    forall k | 0 <= k < |trace| ensures !SetsTable(trace[k]) {
      assert trace[k] == OwnEvent(st.(guarded := PayloadGuarded(s, st)), ibs[k]);
    }
    FrameIsNeutral(s, st);
    NeutralSetsNone(trace);
    DrawSubmissionMeaning(s, obj, st);
    hide Run, AddCmds, SubmitCmd, OpeningTrace, ClosingTrace, TableOf, Neutral, Kept;
    NeutralMiddle(OpeningTrace(s, st), trace, ClosingTrace(s, st));
    TableOfConcat(st.events, OpeningTrace(s, st) + trace + ClosingTrace(s, st));
  }

  // ------------------------------------------------------ many draw objects

  /** A call of a3xx_ringbuffer_submitcmd: whether there is room for its context switch, if it needs one, and for the draw. */
  datatype Order = Order(obj: DrawObj, s: Submission, ts: nat, switchFits: bool, drawFits: bool)

  /** The low and the high word of a context's table. */
  function WordsOf(ctx: Context): seq<nat> {
    [ctx.ttbr0 % 0x1_0000_0000, ctx.ttbr0 / 0x1_0000_0000]
  }

  /** The context a ring has after some orders: that of the last one, whatever became of its switch. */
  function ActiveAfter(os: seq<Order>): Option<Context> {
    if os == [] then None else Some(os[|os| - 1].obj.ctx)
  }

  /** The CP after it has run what came of some orders on a ring that had no context. */
  function After(ring: RingAddresses, setstate: nat, fixup: IbRef, st: State, os: seq<Order>): State
    decreases |os|, 1
  {
    if os == [] then st
    else
      var o := os[|os| - 1];
      var st := Switched(ring, setstate, fixup, st, os);
      if o.drawFits then Run(st, AddCmds(o.s, SubmitCmd(o.obj, o.s.flags))) else st
  }

  /** The CP right before the draw of the last order. */
  function Switched(ring: RingAddresses, setstate: nat, fixup: IbRef, st: State, os: seq<Order>): State
    requires os != []
    decreases |os|, 0
  {
    var init, o := os[..|os| - 1], os[|os| - 1];
    var active, st := ActiveAfter(init), After(ring, setstate, fixup, st, init);
    if active == Some(o.obj.ctx) || !o.switchFits then st
    else Run(st, R.SwitchCmds(ring, setstate, o.obj.ctx, R.NewTable(active, o.obj.ctx), o.ts, fixup))
  }

  /** The table that the last effective switch of some orders set: one that fits and comes from another table. */
  function LastSet(os: seq<Order>, was: Option<seq<nat>>): Option<seq<nat>> {
    if os == [] then was
    else
      var init, o := os[..|os| - 1], os[|os| - 1];
      var active := ActiveAfter(init);
      if o.switchFits && (active.None? || active.value.ttbr0 != o.obj.ctx.ttbr0)
      then Some(WordsOf(o.obj.ctx))
      else LastSet(init, was)
  }

  /** Before the draw of the last order the CP is on the table of the last effective switch. */
  lemma {:induction false} TableIsLastSet(ring: RingAddresses, setstate: nat, fixup: IbRef, st: State, os: seq<Order>)
    ensures TableOf(After(ring, setstate, fixup, st, os).events) == LastSet(os, TableOf(st.events))
    ensures os != [] ==> TableOf(Switched(ring, setstate, fixup, st, os).events) == LastSet(os, TableOf(st.events))
  {
    if os != [] {
      var init, o := os[..|os| - 1], os[|os| - 1];
      TableIsLastSet(ring, setstate, fixup, st, init);
      hide Run, R.SwitchCmds, R.NewTable, AddCmds, SubmitCmd, TableOf;
      SwitchDecidesTable(ring, setstate, ActiveAfter(init), o.obj.ctx, o.ts, fixup, After(ring, setstate, fixup, st, init));
      DrawKeepsTable(o.s, o.obj, Switched(ring, setstate, fixup, st, os));
    }
  }

  /** No switch that was needed has been turned away. */
  predicate NoneDropped(os: seq<Order>) {
    forall k | 0 <= k < |os| :: os[k].switchFits
  }

  lemma {:induction false} LastSetIsOwn(os: seq<Order>, was: Option<seq<nat>>)
    requires os != [] && NoneDropped(os)
    ensures LastSet(os, was) == Some(WordsOf(os[|os| - 1].obj.ctx))
  {
    if |os| > 1 { LastSetIsOwn(os[..|os| - 1], was); }
  }

  /** As long as no switch is turned away every draw object runs on the table of its own context. */
  lemma DrawsRunOnTheirTable(ring: RingAddresses, setstate: nat, fixup: IbRef, st: State, os: seq<Order>)
    requires os != [] && NoneDropped(os)
    ensures TableOf(Switched(ring, setstate, fixup, st, os).events) == Some(WordsOf(os[|os| - 1].obj.ctx))
  {
    hide Switched, After;
    TableIsLastSet(ring, setstate, fixup, st, os);
    LastSetIsOwn(os, TableOf(st.events));
  }

  /**
   A switch that is turned away misleads its draw exactly if the ring was on
   another table; the driver notes the new context all the same.
   */
  lemma DroppedSwitchMisleads(ring: RingAddresses, setstate: nat, fixup: IbRef, st: State, os: seq<Order>)
    requires |os| > 1 && NoneDropped(os[..|os| - 1]) && !os[|os| - 1].switchFits
    ensures TableOf(Switched(ring, setstate, fixup, st, os).events) == Some(WordsOf(os[|os| - 1].obj.ctx))
       <==> os[|os| - 2].obj.ctx.ttbr0 == os[|os| - 1].obj.ctx.ttbr0
    ensures ActiveAfter(os) == Some(os[|os| - 1].obj.ctx)
  {
    hide Switched, After;
    TableIsLastSet(ring, setstate, fixup, st, os);
    LastSetIsOwn(os[..|os| - 1], TableOf(st.events));
  }
}
