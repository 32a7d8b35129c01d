/** What the command processor does with the streams of A3xxStream, and how long they are. */
module A3xxMeaning {
  import opened Wrappers
  import opened Pm4
  import opened CommandProcessor
  import opened Submissions
  import opened StreamBounds
  import opened StreamMeaning
  import opened A3xxStream

  // ------------------------------------------ appending a single packet

  /** A packet whose effect is one event, or none. */
  lemma ExecIndirect(st: State, ib: IbRef)
    ensures Exec(st, Indirect(ib)) == Note(st, RunIb(Lo(ib.addr), ib.dwords, st.secure, st.guarded))
  {}

  lemma ExecMemWrite(st: State, addr: nat, v: nat)
    ensures Exec(st, MemWrite(addr, v)) == Note(st, Store(Lo(addr), [v], st.apriv))
  {
    assert Values(MemWrite(addr, v).payload)[1..] == [v];
  }

  lemma ExecEventWrite(st: State, addr: nat, v: nat, irq: bool)
    ensures Exec(st, EventWrite(addr, v, irq)) == Note(st, Stamp(Lo(addr), v, irq))
  {}

  lemma ExecProtectedMode(st: State, on: nat)
    ensures Exec(st, ProtectedMode(on)) == st.(guarded := on != 0)
  {}

  /** The events of the packets that wait or tune. */
  const IdleWait := Control(CP_WAIT_FOR_IDLE, [0])
  const MeWait := Control(CP_WAIT_FOR_ME, [0])
  const FlushEvent := Control(CP_EVENT_WRITE, [7])
  const RolloverEvent := Control(CP_SET_CONSTANT, [0x4_0215, 0])
  const InvalidateEvent := Control(CP_INVALIDATE_STATE, [0x7FFFF])

  lemma ControlEvents()
    ensures IsControl(WaitForIdle()) && ControlEvent(WaitForIdle()) == IdleWait
    ensures IsControl(WaitForMe()) && ControlEvent(WaitForMe()) == MeWait
    ensures IsControl(Rollover()) && ControlEvent(Rollover()) == RolloverEvent
    ensures IsControl(InvalidateState()) && ControlEvent(InvalidateState()) == InvalidateEvent
  {
    assert Values([Data(0)]) == [0] && Values([Data(0x7FFFF)]) == [0x7FFFF];
    assert Values(Rollover().payload) == [0x4_0215, 0];
  }

  lemma ExecHlsqFlush(st: State)
    ensures Exec(st, HlsqFlush()) == Note(st, FlushEvent)
  {
    assert Values(HlsqFlush().payload) == [7];
  }

  lemma ExecWaitReg(st: State, reg: nat, value: nat, mask: nat)
    ensures Exec(st, WaitReg(reg, value, mask)) == Note(st, WaitRegister(reg, value, mask))
  {}

  lemma ExecModifyReg(st: State, reg: nat, mask: nat, bits: nat)
    ensures Exec(st, ModifyReg(reg, mask, bits)) == Note(st, ModifyRegister(reg, mask, bits))
  {}

  lemma ExecSmmuReg(st: State, reg: nat, v: nat)
    ensures Exec(st, SmmuReg(reg, v)) == Note(st, WriteRegisters(reg, [v]))
  {
    assert Values(SmmuReg(reg, v).payload)[1..] == [v];
  }

  lemma ExecSmmuRegPair(st: State, reg: nat, v: nat, w: nat)
    ensures Exec(st, SmmuRegPair(reg, v, w)) == Note(st, WriteRegisters(reg, [v, w]))
  {
    assert Values(SmmuRegPair(reg, v, w).payload)[1..] == [v, w];
  }

  lemma ExecInvalidateUche(st: State)
    ensures Exec(st, InvalidateUche()) == Note(st, WriteRegisters(A3XX_UCHE_CACHE_INVALIDATE0_REG, [0, 0x9000_0000]))
  {
    assert Values(InvalidateUche().payload) == [0, 0x9000_0000];
  }

  // ---------------------------------------------------- the page table

  /** What a page table switch does: TTBR0 changes only while the bus is halted, then the TLB is flushed and awaited. */
  function TableTrace(setstate: nat, ttbr0: nat, st: State): seq<Event> {
    [MeWait, RunIb(Lo(setstate), 2, st.secure, st.guarded), IdleWait, MeWait,
     WaitRegister(A3XX_CP_WFI_PEND_CTR, 1, ALL_BITS),
     ModifyRegister(A3XX_VBIF_HALT_CTRL0, ALL_BITS - 1, 1),
     WaitRegister(A3XX_VBIF_HALT_CTRL1, 1, ALL_BITS)]
    + [WriteRegisters(SMMU_TTBR0, [Lo(ttbr0), Hi(ttbr0)])]
    + [ModifyRegister(A3XX_VBIF_HALT_CTRL0, ALL_BITS - 1, 0), MeWait]
    + [WriteRegisters(SMMU_TLBIALL, [1]), WriteRegisters(SMMU_TLBSYNC, [0]), WaitRegister(SMMU_TLBSTATUS, 0, 1)]
    + [MeWait, IdleWait, InvalidateEvent]
  }

  lemma LockMeaning(setstate: nat, st: State)
    ensures Run(st, VbifLock(Stall(setstate, []))) == Extend(st,
      [MeWait, RunIb(Lo(setstate), 2, st.secure, st.guarded), IdleWait, MeWait,
       WaitRegister(A3XX_CP_WFI_PEND_CTR, 1, ALL_BITS),
       ModifyRegister(A3XX_VBIF_HALT_CTRL0, ALL_BITS - 1, 1),
       WaitRegister(A3XX_VBIF_HALT_CTRL1, 1, ALL_BITS)])
  {
    assert Run(st, []) == st;
    ControlEvents();
    hide Exec, Run, Lo, WaitReg, ModifyReg, IsControl, ControlEvent;
    var ib := IbRef(setstate, 2);
    var ps1 := [] + [WaitForMe()];
    RunControl(st, [], WaitForMe());
    var ps2 := ps1 + [Indirect(ib)];
    RunSnoc(st, ps1, Indirect(ib)); ExecIndirect(Run(st, ps1), ib);
    var ps3 := ps2 + [WaitForIdle()];
    RunControl(st, ps2, WaitForIdle());
    var ps4 := ps3 + [WaitForMe()];
    RunControl(st, ps3, WaitForMe());
    var ps5 := ps4 + [WaitReg(A3XX_CP_WFI_PEND_CTR, 1, ALL_BITS)];
    RunSnoc(st, ps4, WaitReg(A3XX_CP_WFI_PEND_CTR, 1, ALL_BITS));
    ExecWaitReg(Run(st, ps4), A3XX_CP_WFI_PEND_CTR, 1, ALL_BITS);
    var ps6 := ps5 + [ModifyReg(A3XX_VBIF_HALT_CTRL0, ALL_BITS - 1, 1)];
    RunSnoc(st, ps5, ModifyReg(A3XX_VBIF_HALT_CTRL0, ALL_BITS - 1, 1));
    ExecModifyReg(Run(st, ps5), A3XX_VBIF_HALT_CTRL0, ALL_BITS - 1, 1);
    RunSnoc(st, ps6, WaitReg(A3XX_VBIF_HALT_CTRL1, 1, ALL_BITS));
    ExecWaitReg(Run(st, ps6), A3XX_VBIF_HALT_CTRL1, 1, ALL_BITS);
  }

  lemma UnlockMeaning(ps: seq<Packet>, st: State)
    ensures Run(st, TlbiAll(VbifUnlock(ps))) == Extend(Run(st, ps),
      [ModifyRegister(A3XX_VBIF_HALT_CTRL0, ALL_BITS - 1, 0), MeWait]
      + [WriteRegisters(SMMU_TLBIALL, [1]), WriteRegisters(SMMU_TLBSYNC, [0]), WaitRegister(SMMU_TLBSTATUS, 0, 1)])
  {
    ControlEvents();
    hide Exec, Run, WaitReg, ModifyReg, SmmuReg, IsControl, ControlEvent;
    var ps1 := ps + [ModifyReg(A3XX_VBIF_HALT_CTRL0, ALL_BITS - 1, 0)];
    RunSnoc(st, ps, ModifyReg(A3XX_VBIF_HALT_CTRL0, ALL_BITS - 1, 0));
    ExecModifyReg(Run(st, ps), A3XX_VBIF_HALT_CTRL0, ALL_BITS - 1, 0);
    var ps2 := ps1 + [WaitForMe()];
    RunControl(st, ps1, WaitForMe());
    var ps3 := ps2 + [SmmuReg(SMMU_TLBIALL, 1)];
    RunSnoc(st, ps2, SmmuReg(SMMU_TLBIALL, 1));
    ExecSmmuReg(Run(st, ps2), SMMU_TLBIALL, 1);
    var ps4 := ps3 + [SmmuReg(SMMU_TLBSYNC, 0)];
    RunSnoc(st, ps3, SmmuReg(SMMU_TLBSYNC, 0));
    ExecSmmuReg(Run(st, ps3), SMMU_TLBSYNC, 0);
    RunSnoc(st, ps4, WaitReg(SMMU_TLBSTATUS, 0, 1));
    ExecWaitReg(Run(st, ps4), SMMU_TLBSTATUS, 0, 1);
  }

  lemma PagetableSwitchMeaning(setstate: nat, ttbr0: nat, st: State)
    ensures Run(st, PagetableSwitch(setstate, ttbr0)) == Extend(st, TableTrace(setstate, ttbr0, st))
  {
    LockMeaning(setstate, st);
    ControlEvents();
    hide Exec, Run, IsControl, ControlEvent, Lo, Hi, VbifLock, Stall, TlbiAll, VbifUnlock;
    var ps1 := VbifLock(Stall(setstate, []));
    var p := SmmuRegPair(SMMU_TTBR0, Lo(ttbr0), Hi(ttbr0));
    RunSnoc(st, ps1, p);
    ExecSmmuRegPair(Run(st, ps1), SMMU_TTBR0, Lo(ttbr0), Hi(ttbr0));
    var ps2 := TlbiAll(VbifUnlock(ps1 + [p]));
    UnlockMeaning(ps1 + [p], st);
    RunControl(st, ps2, WaitForMe());
    RunControl(st, ps2 + [WaitForMe()], WaitForIdle());
    RunControl(st, ps2 + [WaitForMe()] + [WaitForIdle()], InvalidateState());
  }

  function SwitchTrace(ring: RingAddresses, setstate: nat, ctx: Context, newTable: bool, st: State): seq<Event> {
    (if newTable then TableTrace(setstate, ctx.ttbr0, st) else [])
    + [Store(Lo(ring.currentContext), [ctx.id], st.apriv),
       Store(Lo(ring.globalCurrentContext), [ctx.id], st.apriv),
       WriteRegisters(A3XX_UCHE_CACHE_INVALIDATE0_REG, [0, 0x9000_0000])]
  }

  lemma AnnounceMeaning(ring: RingAddresses, ctx: Context, ps: seq<Packet>, st: State)
    ensures Run(st, Announce(ring, ctx, ps))
         == Extend(Run(st, ps), SwitchTrace(ring, 0, ctx, false, Run(st, ps)))
  {
    hide Exec, Run, Lo, InvalidateUche;
    var ps1 := ps + [Nop(CONTEXT_TO_MEM_IDENTIFIER)];
    RunSilent(st, ps, Nop(CONTEXT_TO_MEM_IDENTIFIER));
    var ps2 := ps1 + [MemWrite(ring.currentContext, ctx.id)];
    RunSnoc(st, ps1, MemWrite(ring.currentContext, ctx.id));
    ExecMemWrite(Run(st, ps1), ring.currentContext, ctx.id);
    var ps3 := ps2 + [MemWrite(ring.globalCurrentContext, ctx.id)];
    RunSnoc(st, ps2, MemWrite(ring.globalCurrentContext, ctx.id));
    ExecMemWrite(Run(st, ps2), ring.globalCurrentContext, ctx.id);
    RunSnoc(st, ps3, InvalidateUche());
    ExecInvalidateUche(Run(st, ps3));
  }

  lemma ContextSwitchMeaning(ring: RingAddresses, setstate: nat, ctx: Context, newTable: bool, st: State)
    ensures Run(st, ContextSwitch(ring, setstate, ctx, newTable))
         == Extend(st, SwitchTrace(ring, setstate, ctx, newTable, st))
  {
    assert Run(st, []) == st;
    hide Exec, Run, PagetableSwitch, Announce, TableTrace;
    if newTable {
      PagetableSwitchMeaning(setstate, ctx.ttbr0, st);
      AnnounceMeaning(ring, ctx, PagetableSwitch(setstate, ctx.ttbr0), st);
    } else {
      AnnounceMeaning(ring, ctx, [], st);
    }
  }

  // ------------------------------------------------------- draw objects

  function IbEvents(st: State, ibs: seq<Ib>): seq<Event> {
    EventsOf(st, ibs, OwnEvent)
  }

  function OwnEvent(st: State, ib: Ib): Event {
    RunIb(Lo(ib.gpuaddr), IbRefOf(ib).dwords, st.secure, st.guarded)
  }

  lemma SkippedIsSilent(st: State, ib: Ib)
    ensures Exec(st, SkippedIb(ib)) == st
  {
    ExecSilent(st, SkippedIb(ib));
  }

  lemma OneIbMeans()
    ensures IbMeans(IbPacket, OwnEvent)
  {
    hide Exec, SkippedIb, Indirect, Lo;
    forall st: State, ib: Ib ensures Exec(st, IbPacket(ib, true)) == st {
      SkippedIsSilent(st, ib);
    }
    forall st: State, ib: Ib
      ensures Exec(st, IbPacket(ib, false)) == st.(events := st.events + [OwnEvent(st, ib)])
    {
      ExecIndirect(st, IbRefOf(ib));
    }
  }

  /** A draw runs exactly the IBs that are not to be skipped, in list order. */
  lemma SubmitCmdMeaning(obj: DrawObj, flags: Flags, st: State)
    ensures Run(st, SubmitCmd(obj, flags))
         == Extend(st, IbEvents(st, if flags.skip then [] else Kept(flags, obj.ibs)))
  {
    var ibs := if flags.skip then [] else obj.ibs;
    RunFirst(st, Nop(START_IB_IDENTIFIER));
    OneIbMeans();
    IbListMeaning(flags, ibs, [Nop(START_IB_IDENTIFIER)], st, IbPacket, OwnEvent);
    RunSilent(st, IbPackets(flags, ibs, [Nop(START_IB_IDENTIFIER)]), Nop(END_IB_IDENTIFIER));
  }

  /** The IBs that run are those at these positions, each with the low half of its address and its length in dwords. */
  function IbsAt(ibs: seq<Ib>, runs: seq<nat>, secure: bool, guarded: bool): seq<Event>
    requires InListOrder(runs, |ibs|)
  {
    seq(|runs|, j requires 0 <= j < |runs| =>
      RunIb(ibs[runs[j]].gpuaddr % 0x1_0000_0000, ibs[runs[j]].size / 4 % 0x1_0000_0000, secure, guarded))
  }

  /** Told by the marks of the IBs alone, what a draw payload runs: nothing else, and in list order. */
  lemma DrawRunsByMarks(obj: DrawObj, flags: Flags, st: State) returns (runs: seq<nat>)
    ensures InListOrder(runs, |obj.ibs|)
    ensures flags.skip ==> runs == []
    ensures !flags.skip ==> RunByMarks(flags, obj.ibs, runs)
    ensures Run(st, SubmitCmd(obj, flags)) == Extend(st, IbsAt(obj.ibs, runs, st.secure, st.guarded))
  {
    SubmitCmdMeaning(obj, flags, st);
    if flags.skip {
      runs := [];
      assert IbEvents(st, []) == IbsAt(obj.ibs, runs, st.secure, st.guarded);
    } else {
      runs := KeptExactly(flags, obj.ibs);
      KeptAreAt(flags, obj.ibs, runs, st);
    }
  }

  lemma KeptAreAt(flags: Flags, ibs: seq<Ib>, runs: seq<nat>, st: State)
    requires InListOrder(runs, |ibs|) && PicksOut(ibs, runs, Kept(flags, ibs))
    ensures IbEvents(st, Kept(flags, ibs)) == IbsAt(ibs, runs, st.secure, st.guarded)
  {
    hide Kept, Skipped;
    forall j | 0 <= j < |runs|
      ensures OwnEvent(st, Kept(flags, ibs)[j])
        == RunIb(ibs[runs[j]].gpuaddr % 0x1_0000_0000, ibs[runs[j]].size / 4 % 0x1_0000_0000, st.secure, st.guarded)
    {}
  }

  // ---------------------------------------------------------- the frame

  /** Protection in force while the payload runs. */
  function PayloadGuarded(s: Submission, st: State): bool {
    st.guarded && !s.flags.pwronFixup && !s.flags.notProtected
  }

  /** Protection in force afterwards. */
  function FinallyGuarded(s: Submission, st: State): bool {
    s.flags.notProtected || (st.guarded && !s.flags.pwronFixup)
  }

  function OpeningTrace(s: Submission, st: State): seq<Event> {
    FixupTrace(s, st)
    + (if s.pre.Some?
       then [RunIb(Lo(s.pre.value.addr), s.pre.value.dwords, st.secure, st.guarded && !s.flags.pwronFixup)] else [])
    + (if s.ctx.Some? then [Store(Lo(s.ctx.value.sopAddr), [s.timestamp], st.apriv)] else [])
    + [Store(Lo(s.ring.sop), [s.rbTimestamp], st.apriv)]
  }

  function ClosingTrace(s: Submission, st: State): seq<Event> {
    [FlushEvent, IdleWait]
    + (if s.post.Some?
     then [RunIb(Lo(s.post.value.addr), s.post.value.dwords, st.secure, FinallyGuarded(s, st))] else [])
    + RetireTrace(s)
  }

  function RetireTrace(s: Submission): seq<Event> {
    (if s.ctx.Some? then [Stamp(Lo(s.ctx.value.eopAddr), s.timestamp, true)] else [])
    + [Stamp(Lo(s.ring.eop), s.rbTimestamp, s.ctx.None?), RolloverEvent]
    + Maybe(s.flags.wfi, IdleWait)
  }

  function FixupTrace(s: Submission, st: State): seq<Event> {
    if s.flags.pwronFixup then [RunIb(Lo(s.fixup.addr), s.fixup.dwords, st.secure, false)] else []
  }

  lemma FixupMeaning(s: Submission, ps: seq<Packet>, st: State)
    ensures var st1 := Run(st, ps);
      Run(st, if s.flags.pwronFixup then PowerOnFixup(s, ps) else ps)
        == Extend(st1.(guarded := st1.guarded && !s.flags.pwronFixup), FixupTrace(s, st1))
  {
    hide Exec, Run, Lo;
    if s.flags.pwronFixup {
      var ps1 := ps + [ProtectedMode(0)];
      RunSnoc(st, ps, ProtectedMode(0)); ExecProtectedMode(Run(st, ps), 0);
      var ps2 := ps1 + [Nop(PWRON_FIXUP_IDENTIFIER)];
      RunSilent(st, ps1, Nop(PWRON_FIXUP_IDENTIFIER));
      var ps3 := ps2 + [Indirect(s.fixup)];
      RunSnoc(st, ps2, Indirect(s.fixup)); ExecIndirect(Run(st, ps2), s.fixup);
      RunSnoc(st, ps3, ProtectedMode(0)); ExecProtectedMode(Run(st, ps3), 0);
    }
  }

  lemma MaybeIndirect(st: State, ps: seq<Packet>, ib: Option<IbRef>)
    ensures var st1 := Run(st, ps);
      Run(st, if ib.Some? then ps + [Indirect(ib.value)] else ps)
        == Extend(st1, if ib.Some? then [RunIb(Lo(ib.value.addr), ib.value.dwords, st1.secure, st1.guarded)] else [])
  {
    hide Exec, Run, Lo;
    if ib.Some? {
      RunSnoc(st, ps, Indirect(ib.value));
      ExecIndirect(Run(st, ps), ib.value);
    }
  }

  lemma MaybeSop(st: State, ps: seq<Packet>, s: Submission)
    ensures var st1 := Run(st, ps);
      Run(st, if s.ctx.Some? then ps + [MemWrite(s.ctx.value.sopAddr, s.timestamp)] else ps)
        == Extend(st1, if s.ctx.Some? then [Store(Lo(s.ctx.value.sopAddr), [s.timestamp], st1.apriv)] else [])
  {
    hide Exec, Run, Lo;
    if s.ctx.Some? {
      RunSnoc(st, ps, MemWrite(s.ctx.value.sopAddr, s.timestamp));
      ExecMemWrite(Run(st, ps), s.ctx.value.sopAddr, s.timestamp);
    }
  }

  lemma MaybeEop(st: State, ps: seq<Packet>, s: Submission)
    ensures Run(st, if s.ctx.Some? then ps + [EventWrite(s.ctx.value.eopAddr, s.timestamp, true)] else ps)
         == Extend(Run(st, ps), if s.ctx.Some? then [Stamp(Lo(s.ctx.value.eopAddr), s.timestamp, true)] else [])
  {
    hide Exec, Run, Lo;
    if s.ctx.Some? {
      RunSnoc(st, ps, EventWrite(s.ctx.value.eopAddr, s.timestamp, true));
      ExecEventWrite(Run(st, ps), s.ctx.value.eopAddr, s.timestamp, true);
    }
  }

  lemma MaybeProtected(st: State, ps: seq<Packet>, c: bool, on: nat)
    ensures Run(st, if c then ps + [ProtectedMode(on)] else ps)
         == Run(st, ps).(guarded := if c then on != 0 else Run(st, ps).guarded)
  {
    if c {
      RunSnoc(st, ps, ProtectedMode(on));
      ExecProtectedMode(Run(st, ps), on);
    }
  }

  lemma PrologueMeaning(s: Submission, st: State)
    ensures Run(st, Prologue(s)) == Extend(st.(guarded := PayloadGuarded(s, st)), OpeningTrace(s, st))
  {
    hide Exec, Run, Lo, PowerOnFixup, FixupTrace;
    var id := Nop(if s.ctx.Some? then CMD_IDENTIFIER else CMD_INTERNAL_IDENTIFIER);
    RunFirst(st, id);
    var ps1 := if s.flags.pwronFixup then PowerOnFixup(s, [id]) else [id];
    FixupMeaning(s, [id], st);
    var ps2 := if s.pre.Some? then ps1 + [Indirect(s.pre.value)] else ps1;
    MaybeIndirect(st, ps1, s.pre);
    var ps3 := if s.ctx.Some? then ps2 + [MemWrite(s.ctx.value.sopAddr, s.timestamp)] else ps2;
    MaybeSop(st, ps2, s);
    var ps4 := ps3 + [MemWrite(s.ring.sop, s.rbTimestamp)];
    RunSnoc(st, ps3, MemWrite(s.ring.sop, s.rbTimestamp));
    ExecMemWrite(Run(st, ps3), s.ring.sop, s.rbTimestamp);
    MaybeProtected(st, ps4, s.flags.notProtected, 0);
    OpeningTraceParts(s, st);
  }

  lemma OpeningTraceParts(s: Submission, st: State)
    ensures var g := st.(guarded := st.guarded && !s.flags.pwronFixup);
      Extend(g, OpeningTrace(s, st)) ==
      Extend(Extend(Extend(Extend(g, FixupTrace(s, st)),
        if s.pre.Some? then [RunIb(Lo(s.pre.value.addr), s.pre.value.dwords, st.secure, g.guarded)] else []),
        if s.ctx.Some? then [Store(Lo(s.ctx.value.sopAddr), [s.timestamp], st.apriv)] else []),
        [Store(Lo(s.ring.sop), [s.rbTimestamp], st.apriv)])
  {
    hide Lo, FixupTrace;
    var g := st.(guarded := st.guarded && !s.flags.pwronFixup);
    var a := FixupTrace(s, st);
    var b := if s.pre.Some? then [RunIb(Lo(s.pre.value.addr), s.pre.value.dwords, st.secure, g.guarded)] else [];
    var c := if s.ctx.Some? then [Store(Lo(s.ctx.value.sopAddr), [s.timestamp], st.apriv)] else [];
    ExtendTwice(g, a, b);
    ExtendTwice(g, a + b, c);
    ExtendTwice(g, a + b + c, [Store(Lo(s.ring.sop), [s.rbTimestamp], st.apriv)]);
  }

  lemma ClosingMeaning(s: Submission, ps: seq<Packet>, st: State, rest: State)
    requires Run(st, ps).guarded == PayloadGuarded(s, rest) && Run(st, ps).secure == rest.secure
    ensures Run(st, Retire(s, Settle(s, ps)))
         == Extend(Run(st, ps).(guarded := FinallyGuarded(s, rest)), ClosingTrace(s, rest))
  {
    ControlEvents();
    hide Exec, Run, Lo, Rollover, HlsqFlush, IsControl, ControlEvent;
    var st1 := Run(st, ps).(guarded := FinallyGuarded(s, rest));
    var ps1 := if s.flags.notProtected then ps + [ProtectedMode(1)] else ps;
    MaybeProtected(st, ps, s.flags.notProtected, 1);
    var ps2 := ps1 + [HlsqFlush()];
    RunSnoc(st, ps1, HlsqFlush()); ExecHlsqFlush(st1);
    var ps3 := ps2 + [WaitForIdle()];
    RunControl(st, ps2, WaitForIdle());
    var f := [FlushEvent, IdleWait];
    assert Run(st, ps3) == Extend(st1, f);
    RetireMeaning(s, if s.post.Some? then ps3 + [Indirect(s.post.value)] else ps3, st);
    MaybeIndirect(st, ps3, s.post);
    var a := if s.post.Some?
             then [RunIb(Lo(s.post.value.addr), s.post.value.dwords, rest.secure, FinallyGuarded(s, rest))] else [];
    ExtendTwice(st1, f, a);
    ExtendTwice(st1, f + a, RetireTrace(s));
    assert f + a + RetireTrace(s) == ClosingTrace(s, rest);
  }

  lemma RetireMeaning(s: Submission, ps: seq<Packet>, st: State)
    ensures Run(st, Retire(s, ps)) == Extend(Run(st, ps), RetireTrace(s))
  {
    ControlEvents();
    hide Exec, Run, Lo, Rollover, IsControl, ControlEvent;
    var ps1 := if s.ctx.Some? then ps + [EventWrite(s.ctx.value.eopAddr, s.timestamp, true)] else ps;
    MaybeEop(st, ps, s);
    var ps2 := ps1 + [EventWrite(s.ring.eop, s.rbTimestamp, s.ctx.None?)];
    RunSnoc(st, ps1, EventWrite(s.ring.eop, s.rbTimestamp, s.ctx.None?));
    ExecEventWrite(Run(st, ps1), s.ring.eop, s.rbTimestamp, s.ctx.None?);
    var ps3 := ps2 + [Rollover()];
    RunControl(st, ps2, Rollover());
    MaybeControl(st, ps3, s.flags.wfi, WaitForIdle());
    var st1 := Run(st, ps);
    var a := if s.ctx.Some? then [Stamp(Lo(s.ctx.value.eopAddr), s.timestamp, true)] else [];
    var b := [Stamp(Lo(s.ring.eop), s.rbTimestamp, s.ctx.None?), RolloverEvent];
    assert b == [b[0]] + [b[1]];
    ExtendTwice(Extend(st1, a), [b[0]], [b[1]]);
    ExtendTwice(st1, a, b);
    ExtendTwice(st1, a + b, Maybe(s.flags.wfi, IdleWait));
  }

  /**
   A submission whose payload leaves the modes alone: what it does, in order,
   and how it leaves protection behind. Secure mode is never touched.
   */
  lemma SubmissionMeaning(s: Submission, payload: seq<Packet>, trace: seq<Event>, st: State)
    requires var st1 := Extend(st.(guarded := PayloadGuarded(s, st)), OpeningTrace(s, st));
      Run(st1, payload) == Extend(st1, trace)
    ensures Run(st, AddCmds(s, payload))
         == Extend(st.(guarded := FinallyGuarded(s, st)), OpeningTrace(s, st) + trace + ClosingTrace(s, st))
  {
    PrologueMeaning(s, st);
    RunConcat(st, Prologue(s), payload);
    hide Run, Prologue, OpeningTrace, ClosingTrace, PayloadGuarded, FinallyGuarded, Retire, Settle;
    ClosingMeaning(s, Prologue(s) + payload, st, st);
    var st0 := st.(guarded := PayloadGuarded(s, st));
    ExtendTwice(st0, OpeningTrace(s, st), trace);
    ExtendTwice(st.(guarded := FinallyGuarded(s, st)), OpeningTrace(s, st) + trace, ClosingTrace(s, st));
  }

  /** The submission of a draw object. */
  lemma DrawSubmissionMeaning(s: Submission, obj: DrawObj, st: State)
    ensures var guarded := PayloadGuarded(s, st);
      Run(st, AddCmds(s, SubmitCmd(obj, s.flags)))
        == Extend(st.(guarded := FinallyGuarded(s, st)),
             OpeningTrace(s, st)
             + IbEvents(st.(guarded := guarded), if s.flags.skip then [] else Kept(s.flags, obj.ibs))
             + ClosingTrace(s, st))
  {
    var st1 := Extend(st.(guarded := PayloadGuarded(s, st)), OpeningTrace(s, st));
    SubmitCmdMeaning(obj, s.flags, st1);
    var ibs := if s.flags.skip then [] else Kept(s.flags, obj.ibs);
    assert forall k | 0 <= k < |ibs| ::
      OwnEvent(st1, ibs[k]) == OwnEvent(st.(guarded := PayloadGuarded(s, st)), ibs[k]);
    assert IbEvents(st1, ibs) == IbEvents(st.(guarded := PayloadGuarded(s, st)), ibs);
    hide Run, AddCmds, SubmitCmd, OpeningTrace, ClosingTrace, IbEvents;
    SubmissionMeaning(s, SubmitCmd(obj, s.flags), IbEvents(st1, ibs), st);
  }

  /**
   Protected mode comes back on after every submission except one with the
   power-on fixup and without NOTPROTECTED; that one also runs its IBs without
   protection, and so do all submissions after it until one is NOTPROTECTED.
   */
  lemma FixupLeavesProtectionOff(s: Submission, obj: DrawObj, st: State)
    requires st.guarded
    ensures Run(st, AddCmds(s, SubmitCmd(obj, s.flags))).guarded <==> !s.flags.pwronFixup || s.flags.notProtected
  {
    DrawSubmissionMeaning(s, obj, st);
  }

  lemma ProtectionStaysOff(s: Submission, obj: DrawObj, st: State)
    requires !st.guarded
    ensures Run(st, AddCmds(s, SubmitCmd(obj, s.flags))).guarded <==> s.flags.notProtected
  {
    DrawSubmissionMeaning(s, obj, st);
  }
}
