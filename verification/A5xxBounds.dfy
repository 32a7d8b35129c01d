/** Every stream of A5xxStream is well framed and fits the space reserved for it. */
module A5xxBounds {
  import opened Wrappers
  import opened Pm4
  import opened CommandProcessor
  import opened Submissions
  import opened StreamBounds
  import opened A5xxStream

  predicate SubmissionOk(s: Submission) {
    && RingOk(s.ring) && (s.ctx.Some? ==> ContextOk(s.ctx.value))
    && U32(s.timestamp) && U32(s.rbTimestamp) && U32(s.sequence)
    && (s.pre.Some? ==> IbRefOk(s.pre.value)) && (s.post.Some? ==> IbRefOk(s.post.value))
  }

  // ------------------------------------------------------ single packets

  lemma OneDword(v: nat)
    requires U32(v)
    ensures Sound(Nop(v)) && Sound(Global(v)) && Sound(Local(v)) && Sound(YieldEnable(v))
    ensures Sound(ProtectedMode(v)) && Sound(SecureMode(v))
    ensures |Nop(v).payload| == |Global(v).payload| == |Local(v).payload| == |YieldEnable(v).payload| == 1
    ensures |ProtectedMode(v).payload| == |SecureMode(v).payload| == 1
  {}

  lemma RegIsSound(reg: nat, v: nat)
    requires reg < 0x4_0000 && U32(v)
    ensures Sound(Reg(reg, v))
  {}

  lemma IndirectIsSound(ib: IbRef)
    requires IbRefOk(ib)
    ensures Sound(Indirect(ib)) && |Indirect(ib).payload| == 3 && AllOk(Words(Indirect(ib)))
  {
    HalvesAreDwords(ib.addr);
  }

  lemma MemWriteIsSound(addr: nat, v: nat)
    requires U64(addr) && U32(v)
    ensures Sound(MemWrite(addr, v)) && |MemWrite(addr, v).payload| == 3
  {
    HalvesAreDwords(addr);
  }

  lemma EventWriteIsSound(addr: nat, v: nat, irq: bool)
    requires U64(addr) && U32(v)
    ensures Sound(EventWrite(addr, v, irq)) && |EventWrite(addr, v, irq).payload| == 4
  {
    HalvesAreDwords(addr);
  }

  lemma ReadCounterIsSound(t: Target, addr: nat)
    requires U64(addr)
    ensures Sound(ReadCounter(t, addr)) && |ReadCounter(t, addr).payload| + 1 == PROFILE_IB_DWORDS
  {
    HalvesAreDwords(addr);
  }

  lemma TableIsSound(addr: nat, ttbr0: nat, id: nat)
    requires U64(addr) && U64(ttbr0) && U32(id)
    ensures Sound(TableUpdate(ttbr0, id)) && Sound(ScratchTable(addr, ttbr0, id))
  {
    HalvesAreDwords(addr);
    HalvesAreDwords(ttbr0);
  }

  lemma SkippedIbIsSound(ib: Ib)
    requires U64(ib.gpuaddr)
    ensures Sound(SkippedIb(ib))
  {
    IndirectIsSound(IbRefOf(ib));
  }

  // ------------------------------------------------------------ streams

  /** 14 dwords, or none without preemption. */
  lemma PreIbBound(t: Target, s: Submission, ps: seq<Packet>)
    requires SubmissionOk(s)
    ensures Grows(ps, PreIbSubmit(t, s, ps), 14)
    ensures t.preemption ==> Size(PreIbSubmit(t, s, ps)) == Size(ps) + 14
  {
    hide Sound, Grows, Size, Flatten;
    if t.preemption {
      var g, l := if Finegrain(s.ctx) then 2 else 0, if Finegrain(s.ctx) then 1 else 0;
      var ps1 := ps + [Global(g)];
      var ps2 := ps1 + [ProtectedMode(0)];
      var ps3 := ps2 + [Reg(A5XX_CP_CONTEXT_SWITCH_SAVE_ADDR_LO, Lo(s.ring.desc))];
      var ps4 := ps3 + [Reg(A5XX_CP_CONTEXT_SWITCH_SAVE_ADDR_HI, Hi(s.ring.desc))];
      var ps5 := ps4 + [ProtectedMode(1)];
      var ps6 := ps5 + [Local(l)];
      HalvesAreDwords(s.ring.desc);
      OneDword(g); OneDword(l); OneDword(0); OneDword(1); OneDword(2);
      RegIsSound(A5XX_CP_CONTEXT_SWITCH_SAVE_ADDR_LO, Lo(s.ring.desc));
      RegIsSound(A5XX_CP_CONTEXT_SWITCH_SAVE_ADDR_HI, Hi(s.ring.desc));
      Snoc(ps, Global(g), 2);
      Snoc(ps1, ProtectedMode(0), 2); Chain(ps, ps1, ps2, 2, 2);
      Snoc(ps2, Reg(A5XX_CP_CONTEXT_SWITCH_SAVE_ADDR_LO, Lo(s.ring.desc)), 2); Chain(ps, ps2, ps3, 4, 2);
      Snoc(ps3, Reg(A5XX_CP_CONTEXT_SWITCH_SAVE_ADDR_HI, Hi(s.ring.desc)), 2); Chain(ps, ps3, ps4, 6, 2);
      Snoc(ps4, ProtectedMode(1), 2); Chain(ps, ps4, ps5, 8, 2);
      Snoc(ps5, Local(l), 2); Chain(ps, ps5, ps6, 10, 2);
      Snoc(ps6, YieldEnable(2), 2); Chain(ps, ps6, ps6 + [YieldEnable(2)], 12, 2);
    } else {
      Same(ps, 14);
    }
  }

  lemma MaybeIndirect(ps: seq<Packet>, ib: Option<IbRef>)
    requires ib.Some? ==> IbRefOk(ib.value)
    ensures Grows(ps, if ib.Some? then ps + [Indirect(ib.value)] else ps, 4)
  {
    if ib.Some? {
      IndirectIsSound(ib.value);
      Snoc(ps, Indirect(ib.value), 4);
    }
  }

  lemma MaybeSop(ps: seq<Packet>, s: Submission)
    requires SubmissionOk(s)
    ensures Grows(ps, if s.ctx.Some? then ps + [MemWrite(s.ctx.value.sopAddr, s.timestamp)] else ps, 4)
  {
    if s.ctx.Some? {
      MemWriteIsSound(s.ctx.value.sopAddr, s.timestamp);
      Snoc(ps, MemWrite(s.ctx.value.sopAddr, s.timestamp), 4);
    }
  }

  lemma MaybeEop(ps: seq<Packet>, s: Submission)
    requires SubmissionOk(s)
    ensures Grows(ps, if s.ctx.Some? then ps + [EventWrite(s.ctx.value.eopAddr, s.timestamp, true)] else ps, 5)
  {
    if s.ctx.Some? {
      EventWriteIsSound(s.ctx.value.eopAddr, s.timestamp, true);
      Snoc(ps, EventWrite(s.ctx.value.eopAddr, s.timestamp, true), 5);
    }
  }

  lemma PrologueBound(t: Target, s: Submission)
    requires SubmissionOk(s)
    ensures AllSound(Prologue(t, s)) && Size(Prologue(t, s)) <= 32
  {
    hide Sound, Grows, Size, Flatten, PreIbSubmit;
    var id := Nop(if s.ctx.Some? then CMD_IDENTIFIER else CMD_INTERNAL_IDENTIFIER);
    OneDword(CMD_IDENTIFIER); OneDword(CMD_INTERNAL_IDENTIFIER); OneDword(0); OneDword(1);
    assert [] + [id] == [id];
    Snoc([], id, 2);
    var ps1 := PreIbSubmit(t, s, [id]);
    PreIbBound(t, s, [id]); Chain([], [id], ps1, 2, 14);
    var ps2 := if s.pre.Some? then ps1 + [Indirect(s.pre.value)] else ps1;
    MaybeIndirect(ps1, s.pre);
    Chain([], ps1, ps2, 16, 4);
    var ps3 := if s.ctx.Some? then ps2 + [MemWrite(s.ctx.value.sopAddr, s.timestamp)] else ps2;
    MaybeSop(ps2, s);
    Chain([], ps2, ps3, 20, 4);
    var ps4 := ps3 + [MemWrite(s.ring.sop, s.rbTimestamp)];
    MemWriteIsSound(s.ring.sop, s.rbTimestamp);
    Snoc(ps3, MemWrite(s.ring.sop, s.rbTimestamp), 4); Chain([], ps3, ps4, 24, 4);
    var ps5 := if s.flags.secure then ps4 + [SecureMode(1)] else ps4;
    MaybeSnoc(s.flags.secure, ps4, SecureMode(1), 2); Chain([], ps4, ps5, 28, 2);
    var ps6 := if s.flags.notProtected then ps5 + [ProtectedMode(0)] else ps5;
    MaybeSnoc(s.flags.notProtected, ps5, ProtectedMode(0), 2); Chain([], ps5, ps6, 30, 2);
    FromNothing(ps6, 32);
  }

  lemma Addresses(s: Submission)
    requires SubmissionOk(s)
    ensures U64(s.ring.refWaitTs) && U64(s.ring.eop) && U32(s.sequence) && U32(s.rbTimestamp)
    ensures s.post.Some? ==> IbRefOk(s.post.value)
  {}

  lemma SettleBound(t: Target, s: Submission, ps: seq<Packet>)
    requires SubmissionOk(s)
    ensures Grows(ps, Settle(t, s, ps), 11)
  {
    hide Sound, Grows, Size, Flatten, SubmissionOk;
    Addresses(s);
    OneDword(1);
    var ps1 := if s.flags.notProtected then ps + [ProtectedMode(1)] else ps;
    MaybeSnoc(s.flags.notProtected, ps, ProtectedMode(1), 2);
    var ps2 := if s.post.Some? then ps1 + [Indirect(s.post.value)] else ps1;
    MaybeIndirect(ps1, s.post); Chain(ps, ps1, ps2, 2, 4);
    var ps3 := if t.waitMemWrites then ps2 + [WaitMemWrites()] else ps2;
    BareIsSound();
    MaybeSnoc(t.waitMemWrites, ps2, WaitMemWrites(), 1); Chain(ps, ps2, ps3, 6, 1);
    MemWriteIsSound(s.ring.refWaitTs, s.sequence);
    Snoc(ps3, MemWrite(s.ring.refWaitTs, s.sequence), 4);
    Chain(ps, ps3, ps3 + [MemWrite(s.ring.refWaitTs, s.sequence)], 7, 4);
  }

  lemma RetireBound(t: Target, s: Submission, ps: seq<Packet>)
    requires SubmissionOk(s)
    ensures Grows(ps, Retire(t, s, ps), 18)
  {
    hide Sound, Grows, Size, Flatten;
    OneDword(0);
    BareIsSound();
    var ps1 := if s.ctx.Some? then ps + [EventWrite(s.ctx.value.eopAddr, s.timestamp, true)] else ps;
    MaybeEop(ps, s);
    var ps2 := ps1 + [EventWrite(s.ring.eop, s.rbTimestamp, s.ctx.None?)];
    EventWriteIsSound(s.ring.eop, s.rbTimestamp, s.ctx.None?);
    Snoc(ps1, EventWrite(s.ring.eop, s.rbTimestamp, s.ctx.None?), 5); Chain(ps, ps1, ps2, 5, 5);
    var ps3 := if s.flags.wfi then ps2 + [WaitForIdle()] else ps2;
    MaybeSnoc(s.flags.wfi, ps2, WaitForIdle(), 1); Chain(ps, ps2, ps3, 10, 1);
    var ps4 := if s.flags.secure then ps3 + [SecureMode(0)] else ps3;
    MaybeSnoc(s.flags.secure, ps3, SecureMode(0), 2); Chain(ps, ps3, ps4, 11, 2);
    var ps5 := if t.preemption then ps4 + [ContextSwitchYield()] else ps4;
    MaybeSnoc(t.preemption, ps4, ContextSwitchYield(), 5); Chain(ps, ps4, ps5, 13, 5);
  }

  lemma EpilogueBound(t: Target, s: Submission, ps: seq<Packet>)
    requires SubmissionOk(s)
    ensures Grows(ps, Epilogue(t, s, ps), 29)
  {
    SettleBound(t, s, ps);
    RetireBound(t, s, Settle(t, s, ps));
    Chain(ps, Settle(t, s, ps), Epilogue(t, s, ps), 11, 18);
  }

  lemma BareIsSound()
    ensures Sound(WaitMemWrites()) && Sound(WaitForIdle()) && Sound(WaitForMe()) && Sound(SetRenderMode())
    ensures Sound(ContextSwitchYield())
    ensures |WaitMemWrites().payload| == |WaitForIdle().payload| == |WaitForMe().payload| == 0
    ensures |SetRenderMode().payload| == 5 && |ContextSwitchYield().payload| == 4
  {}

  /** A5XX_SUBMIT_MAX: the 64 dwords reserved around a payload are never exceeded. */
  lemma AddCmdsBound(t: Target, s: Submission, payload: seq<Packet>)
    requires SubmissionOk(s) && AllSound(payload)
    ensures AllSound(AddCmds(t, s, payload))
    ensures Size(AddCmds(t, s, payload)) <= 61 + Size(payload)
  {
    PrologueBound(t, s);
    SoundConcat(Prologue(t, s), payload);
    EpilogueBound(t, s, Prologue(t, s) + payload);
  }

  /** 18 dwords, and none for the default page table. */
  lemma PagetableSwitchBound(ring: RingAddresses, id: nat, ttbr0: nat, ps: seq<Packet>)
    requires RingOk(ring) && U32(id) && U64(ttbr0)
    ensures Grows(ps, PagetableSwitch(ring, id, ttbr0, ps), 18)
    ensures Size(PagetableSwitch(ring, id, ttbr0, ps)) == Size(ps) + 18
  {
    hide Sound, Grows, Size, Flatten;
    BareIsSound();
    TableIsSound(ring.scratchTtbr0, ttbr0, id);
    RegIsSound(A5XX_CP_CNTL, 0); RegIsSound(A5XX_CP_CNTL, 1);
    var ps1 := ps + [TableUpdate(ttbr0, id)];
    Snoc(ps, TableUpdate(ttbr0, id), 4);
    var ps2 := ps1 + [WaitForIdle()];
    Snoc(ps1, WaitForIdle(), 1); Chain(ps, ps1, ps2, 4, 1);
    var ps3 := ps2 + [WaitForMe()];
    Snoc(ps2, WaitForMe(), 1); Chain(ps, ps2, ps3, 5, 1);
    var ps4 := ps3 + [Reg(A5XX_CP_CNTL, 1)];
    Snoc(ps3, Reg(A5XX_CP_CNTL, 1), 2); Chain(ps, ps3, ps4, 6, 2);
    var ps5 := ps4 + [ScratchTable(ring.scratchTtbr0, ttbr0, id)];
    Snoc(ps4, ScratchTable(ring.scratchTtbr0, ttbr0, id), 6); Chain(ps, ps4, ps5, 8, 6);
    var ps6 := ps5 + [WaitForIdle()];
    Snoc(ps5, WaitForIdle(), 1); Chain(ps, ps5, ps6, 14, 1);
    var ps7 := ps6 + [WaitForMe()];
    Snoc(ps6, WaitForMe(), 1); Chain(ps, ps6, ps7, 15, 1);
    Snoc(ps7, Reg(A5XX_CP_CNTL, 0), 2); Chain(ps, ps7, ps7 + [Reg(A5XX_CP_CNTL, 0)], 16, 2);
  }

  lemma AnnounceBound(ring: RingAddresses, ctx: Context, ps: seq<Packet>)
    requires RingOk(ring) && ContextOk(ctx)
    ensures Grows(ps, Announce(ring, ctx, ps), 12) && Size(Announce(ring, ctx, ps)) == Size(ps) + 12
  {
    OneDword(CONTEXT_TO_MEM_IDENTIFIER);
    MemWriteIsSound(ring.currentContext, ctx.id);
    MemWriteIsSound(ring.globalCurrentContext, ctx.id);
    RegIsSound(A5XX_UCHE_INVALIDATE0, 0x12);
    hide Sound, Grows, Size, Flatten, Nop, MemWrite;
    var ps1 := ps + [Nop(CONTEXT_TO_MEM_IDENTIFIER)];
    Snoc(ps, Nop(CONTEXT_TO_MEM_IDENTIFIER), 2);
    var ps2 := ps1 + [MemWrite(ring.currentContext, ctx.id)];
    Snoc(ps1, MemWrite(ring.currentContext, ctx.id), 4); Chain(ps, ps1, ps2, 2, 4);
    var ps3 := ps2 + [MemWrite(ring.globalCurrentContext, ctx.id)];
    Snoc(ps2, MemWrite(ring.globalCurrentContext, ctx.id), 4); Chain(ps, ps2, ps3, 6, 4);
    var ps4 := ps3 + [Reg(A5XX_UCHE_INVALIDATE0, 0x12)];
    Snoc(ps3, Reg(A5XX_UCHE_INVALIDATE0, 0x12), 2); Chain(ps, ps3, ps4, 10, 2);
  }

  /** The array of 32 dwords in a5xx_rb_context_switch is large enough. */
  lemma ContextSwitchBound(ring: RingAddresses, ctx: Context, switchTable: bool)
    requires RingOk(ring) && ContextOk(ctx)
    ensures AllSound(ContextSwitch(ring, ctx, switchTable))
    ensures Size(ContextSwitch(ring, ctx, switchTable)) == if switchTable then 30 else 12
  {
    assert Size([]) == 0 && AllSound([]);
    hide Flatten, Size, PagetableSwitch, Announce, Sound, AllSound;
    var ps := if switchTable then PagetableSwitch(ring, ctx.id, ctx.ttbr0, []) else [];
    if switchTable { PagetableSwitchBound(ring, ctx.id, ctx.ttbr0, []); }
    AnnounceBound(ring, ctx, ps);
  }

  lemma {:induction false} IbPacketsBound(flags: Flags, ibs: seq<Ib>, ps: seq<Packet>)
    requires forall k | 0 <= k < |ibs| :: U64(ibs[k].gpuaddr)
    ensures Grows(ps, IbPackets(flags, ibs, ps), 5 * |ibs|)
  {
    if ibs == [] {
      Same(ps, 0);
    } else {
      var init, ib := ibs[..|ibs| - 1], ibs[|ibs| - 1];
      IbPacketsBound(flags, init, ps);
      var ps1 := IbPackets(flags, init, ps);
      var p := if Skipped(flags, ib) then SkippedIb(ib) else Indirect(IbRefOf(ib));
      SkippedIbIsSound(ib);
      IndirectIsSound(IbRefOf(ib));
      Snoc(ps1, p, 5);
      Chain(ps, ps1, ps1 + [p], 5 * |init|, 5);
    }
  }

  lemma SlotsAreSound(ring: RingAddresses, slot: nat)
    requires RingOk(ring) && slot < PROFILE_IB_SLOTS
    ensures var first, last := Indirect(ProfileSlot(ring, slot)), Indirect(ProfileSlot(ring, NextSlot(slot)));
      Sound(first) && Sound(last) && |first.payload| == |last.payload| == 3
  {
    IndirectIsSound(ProfileSlot(ring, slot));
    IndirectIsSound(ProfileSlot(ring, NextSlot(slot)));
  }

  /** The buffer of 32 dwords and 5 for each IB in a5xx_ringbuffer_submitcmd is large enough. */
  lemma SubmitCmdBound(t: Target, ring: RingAddresses, obj: DrawObj, flags: Flags, slots: bool, slot: nat)
    requires RingOk(ring) && DrawObjOk(obj) && slot < PROFILE_IB_SLOTS
    ensures AllSound(SubmitCmd(t, ring, obj, flags, slots, slot))
    ensures Size(SubmitCmd(t, ring, obj, flags, slots, slot)) <= 28 + 5 * (if flags.skip then 0 else |obj.ibs|)
  {
    hide Sound, Grows, Size, Flatten, IbPackets, Nop, ReadCounter, Indirect, SetRenderMode, YieldEnable;
    var kernel, user := flags.kernelProfile, flags.userProfile && slots;
    var first, last := ProfileSlot(ring, slot), ProfileSlot(ring, NextSlot(slot));
    var ibs := if flags.skip then [] else obj.ibs;
    OneDword(START_IB_IDENTIFIER); OneDword(END_IB_IDENTIFIER); OneDword(1);
    BareIsSound();
    ReadCounterIsSound(t, obj.kernelStarted);
    ReadCounterIsSound(t, obj.kernelRetired);
    SlotsAreSound(ring, slot);
    var ps0 := [Nop(START_IB_IDENTIFIER)];
    assert [] + ps0 == ps0;
    Snoc([], Nop(START_IB_IDENTIFIER), 2);
    var ps1 := if kernel then ps0 + [ReadCounter(t, obj.kernelStarted)] else ps0;
    MaybeSnoc(kernel, ps0, ReadCounter(t, obj.kernelStarted), 4); Chain([], ps0, ps1, 2, 4);
    var ps2 := if user then ps1 + [Indirect(first)] else ps1;
    MaybeSnoc(user, ps1, Indirect(first), 4); Chain([], ps1, ps2, 6, 4);
    var ps3 := IbPackets(flags, ibs, ps2);
    var n := 5 * |ibs|;
    IbPacketsBound(flags, ibs, ps2); Chain([], ps2, ps3, 10, n);
    var ps4 := ps3 + [SetRenderMode()];
    Snoc(ps3, SetRenderMode(), 6); Chain([], ps3, ps4, 10 + n, 6);
    var ps5 := ps4 + [YieldEnable(1)];
    Snoc(ps4, YieldEnable(1), 2); Chain([], ps4, ps5, 16 + n, 2);
    var ps6 := if kernel then ps5 + [ReadCounter(t, obj.kernelRetired)] else ps5;
    MaybeSnoc(kernel, ps5, ReadCounter(t, obj.kernelRetired), 4); Chain([], ps5, ps6, 18 + n, 4);
    var ps7 := if user then ps6 + [Indirect(last)] else ps6;
    MaybeSnoc(user, ps6, Indirect(last), 4); Chain([], ps6, ps7, 22 + n, 4);
    var ps8 := ps7 + [Nop(END_IB_IDENTIFIER)];
    Snoc(ps7, Nop(END_IB_IDENTIFIER), 2); Chain([], ps7, ps8, 26 + n, 2);
    FromNothing(ps8, 28 + n);
  }

  /** The shortest draw: no IBs and no profiling. */
  lemma ShortestDraw(t: Target, ring: RingAddresses, obj: DrawObj, slots: bool, slot: nat)
    requires obj.ibs == []
    ensures Size(SubmitCmd(t, ring, obj, NoFlags, slots, slot)) == 12
  {
    var ps0 := [Nop(START_IB_IDENTIFIER)];
    var ps1 := ps0 + [SetRenderMode()];
    var ps2 := ps1 + [YieldEnable(1)];
    FlattenOne(ps0[0]);
    Snoc(ps0, SetRenderMode(), 6);
    Snoc(ps1, YieldEnable(1), 2);
    Snoc(ps2, Nop(END_IB_IDENTIFIER), 2);
  }
}
