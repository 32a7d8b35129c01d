/** Every stream of A3xxStream is well framed and fits the space reserved for it. */
module A3xxBounds {
  import opened Wrappers
  import opened Pm4
  import opened CommandProcessor
  import opened Submissions
  import opened StreamBounds
  import opened A3xxStream

  predicate SubmissionOk(s: Submission) {
    && RingOk(s.ring) && (s.ctx.Some? ==> ContextOk(s.ctx.value))
    && U32(s.timestamp) && U32(s.rbTimestamp) && IbRefOk(s.fixup)
    && (s.pre.Some? ==> IbRefOk(s.pre.value)) && (s.post.Some? ==> IbRefOk(s.post.value))
  }

  // ------------------------------------------------------ single packets

  lemma IndirectIsSound(ib: IbRef)
    requires IbRefOk(ib)
    ensures Sound(Indirect(ib)) && |Indirect(ib).payload| == 2 && AllOk(Words(Indirect(ib)))
  {
    HalvesAreDwords(ib.addr);
  }

  lemma MemWriteIsSound(addr: nat, v: nat)
    requires U64(addr) && U32(v)
    ensures Sound(MemWrite(addr, v)) && |MemWrite(addr, v).payload| == 2
  {
    HalvesAreDwords(addr);
  }

  lemma EventWriteIsSound(addr: nat, v: nat, irq: bool)
    requires U64(addr) && U32(v)
    ensures Sound(EventWrite(addr, v, irq)) && |EventWrite(addr, v, irq).payload| == 3
  {
    HalvesAreDwords(addr);
  }

  lemma ConstantsAreSound()
    ensures Sound(Rollover()) && |Rollover().payload| == 2
    ensures Sound(InvalidateUche()) && |InvalidateUche().payload| == 2
    ensures Sound(HlsqFlush()) && |HlsqFlush().payload| == 1
    ensures Sound(WaitForIdle()) && |WaitForIdle().payload| == 1
    ensures Sound(WaitForMe()) && |WaitForMe().payload| == 1
    ensures Sound(InvalidateState()) && |InvalidateState().payload| == 1
    ensures Sound(ProtectedMode(0)) && |ProtectedMode(0).payload| == 1
    ensures Sound(ProtectedMode(1)) && |ProtectedMode(1).payload| == 1
  {}

  lemma WaitRegIsSound(reg: nat, value: nat, mask: nat)
    requires U32(reg) && U32(value) && U32(mask)
    ensures Sound(WaitReg(reg, value, mask)) && |WaitReg(reg, value, mask).payload| == 4
    ensures Sound(ModifyReg(reg, mask, value)) && |ModifyReg(reg, mask, value).payload| == 3
    ensures Sound(SmmuReg(reg, value)) && |SmmuReg(reg, value).payload| == 2
    ensures Sound(SmmuRegPair(reg, value, mask)) && |SmmuRegPair(reg, value, mask).payload| == 3
  {}

  // ------------------------------------------------------- submissions

  lemma FixupBound(s: Submission, ps: seq<Packet>)
    requires SubmissionOk(s)
    ensures Grows(ps, PowerOnFixup(s, ps), 9)
  {
    hide Sound, Grows, Size, Flatten, ProtectedMode, Nop, Indirect;
    ConstantsAreSound();
    NopIsSound(PWRON_FIXUP_IDENTIFIER);
    IndirectIsSound(s.fixup);
    var ps1 := ps + [ProtectedMode(0)];
    Snoc(ps, ProtectedMode(0), 2);
    var ps2 := ps1 + [Nop(PWRON_FIXUP_IDENTIFIER)];
    Snoc(ps1, Nop(PWRON_FIXUP_IDENTIFIER), 2); Chain(ps, ps1, ps2, 2, 2);
    var ps3 := ps2 + [Indirect(s.fixup)];
    Snoc(ps2, Indirect(s.fixup), 3); Chain(ps, ps2, ps3, 4, 3);
    Snoc(ps3, ProtectedMode(0), 2); Chain(ps, ps3, ps3 + [ProtectedMode(0)], 7, 2);
  }

  lemma NopIsSound(id: nat)
    requires U32(id)
    ensures Sound(Nop(id)) && |Nop(id).payload| == 1
  {}

  lemma MaybeIndirect(ps: seq<Packet>, ib: Option<IbRef>)
    requires ib.Some? ==> IbRefOk(ib.value)
    ensures Grows(ps, if ib.Some? then ps + [Indirect(ib.value)] else ps, 3)
  {
    if ib.Some? {
      IndirectIsSound(ib.value);
      Snoc(ps, Indirect(ib.value), 3);
    }
  }

  lemma MaybeSop(ps: seq<Packet>, s: Submission)
    requires SubmissionOk(s)
    ensures Grows(ps, if s.ctx.Some? then ps + [MemWrite(s.ctx.value.sopAddr, s.timestamp)] else ps, 3)
  {
    if s.ctx.Some? {
      MemWriteIsSound(s.ctx.value.sopAddr, s.timestamp);
      Snoc(ps, MemWrite(s.ctx.value.sopAddr, s.timestamp), 3);
    }
  }

  lemma MaybeEop(ps: seq<Packet>, s: Submission)
    requires SubmissionOk(s)
    ensures Grows(ps, if s.ctx.Some? then ps + [EventWrite(s.ctx.value.eopAddr, s.timestamp, true)] else ps, 4)
  {
    if s.ctx.Some? {
      EventWriteIsSound(s.ctx.value.eopAddr, s.timestamp, true);
      Snoc(ps, EventWrite(s.ctx.value.eopAddr, s.timestamp, true), 4);
    }
  }

  lemma MaybeFixup(s: Submission, ps: seq<Packet>)
    requires SubmissionOk(s)
    ensures Grows(ps, if s.flags.pwronFixup then PowerOnFixup(s, ps) else ps, 9)
  {
    if s.flags.pwronFixup { FixupBound(s, ps); }
  }

  lemma PrologueBound(s: Submission)
    requires SubmissionOk(s)
    ensures AllSound(Prologue(s)) && Size(Prologue(s)) <= 22
  {
    hide Sound, Grows, Size, Flatten, PowerOnFixup, ProtectedMode, Nop, Indirect, MemWrite;
    ConstantsAreSound();
    var id := Nop(if s.ctx.Some? then CMD_IDENTIFIER else CMD_INTERNAL_IDENTIFIER);
    NopIsSound(if s.ctx.Some? then CMD_IDENTIFIER else CMD_INTERNAL_IDENTIFIER);
    assert [] + [id] == [id];
    Snoc([], id, 2);
    var ps1 := if s.flags.pwronFixup then PowerOnFixup(s, [id]) else [id];
    MaybeFixup(s, [id]); Chain([], [id], ps1, 2, 9);
    var ps2 := if s.pre.Some? then ps1 + [Indirect(s.pre.value)] else ps1;
    MaybeIndirect(ps1, s.pre); Chain([], ps1, ps2, 11, 3);
    var ps3 := if s.ctx.Some? then ps2 + [MemWrite(s.ctx.value.sopAddr, s.timestamp)] else ps2;
    MaybeSop(ps2, s); Chain([], ps2, ps3, 14, 3);
    var ps4 := ps3 + [MemWrite(s.ring.sop, s.rbTimestamp)];
    MemWriteIsSound(s.ring.sop, s.rbTimestamp);
    Snoc(ps3, MemWrite(s.ring.sop, s.rbTimestamp), 3); Chain([], ps3, ps4, 17, 3);
    var ps5 := if s.flags.notProtected then ps4 + [ProtectedMode(0)] else ps4;
    MaybeSnoc(s.flags.notProtected, ps4, ProtectedMode(0), 2); Chain([], ps4, ps5, 20, 2);
    FromNothing(ps5, 22);
  }

  lemma SettleBound(s: Submission, ps: seq<Packet>)
    requires SubmissionOk(s)
    ensures Grows(ps, Settle(s, ps), 9)
  {
    hide Sound, Grows, Size, Flatten, ProtectedMode, HlsqFlush, WaitForIdle, Indirect;
    ConstantsAreSound();
    var ps1 := if s.flags.notProtected then ps + [ProtectedMode(1)] else ps;
    MaybeSnoc(s.flags.notProtected, ps, ProtectedMode(1), 2);
    var ps2 := ps1 + [HlsqFlush()];
    Snoc(ps1, HlsqFlush(), 2); Chain(ps, ps1, ps2, 2, 2);
    var ps3 := ps2 + [WaitForIdle()];
    Snoc(ps2, WaitForIdle(), 2); Chain(ps, ps2, ps3, 4, 2);
    MaybeIndirect(ps3, s.post); Chain(ps, ps3, Settle(s, ps), 6, 3);
  }

  lemma RetireBound(s: Submission, ps: seq<Packet>)
    requires SubmissionOk(s)
    ensures Grows(ps, Retire(s, ps), 13)
  {
    hide Sound, Grows, Size, Flatten, EventWrite, Rollover, WaitForIdle;
    ConstantsAreSound();
    var ps1 := if s.ctx.Some? then ps + [EventWrite(s.ctx.value.eopAddr, s.timestamp, true)] else ps;
    MaybeEop(ps, s);
    var ps2 := ps1 + [EventWrite(s.ring.eop, s.rbTimestamp, s.ctx.None?)];
    EventWriteIsSound(s.ring.eop, s.rbTimestamp, s.ctx.None?);
    Snoc(ps1, EventWrite(s.ring.eop, s.rbTimestamp, s.ctx.None?), 4); Chain(ps, ps1, ps2, 4, 4);
    var ps3 := ps2 + [Rollover()];
    Snoc(ps2, Rollover(), 3); Chain(ps, ps2, ps3, 8, 3);
    MaybeSnoc(s.flags.wfi, ps3, WaitForIdle(), 2); Chain(ps, ps3, Retire(s, ps), 11, 2);
  }

  /** A3XX_SUBMIT_MAX: the 55 dwords reserved around a payload are never exceeded. */
  lemma AddCmdsBound(s: Submission, payload: seq<Packet>)
    requires SubmissionOk(s) && AllSound(payload)
    ensures AllSound(AddCmds(s, payload)) && Size(AddCmds(s, payload)) <= 44 + Size(payload)
  {
    PrologueBound(s);
    SoundConcat(Prologue(s), payload);
    var ps := Prologue(s) + payload;
    SettleBound(s, ps);
    RetireBound(s, Settle(s, ps));
  }

  // --------------------------------------------------- context switches

  lemma StallBound(setstate: nat, ps: seq<Packet>)
    requires U64(setstate)
    ensures Grows(ps, Stall(setstate, ps), 9) && Size(Stall(setstate, ps)) == Size(ps) + 9
  {
    var ib := IbRef(setstate, 2);
    IndirectIsSound(ib);
    ConstantsAreSound();
    hide Sound, Grows, Size, Flatten, WaitForMe, WaitForIdle, Indirect;
    var ps1 := ps + [WaitForMe()];
    Snoc(ps, WaitForMe(), 2);
    var ps2 := ps1 + [Indirect(ib)];
    Snoc(ps1, Indirect(ib), 3); Chain(ps, ps1, ps2, 2, 3);
    var ps3 := ps2 + [WaitForIdle()];
    Snoc(ps2, WaitForIdle(), 2); Chain(ps, ps2, ps3, 5, 2);
    Snoc(ps3, WaitForMe(), 2); Chain(ps, ps3, ps3 + [WaitForMe()], 7, 2);
  }

  lemma LockBound(ps: seq<Packet>)
    ensures Grows(ps, VbifLock(ps), 14) && Size(VbifLock(ps)) == Size(ps) + 14
  {
    hide Sound, Grows, Size, Flatten, WaitReg, ModifyReg;
    WaitRegIsSound(A3XX_CP_WFI_PEND_CTR, 1, ALL_BITS);
    WaitRegIsSound(A3XX_VBIF_HALT_CTRL0, 1, ALL_BITS - 1);
    WaitRegIsSound(A3XX_VBIF_HALT_CTRL1, 1, ALL_BITS);
    var ps1 := ps + [WaitReg(A3XX_CP_WFI_PEND_CTR, 1, ALL_BITS)];
    Snoc(ps, WaitReg(A3XX_CP_WFI_PEND_CTR, 1, ALL_BITS), 5);
    var ps2 := ps1 + [ModifyReg(A3XX_VBIF_HALT_CTRL0, ALL_BITS - 1, 1)];
    Snoc(ps1, ModifyReg(A3XX_VBIF_HALT_CTRL0, ALL_BITS - 1, 1), 4); Chain(ps, ps1, ps2, 5, 4);
    var ps3 := ps2 + [WaitReg(A3XX_VBIF_HALT_CTRL1, 1, ALL_BITS)];
    Snoc(ps2, WaitReg(A3XX_VBIF_HALT_CTRL1, 1, ALL_BITS), 5); Chain(ps, ps2, ps3, 9, 5);
  }

  lemma UnlockBound(ps: seq<Packet>)
    ensures Grows(ps, TlbiAll(VbifUnlock(ps)), 17) && Size(TlbiAll(VbifUnlock(ps))) == Size(ps) + 17
  {
    hide Sound, Grows, Size, Flatten, WaitForMe, WaitReg, ModifyReg, SmmuReg;
    ConstantsAreSound();
    WaitRegIsSound(A3XX_VBIF_HALT_CTRL0, 0, ALL_BITS - 1);
    WaitRegIsSound(SMMU_TLBIALL, 1, 0);
    WaitRegIsSound(SMMU_TLBSYNC, 0, 0);
    WaitRegIsSound(SMMU_TLBSTATUS, 0, 1);
    var ps1 := ps + [ModifyReg(A3XX_VBIF_HALT_CTRL0, ALL_BITS - 1, 0)];
    Snoc(ps, ModifyReg(A3XX_VBIF_HALT_CTRL0, ALL_BITS - 1, 0), 4);
    var ps2 := ps1 + [WaitForMe()];
    Snoc(ps1, WaitForMe(), 2); Chain(ps, ps1, ps2, 4, 2);
    var ps3 := ps2 + [SmmuReg(SMMU_TLBIALL, 1)];
    Snoc(ps2, SmmuReg(SMMU_TLBIALL, 1), 3); Chain(ps, ps2, ps3, 6, 3);
    var ps4 := ps3 + [SmmuReg(SMMU_TLBSYNC, 0)];
    Snoc(ps3, SmmuReg(SMMU_TLBSYNC, 0), 3); Chain(ps, ps3, ps4, 9, 3);
    Snoc(ps4, WaitReg(SMMU_TLBSTATUS, 0, 1), 5); Chain(ps, ps4, ps4 + [WaitReg(SMMU_TLBSTATUS, 0, 1)], 12, 5);
  }

  lemma PagetableSwitchBound(setstate: nat, ttbr0: nat)
    requires U64(setstate) && U64(ttbr0)
    ensures Grows([], PagetableSwitch(setstate, ttbr0), 50) && Size(PagetableSwitch(setstate, ttbr0)) == 50
  {
    assert Size([]) == 0;
    hide Sound, Grows, Size, Flatten, VbifLock, Stall, TlbiAll, VbifUnlock, SmmuRegPair, WaitForMe, WaitForIdle,
      InvalidateState, Lo, Hi;
    ConstantsAreSound();
    HalvesAreDwords(ttbr0);
    var ps1 := VbifLock(Stall(setstate, []));
    StallBound(setstate, []);
    LockBound(Stall(setstate, []));
    Chain([], Stall(setstate, []), ps1, 9, 14);
    var p := SmmuRegPair(SMMU_TTBR0, Lo(ttbr0), Hi(ttbr0));
    WaitRegIsSound(SMMU_TTBR0, Lo(ttbr0), Hi(ttbr0));
    var ps2 := ps1 + [p];
    Snoc(ps1, p, 4); Chain([], ps1, ps2, 23, 4);
    var ps3 := TlbiAll(VbifUnlock(ps2));
    UnlockBound(ps2); Chain([], ps2, ps3, 27, 17);
    var ps4 := ps3 + [WaitForMe()];
    Snoc(ps3, WaitForMe(), 2); Chain([], ps3, ps4, 44, 2);
    var ps5 := ps4 + [WaitForIdle()];
    Snoc(ps4, WaitForIdle(), 2); Chain([], ps4, ps5, 46, 2);
    Snoc(ps5, InvalidateState(), 2); Chain([], ps5, ps5 + [InvalidateState()], 48, 2);
  }

  lemma AnnounceBound(ring: RingAddresses, ctx: Context, ps: seq<Packet>)
    requires RingOk(ring) && ContextOk(ctx)
    ensures Grows(ps, Announce(ring, ctx, ps), 11) && Size(Announce(ring, ctx, ps)) == Size(ps) + 11
  {
    hide Sound, Grows, Size, Flatten, Nop, MemWrite, InvalidateUche;
    ConstantsAreSound();
    NopIsSound(CONTEXT_TO_MEM_IDENTIFIER);
    MemWriteIsSound(ring.currentContext, ctx.id);
    MemWriteIsSound(ring.globalCurrentContext, ctx.id);
    var ps1 := ps + [Nop(CONTEXT_TO_MEM_IDENTIFIER)];
    Snoc(ps, Nop(CONTEXT_TO_MEM_IDENTIFIER), 2);
    var ps2 := ps1 + [MemWrite(ring.currentContext, ctx.id)];
    Snoc(ps1, MemWrite(ring.currentContext, ctx.id), 3); Chain(ps, ps1, ps2, 2, 3);
    var ps3 := ps2 + [MemWrite(ring.globalCurrentContext, ctx.id)];
    Snoc(ps2, MemWrite(ring.globalCurrentContext, ctx.id), 3); Chain(ps, ps2, ps3, 5, 3);
    Snoc(ps3, InvalidateUche(), 3); Chain(ps, ps3, ps3 + [InvalidateUche()], 8, 3);
  }

  /** The array of 64 dwords in a3xx_rb_context_switch is large enough. */
  lemma ContextSwitchBound(ring: RingAddresses, setstate: nat, ctx: Context, newTable: bool)
    requires RingOk(ring) && ContextOk(ctx) && U64(setstate)
    ensures AllSound(ContextSwitch(ring, setstate, ctx, newTable))
    ensures Size(ContextSwitch(ring, setstate, ctx, newTable)) == if newTable then 61 else 11
  {
    var ps := if newTable then PagetableSwitch(setstate, ctx.ttbr0) else [];
    PagetableSwitchBound(setstate, ctx.ttbr0);
    AnnounceBound(ring, ctx, ps);
  }

  // ------------------------------------------------------- draw objects

  lemma {:induction false} IbPacketsBound(flags: Flags, ibs: seq<Ib>, ps: seq<Packet>)
    requires forall k | 0 <= k < |ibs| :: U64(ibs[k].gpuaddr)
    ensures Grows(ps, IbPackets(flags, ibs, ps), 4 * |ibs|)
    ensures Size(IbPackets(flags, ibs, ps)) == Size(ps) + 4 * |ibs| - |Kept(flags, ibs)|
  {
    if ibs == [] {
      Same(ps, 0);
    } else {
      var init, ib := ibs[..|ibs| - 1], ibs[|ibs| - 1];
      IbPacketsBound(flags, init, ps);
      var ps1 := IbPackets(flags, init, ps);
      var p := if Skipped(flags, ib) then SkippedIb(ib) else Indirect(IbRefOf(ib));
      IndirectIsSound(IbRefOf(ib));
      Snoc(ps1, p, 4);
      Chain(ps, ps1, ps1 + [p], 4 * |init|, 4);
    }
  }

  /** The buffer of 4 dwords and 4 for each IB is large enough, and filled exactly if every IB is skipped. */
  lemma SubmitCmdBound(obj: DrawObj, flags: Flags)
    requires DrawObjOk(obj)
    ensures var ibs := if flags.skip then [] else obj.ibs;
      && AllSound(SubmitCmd(obj, flags))
      && Size(SubmitCmd(obj, flags)) == 4 + 4 * |ibs| - |Kept(flags, ibs)|
  {
    hide Sound;
    var ibs := if flags.skip then [] else obj.ibs;
    NopIsSound(START_IB_IDENTIFIER);
    NopIsSound(END_IB_IDENTIFIER);
    var ps0 := [Nop(START_IB_IDENTIFIER)];
    assert [] + ps0 == ps0;
    Snoc([], Nop(START_IB_IDENTIFIER), 2);
    IbPacketsBound(flags, ibs, ps0);
    Snoc(IbPackets(flags, ibs, ps0), Nop(END_IB_IDENTIFIER), 2);
  }
}
