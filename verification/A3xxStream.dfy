/** The packets the A3xx driver emits for a submission. */
module A3xxStream {
  import opened Wrappers
  import opened Pm4
  import opened CommandProcessor
  import opened Submissions

  const PWRON_FIXUP_IDENTIFIER := 0x2AFAFAFA

  const A3XX_CP_WFI_PEND_CTR := 0x1F5
  const A3XX_UCHE_CACHE_INVALIDATE0_REG := 0xEA0
  const A3XX_HLSQ_CL_KERNEL_GROUP_X_REG := 0x2215
  const A3XX_VBIF_HALT_CTRL0 := 0x3800
  const A3XX_VBIF_HALT_CTRL1 := 0x3801
  const ALL_BITS := 0xFFFF_FFFF

  /** Registers of the SMMU as the CP addresses them: (A3XX_GPU_OFFSET + offset) >> 2. */
  const SMMU_TTBR0 := (0xA000 + 0x20) / 4
  const SMMU_TLBIALL := (0xA000 + 0x618) / 4
  const SMMU_TLBSYNC := (0xA000 + 0x7F0) / 4
  const SMMU_TLBSTATUS := (0xA000 + 0x7F4) / 4

  /** The inputs of one call of a3xx_ringbuffer_addcmds after its counter has been advanced. */
  datatype Submission = Submission(
    ring: RingAddresses, ctx: Option<Context>, flags: Flags, timestamp: nat, rbTimestamp: nat,
    fixup: IbRef, pre: Option<IbRef>, post: Option<IbRef>
  )

  // ------------------------------------------------------ single packets

  function One(op: nat, v: nat): Packet { Packet(Type3(op, 1), [Data(v)]) }
  function Nop(id: nat): Packet { One(CP_NOP, id) }
  function ProtectedMode(on: nat): Packet { One(CP_SET_PROTECTED_MODE, on) }
  function WaitForIdle(): Packet { One(CP_WAIT_FOR_IDLE, 0) }
  function WaitForMe(): Packet { One(CP_WAIT_FOR_ME, 0) }
  function HlsqFlush(): Packet { One(CP_EVENT_WRITE, 7) }
  function InvalidateState(): Packet { One(CP_INVALIDATE_STATE, 0x7FFFF) }

  function Indirect(ib: IbRef): Packet {
    Packet(Type3(CP_INDIRECT_BUFFER_PFE, 2), [Data(Lo(ib.addr)), Data(ib.dwords)])
  }

  function MemWrite(addr: nat, v: nat): Packet {
    Packet(Type3(CP_MEM_WRITE, 2), [Data(Lo(addr)), Data(v)])
  }

  function EventWrite(addr: nat, v: nat, irq: bool): Packet {
    Packet(Type3(CP_EVENT_WRITE, 3),
      [Data(if irq then CACHE_FLUSH_TS + 0x8000_0000 else CACHE_FLUSH_TS), Data(Lo(addr)), Data(v)])
  }

  /** A context rollover. */
  function Rollover(): Packet {
    Packet(Type3(CP_SET_CONSTANT, 2), [Data(4 * 0x1_0000 + (A3XX_HLSQ_CL_KERNEL_GROUP_X_REG - 0x2000)), Data(0)])
  }

  /** a3xx_wait_reg. */
  function WaitReg(reg: nat, value: nat, mask: nat): Packet {
    Packet(Type3(CP_WAIT_REG_EQ, 4), [Data(reg), Data(value), Data(mask), Data(0xF)])
  }

  function ModifyReg(reg: nat, mask: nat, bits: nat): Packet {
    Packet(Type3(CP_REG_RMW, 3), [Data(reg), Data(mask), Data(bits)])
  }

  /** a3xx_cp_smmu_reg with the values behind it. */
  function SmmuReg(reg: nat, v: nat): Packet {
    Packet(Type3(CP_REG_WR_NO_CTXT, 2), [Data(reg), Data(v)])
  }

  function SmmuRegPair(reg: nat, v: nat, w: nat): Packet {
    Packet(Type3(CP_REG_WR_NO_CTXT, 3), [Data(reg), Data(v), Data(w)])
  }

  function InvalidateUche(): Packet {
    Packet(Type0(A3XX_UCHE_CACHE_INVALIDATE0_REG, 2), [Data(0), Data(0x9000_0000)])
  }

  /** The length is not masked; it is cut to 32 bits by the assignment. */
  function IbRefOf(ib: Ib): IbRef {
    IbRef(ib.gpuaddr, ib.size / 4 % 0x1_0000_0000)
  }

  function SkippedIb(ib: Ib): Packet {
    Packet(Type3(CP_NOP, 3), Words(Indirect(IbRefOf(ib))))
  }

  // ------------------------------------------------------------- streams

  /** The power-on fixup; both packets around it write 0. */
  function PowerOnFixup(s: Submission, ps: seq<Packet>): seq<Packet> {
    var ps := ps + [ProtectedMode(0)];
    var ps := ps + [Nop(PWRON_FIXUP_IDENTIFIER)];
    var ps := ps + [Indirect(s.fixup)];
    ps + [ProtectedMode(0)]
  }

  /** Everything a3xx_ringbuffer_addcmds puts before the payload. */
  function Prologue(s: Submission): seq<Packet> {
    var ps := [Nop(if s.ctx.Some? then CMD_IDENTIFIER else CMD_INTERNAL_IDENTIFIER)];
    var ps := if s.flags.pwronFixup then PowerOnFixup(s, ps) else ps;
    var ps := if s.pre.Some? then ps + [Indirect(s.pre.value)] else ps;
    var ps := if s.ctx.Some? then ps + [MemWrite(s.ctx.value.sopAddr, s.timestamp)] else ps;
    var ps := ps + [MemWrite(s.ring.sop, s.rbTimestamp)];
    if s.flags.notProtected then ps + [ProtectedMode(0)] else ps
  }

  function Settle(s: Submission, ps: seq<Packet>): seq<Packet> {
    var ps := if s.flags.notProtected then ps + [ProtectedMode(1)] else ps;
    var ps := ps + [HlsqFlush()];
    var ps := ps + [WaitForIdle()];
    if s.post.Some? then ps + [Indirect(s.post.value)] else ps
  }

  function Retire(s: Submission, ps: seq<Packet>): seq<Packet> {
    var ps := if s.ctx.Some? then ps + [EventWrite(s.ctx.value.eopAddr, s.timestamp, true)] else ps;
    var ps := ps + [EventWrite(s.ring.eop, s.rbTimestamp, s.ctx.None?)];
    var ps := ps + [Rollover()];
    if s.flags.wfi then ps + [WaitForIdle()] else ps
  }

  function AddCmds(s: Submission, payload: seq<Packet>): seq<Packet> {
    Retire(s, Settle(s, Prologue(s) + payload))
  }

  /** a3xx_vbif_lock: halt the bus and wait until it has. */
  function VbifLock(ps: seq<Packet>): seq<Packet> {
    var ps := ps + [WaitReg(A3XX_CP_WFI_PEND_CTR, 1, ALL_BITS)];
    var ps := ps + [ModifyReg(A3XX_VBIF_HALT_CTRL0, ALL_BITS - 1, 1)];
    ps + [WaitReg(A3XX_VBIF_HALT_CTRL1, 1, ALL_BITS)]
  }

  function VbifUnlock(ps: seq<Packet>): seq<Packet> {
    var ps := ps + [ModifyReg(A3XX_VBIF_HALT_CTRL0, ALL_BITS - 1, 0)];
    ps + [WaitForMe()]
  }

  function TlbiAll(ps: seq<Packet>): seq<Packet> {
    var ps := ps + [SmmuReg(SMMU_TLBIALL, 1)];
    var ps := ps + [SmmuReg(SMMU_TLBSYNC, 0)];
    ps + [WaitReg(SMMU_TLBSTATUS, 0, 1)]
  }

  /** The synchronisation before a page table update: an IB of two NOP words stalls the prefetch. */
  function Stall(setstate: nat, ps: seq<Packet>): seq<Packet> {
    var ps := ps + [WaitForMe()];
    var ps := ps + [Indirect(IbRef(setstate, 2))];
    var ps := ps + [WaitForIdle()];
    ps + [WaitForMe()]
  }

  /** a3xx_rb_pagetable_switch, which also serves the default page table. */
  function PagetableSwitch(setstate: nat, ttbr0: nat): seq<Packet> {
    var ps := VbifLock(Stall(setstate, []));
    var ps := ps + [SmmuRegPair(SMMU_TTBR0, Lo(ttbr0), Hi(ttbr0))];
    var ps := TlbiAll(VbifUnlock(ps));
    var ps := ps + [WaitForMe()];
    var ps := ps + [WaitForIdle()];
    ps + [InvalidateState()]
  }

  function Announce(ring: RingAddresses, ctx: Context, ps: seq<Packet>): seq<Packet> {
    var ps := ps + [Nop(CONTEXT_TO_MEM_IDENTIFIER)];
    var ps := ps + [MemWrite(ring.currentContext, ctx.id)];
    var ps := ps + [MemWrite(ring.globalCurrentContext, ctx.id)];
    ps + [InvalidateUche()]
  }

  /** The payload of a3xx_rb_context_switch. */
  function ContextSwitch(ring: RingAddresses, setstate: nat, ctx: Context, newTable: bool): seq<Packet> {
    Announce(ring, ctx, if newTable then PagetableSwitch(setstate, ctx.ttbr0) else [])
  }

  function IbPacket(ib: Ib, skipped: bool): Packet {
    if skipped then SkippedIb(ib) else Indirect(IbRefOf(ib))
  }

  function IbPackets(flags: Flags, ibs: seq<Ib>, ps: seq<Packet>): seq<Packet> {
    IbList(flags, ibs, ps, IbPacket)
  }

  /** The payload of a3xx_ringbuffer_submitcmd. */
  function SubmitCmd(obj: DrawObj, flags: Flags): seq<Packet> {
    IbPackets(flags, if flags.skip then [] else obj.ibs, [Nop(START_IB_IDENTIFIER)]) + [Nop(END_IB_IDENTIFIER)]
  }
}
