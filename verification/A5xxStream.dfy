/** The packets the A5xx driver emits for a submission. */
module A5xxStream {
  import opened Wrappers
  import opened Pm4
  import opened CommandProcessor
  import opened Submissions

  // -------------------------------------------------------------- inputs

  const PREEMPT_STYLE_RINGBUFFER := 1
  const PREEMPT_STYLE_FINEGRAIN := 2

  const A5XX_RBBM_ALWAYSON_COUNTER_LO := 0x4D2

  /** Properties of the target: preemption in use, page fault halt policy on anything but an A510, newer than A530. */
  datatype Target = Target(preemption: bool, waitMemWrites: bool, counter64: bool)

  /** The inputs of one call of a5xx_ringbuffer_addcmds after its counters have been advanced. */
  datatype Submission = Submission(
    ring: RingAddresses, ctx: Option<Context>, flags: Flags,
    timestamp: nat, rbTimestamp: nat, sequence: nat,
    pre: Option<IbRef>, post: Option<IbRef>
  )

  // ------------------------------------------------------ single packets

  function Nop(id: nat): Packet { Packet(Type7(CP_NOP, 1), [Data(id)]) }
  function Global(v: nat): Packet { Packet(Type7(CP_PREEMPT_ENABLE_GLOBAL, 1), [Data(v)]) }
  function Local(v: nat): Packet { Packet(Type7(CP_PREEMPT_ENABLE_LOCAL, 1), [Data(v)]) }
  function YieldEnable(v: nat): Packet { Packet(Type7(CP_YIELD_ENABLE, 1), [Data(v)]) }
  function ProtectedMode(on: nat): Packet { Packet(Type7(CP_SET_PROTECTED_MODE, 1), [Data(on)]) }
  function SecureMode(on: nat): Packet { Packet(Type7(CP_SET_SECURE_MODE, 1), [Data(on)]) }
  function Reg(reg: nat, v: nat): Packet { Packet(Type4(reg, 1), [Data(v)]) }
  function WaitMemWrites(): Packet { Packet(Type7(CP_WAIT_MEM_WRITES, 0), []) }
  function WaitForIdle(): Packet { Packet(Type7(CP_WAIT_FOR_IDLE, 0), []) }
  function WaitForMe(): Packet { Packet(Type7(CP_WAIT_FOR_ME, 0), []) }

  function Indirect(ib: IbRef): Packet {
    Packet(Type7(CP_INDIRECT_BUFFER_PFE, 3), [Data(Lo(ib.addr)), Data(Hi(ib.addr)), Data(ib.dwords)])
  }

  function MemWrite(addr: nat, v: nat): Packet {
    Packet(Type7(CP_MEM_WRITE, 3), [Data(Lo(addr)), Data(Hi(addr)), Data(v)])
  }

  /** CACHE_FLUSH_TS, with bit 31 asking for an interrupt. */
  function EventWrite(addr: nat, v: nat, irq: bool): Packet {
    Packet(Type7(CP_EVENT_WRITE, 4),
      [Data(if irq then CACHE_FLUSH_TS + 0x8000_0000 else CACHE_FLUSH_TS), Data(Lo(addr)), Data(Hi(addr)), Data(v)])
  }

  function ContextSwitchYield(): Packet {
    Packet(Type7(CP_CONTEXT_SWITCH_YIELD, 4), [Data(0), Data(0), Data(1), Data(1)])
  }

  function SetRenderMode(): Packet {
    Packet(Type7(CP_SET_RENDER_MODE, 5), [Data(0), Data(0), Data(0), Data(0), Data(0)])
  }

  function WhereAmI(addr: nat): Packet {
    Packet(Type7(CP_WHERE_AM_I, 2), [Data(Lo(addr)), Data(Hi(addr))])
  }

  /** a5xx_get_alwayson_counter; bits 30 and 19 ask for the full 64 bits. */
  function ReadCounter(t: Target, addr: nat): Packet {
    var reg := if t.counter64 then A5XX_RBBM_ALWAYSON_COUNTER_LO + 0x4000_0000 + 2 * 0x4_0000
               else A5XX_RBBM_ALWAYSON_COUNTER_LO;
    Packet(Type7(CP_REG_TO_MEM, 3), [Data(reg), Data(Lo(addr)), Data(Hi(addr))])
  }

  /** CP_SMMU_TABLE_UPDATE. */
  function TableUpdate(ttbr0: nat, id: nat): Packet {
    Packet(Type7(CP_SMMU_TABLE_UPDATE, 3), [Data(Lo(ttbr0)), Data(Hi(ttbr0)), Data(id)])
  }

  /** The copy of the table for the driver: ttbr0 and contextidr are neighbours in the scratch memory. */
  function ScratchTable(addr: nat, ttbr0: nat, id: nat): Packet {
    Packet(Type7(CP_MEM_WRITE, 5),
      [Data(Lo(addr)), Data(Hi(addr)), Data(Lo(ttbr0)), Data(Hi(ttbr0)), Data(id)])
  }

  /** An IB that is to be left out: a NOP whose payload is the whole IB packet. */
  function SkippedIb(ib: Ib): Packet {
    Packet(Type7(CP_NOP, 4), Words(Indirect(IbRefOf(ib))))
  }

  function IbRefOf(ib: Ib): IbRef {
    IbRef(ib.gpuaddr, ib.size / 4 % 0x10_0000)
  }

  // ------------------------------------------------------------- streams
  // Every builder appends to the packets `ps` that are already there.

  function PreemptStyle(ctx: Option<Context>): nat {
    if ctx.None? then 0
    else if ctx.value.secure then PREEMPT_STYLE_RINGBUFFER else ctx.value.style
  }

  predicate Finegrain(ctx: Option<Context>) {
    PreemptStyle(ctx) == PREEMPT_STYLE_FINEGRAIN
  }

  /** a5xx_preemption_pre_ibsubmit. */
  function PreIbSubmit(t: Target, s: Submission, ps: seq<Packet>): seq<Packet> {
    if !t.preemption then ps
    else
      var ps := ps + [Global(if Finegrain(s.ctx) then 2 else 0)];
      var ps := ps + [ProtectedMode(0)];
      var ps := ps + [Reg(A5XX_CP_CONTEXT_SWITCH_SAVE_ADDR_LO, Lo(s.ring.desc))];
      var ps := ps + [Reg(A5XX_CP_CONTEXT_SWITCH_SAVE_ADDR_HI, Hi(s.ring.desc))];
      var ps := ps + [ProtectedMode(1)];
      var ps := ps + [Local(if Finegrain(s.ctx) then 1 else 0)];
      ps + [YieldEnable(2)]
  }

  /** Everything a5xx_ringbuffer_addcmds puts before the payload. */
  function Prologue(t: Target, s: Submission): seq<Packet> {
    var ps := [Nop(if s.ctx.Some? then CMD_IDENTIFIER else CMD_INTERNAL_IDENTIFIER)];
    var ps := PreIbSubmit(t, s, ps);
    var ps := if s.pre.Some? then ps + [Indirect(s.pre.value)] else ps;
    var ps := if s.ctx.Some? then ps + [MemWrite(s.ctx.value.sopAddr, s.timestamp)] else ps;
    var ps := ps + [MemWrite(s.ring.sop, s.rbTimestamp)];
    var ps := if s.flags.secure then ps + [SecureMode(1)] else ps;
    if s.flags.notProtected then ps + [ProtectedMode(0)] else ps
  }

  /** After the payload: protection back on, and the write that tells interrupts apart. */
  function Settle(t: Target, s: Submission, ps: seq<Packet>): seq<Packet> {
    var ps := if s.flags.notProtected then ps + [ProtectedMode(1)] else ps;
    var ps := if s.post.Some? then ps + [Indirect(s.post.value)] else ps;
    var ps := if t.waitMemWrites then ps + [WaitMemWrites()] else ps;
    ps + [MemWrite(s.ring.refWaitTs, s.sequence)]
  }

  /** Then the end timestamps, secure mode off and the point where preemption may happen. */
  function Retire(t: Target, s: Submission, ps: seq<Packet>): seq<Packet> {
    var ps := if s.ctx.Some? then ps + [EventWrite(s.ctx.value.eopAddr, s.timestamp, true)] else ps;
    var ps := ps + [EventWrite(s.ring.eop, s.rbTimestamp, s.ctx.None?)];
    var ps := if s.flags.wfi then ps + [WaitForIdle()] else ps;
    var ps := if s.flags.secure then ps + [SecureMode(0)] else ps;
    if t.preemption then ps + [ContextSwitchYield()] else ps
  }

  function Epilogue(t: Target, s: Submission, ps: seq<Packet>): seq<Packet> {
    Retire(t, s, Settle(t, s, ps))
  }

  function AddCmds(t: Target, s: Submission, payload: seq<Packet>): seq<Packet> {
    Epilogue(t, s, Prologue(t, s) + payload)
  }

  /** a5xx_rb_pagetable_switch; the default page table needs no commands. */
  function PagetableSwitch(ring: RingAddresses, id: nat, ttbr0: nat, ps: seq<Packet>): seq<Packet> {
    var ps := ps + [TableUpdate(ttbr0, id)];
    var ps := ps + [WaitForIdle()] + [WaitForMe()];
    var ps := ps + [Reg(A5XX_CP_CNTL, 1)];
    var ps := ps + [ScratchTable(ring.scratchTtbr0, ttbr0, id)];
    var ps := ps + [WaitForIdle()] + [WaitForMe()];
    ps + [Reg(A5XX_CP_CNTL, 0)]
  }

  /** The payload of a5xx_rb_context_switch. */
  function ContextSwitch(ring: RingAddresses, ctx: Context, switchTable: bool): seq<Packet> {
    Announce(ring, ctx, if switchTable then PagetableSwitch(ring, ctx.id, ctx.ttbr0, []) else [])
  }

  /** The part of a5xx_rb_context_switch that follows the table. */
  function Announce(ring: RingAddresses, ctx: Context, ps: seq<Packet>): seq<Packet> {
    var ps := ps + [Nop(CONTEXT_TO_MEM_IDENTIFIER)];
    var ps := ps + [MemWrite(ring.currentContext, ctx.id)];
    var ps := ps + [MemWrite(ring.globalCurrentContext, ctx.id)];
    ps + [Reg(A5XX_UCHE_INVALIDATE0, 0x12)]
  }

  function IbPacket(ib: Ib, skipped: bool): Packet {
    if skipped then SkippedIb(ib) else Indirect(IbRefOf(ib))
  }

  function IbPackets(flags: Flags, ibs: seq<Ib>, ps: seq<Packet>): seq<Packet> {
    IbList(flags, ibs, ps, IbPacket)
  }

  /** The slot that is used after slot i. */
  function NextSlot(i: nat): (j: nat)
    ensures j < PROFILE_IB_SLOTS
  {
    (i + 1) % PROFILE_IB_SLOTS
  }

  function ProfileSlot(ring: RingAddresses, index: nat): IbRef {
    IbRef(ring.profile + index * 16, PROFILE_IB_DWORDS)
  }

  /** Before the IBs; `slots` says whether the ring has a profiling page, `slot` which slot is next. */
  function DrawStart(t: Target, ring: RingAddresses, obj: DrawObj, flags: Flags, slots: bool, slot: nat): seq<Packet> {
    var ps := [Nop(START_IB_IDENTIFIER)];
    var ps := if flags.kernelProfile then ps + [ReadCounter(t, obj.kernelStarted)] else ps;
    if flags.userProfile && slots then ps + [Indirect(ProfileSlot(ring, slot))] else ps
  }

  /** After the IBs. */
  function DrawEnd(t: Target, ring: RingAddresses, obj: DrawObj, flags: Flags, slots: bool, slot: nat,
                   ps: seq<Packet>): seq<Packet>
  {
    var ps := ps + [SetRenderMode()];
    var ps := ps + [YieldEnable(1)];
    var ps := if flags.kernelProfile then ps + [ReadCounter(t, obj.kernelRetired)] else ps;
    var ps := if flags.userProfile && slots then ps + [Indirect(ProfileSlot(ring, slot))] else ps;
    ps + [Nop(END_IB_IDENTIFIER)]
  }

  /** The payload of a5xx_ringbuffer_submitcmd. */
  function SubmitCmd(t: Target, ring: RingAddresses, obj: DrawObj, flags: Flags, slots: bool, slot: nat): seq<Packet> {
    var ps := DrawStart(t, ring, obj, flags, slots, slot);
    var ps := IbPackets(flags, if flags.skip then [] else obj.ibs, ps);
    DrawEnd(t, ring, obj, flags, slots, NextSlot(slot), ps)
  }
}
