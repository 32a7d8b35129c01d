/** adreno_a3xx_ringbuffer.c as it fills buffers and advances ring pointers. */
module A3xxRingbuffer {
  import opened Wrappers
  import opened Pm4
  import opened CommandProcessor
  import opened Submissions
  import opened StreamBounds
  import opened A3xxStream
  import opened CommandBuffer
  import opened Ringbuffers

  const A3XX_SUBMIT_MAX := 55
  const A3XX_COMMAND_DWORDS := 4

  // ------------------------------------------------------ filling cmds

  /** The packets before the payload. */
  method Open(s: Submission, cmds: array<Word>, start: nat, ghost was: seq<Word>) returns (next: nat)
    requires Wrote(was, cmds[..], start, [], 0) && start + 22 <= cmds.Length
    modifies cmds
    ensures Wrote(was, cmds[..], start, Prologue(s), next) && next <= 22
  {
    hide Wrote, Lo, PowerOnFixup;
    var id := Nop(if s.ctx.Some? then CMD_IDENTIFIER else CMD_INTERNAL_IDENTIFIER);
    next := Emit(cmds, start, 0, id, was, []);
    assert [] + [id] == [id];
    if s.flags.pwronFixup {
      next := FillFixup(s, cmds, start, next, was, [id]);
    }
    ghost var ps1 := if s.flags.pwronFixup then PowerOnFixup(s, [id]) else [id];
    if s.pre.Some? {
      next := Emit(cmds, start, next, Indirect(s.pre.value), was, ps1);
    }
    ghost var ps2 := if s.pre.Some? then ps1 + [Indirect(s.pre.value)] else ps1;
    if s.ctx.Some? {
      next := Emit(cmds, start, next, MemWrite(s.ctx.value.sopAddr, s.timestamp), was, ps2);
    }
    ghost var ps3 := if s.ctx.Some? then ps2 + [MemWrite(s.ctx.value.sopAddr, s.timestamp)] else ps2;
    next := Emit(cmds, start, next, MemWrite(s.ring.sop, s.rbTimestamp), was, ps3);
    ghost var ps4 := ps3 + [MemWrite(s.ring.sop, s.rbTimestamp)];
    if s.flags.notProtected {
      next := Emit(cmds, start, next, ProtectedMode(0), was, ps4);
    }
  }

  method FillFixup(s: Submission, cmds: array<Word>, start: nat, index: nat, ghost was: seq<Word>, ghost ps: seq<Packet>)
    returns (next: nat)
    requires Wrote(was, cmds[..], start, ps, index) && start + index + 9 <= cmds.Length
    modifies cmds
    ensures Wrote(was, cmds[..], start, PowerOnFixup(s, ps), next) && next == index + 9
  {
    hide Wrote, Lo;
    next := Emit(cmds, start, index, ProtectedMode(0), was, ps);
    ghost var ps1 := ps + [ProtectedMode(0)];
    next := Emit(cmds, start, next, Nop(PWRON_FIXUP_IDENTIFIER), was, ps1);
    ghost var ps2 := ps1 + [Nop(PWRON_FIXUP_IDENTIFIER)];
    next := Emit(cmds, start, next, Indirect(s.fixup), was, ps2);
    next := Emit(cmds, start, next, ProtectedMode(0), was, ps2 + [Indirect(s.fixup)]);
  }

  method Restore(s: Submission, cmds: array<Word>, start: nat, index: nat, ghost was: seq<Word>, ghost ps: seq<Packet>)
    returns (next: nat)
    requires Wrote(was, cmds[..], start, ps, index) && start + index + 9 <= cmds.Length
    modifies cmds
    ensures Wrote(was, cmds[..], start, Settle(s, ps), next) && next <= index + 9
  {
    hide Wrote, Lo;
    next := index;
    if s.flags.notProtected {
      next := Emit(cmds, start, next, ProtectedMode(1), was, ps);
    }
    ghost var ps1 := if s.flags.notProtected then ps + [ProtectedMode(1)] else ps;
    next := Emit(cmds, start, next, HlsqFlush(), was, ps1);
    ghost var ps2 := ps1 + [HlsqFlush()];
    next := Emit(cmds, start, next, WaitForIdle(), was, ps2);
    ghost var ps3 := ps2 + [WaitForIdle()];
    if s.post.Some? {
      next := Emit(cmds, start, next, Indirect(s.post.value), was, ps3);
    }
  }

  method Close(s: Submission, cmds: array<Word>, start: nat, index: nat, ghost was: seq<Word>, ghost ps: seq<Packet>)
    returns (next: nat)
    requires Wrote(was, cmds[..], start, ps, index) && start + index + 13 <= cmds.Length
    modifies cmds
    ensures Wrote(was, cmds[..], start, Retire(s, ps), next) && next <= index + 13
  {
    hide Wrote, Lo;
    next := index;
    if s.ctx.Some? {
      next := Emit(cmds, start, next, EventWrite(s.ctx.value.eopAddr, s.timestamp, true), was, ps);
    }
    ghost var ps1 := if s.ctx.Some? then ps + [EventWrite(s.ctx.value.eopAddr, s.timestamp, true)] else ps;
    next := Emit(cmds, start, next, EventWrite(s.ring.eop, s.rbTimestamp, s.ctx.None?), was, ps1);
    ghost var ps2 := ps1 + [EventWrite(s.ring.eop, s.rbTimestamp, s.ctx.None?)];
    next := Emit(cmds, start, next, Rollover(), was, ps2);
    ghost var ps3 := ps2 + [Rollover()];
    if s.flags.wfi {
      next := Emit(cmds, start, next, WaitForIdle(), was, ps3);
    }
  }

  // ------------------------------------------------------- submissions

  method Fill(s: Submission, cmds: array<Word>, start: nat, input: array<Word>, dwords: nat,
              ghost was: seq<Word>, ghost payload: seq<Packet>) returns (index: nat)
    requires was == cmds[..] && start + A3XX_SUBMIT_MAX + dwords <= cmds.Length
    requires input != cmds && dwords <= input.Length && input[..dwords] == Flatten(payload)
    modifies cmds
    ensures Wrote(was, cmds[..], start, A3xxStream.AddCmds(s, payload), index)
    ensures index <= 44 + dwords
  {
    WroteNothing(was, start);
    hide Wrote;
    index := Open(s, cmds, start, was);
    index := Copy(cmds, start, index, input, dwords, was, Prologue(s), payload);
    index := Restore(s, cmds, start, index, was, Prologue(s) + payload);
    index := Close(s, cmds, start, index, was, Settle(s, Prologue(s) + payload));
  }

  method FillSpace(rb: Ringbuffer, s: Submission, pos: nat, size: nat, input: array<Word>, dwords: nat,
                   ghost payload: seq<Packet>)
    requires rb.Valid() && size == A3XX_SUBMIT_MAX + dwords
    requires rb.cursor == pos + size && Free(rb.rptr, pos, size)
    requires input != rb.buffer && dwords <= input.Length && input[..dwords] == Flatten(payload)
    modifies rb`cursor, rb.buffer
    ensures rb.Valid()
    ensures rb.Stream() == old(Live(rb.buffer[..], rb.rptr, pos)) + Flatten(A3xxStream.AddCmds(s, payload))
  {
    hide Live, Flatten, Wrote, A3xxStream.AddCmds;
    ghost var was := rb.buffer[..];
    var index := Fill(s, rb.buffer, pos, input, dwords, was, payload);
    rb.cursor := rb.cursor - (size - index);
    FreeSpaceIsAppended(was, rb.buffer[..], rb.rptr, pos, size, A3xxStream.AddCmds(s, payload), index);
  }

  /**
   a3xx_ringbuffer_addcmds. There is one ring and no preemption, so the new
   write pointer goes to the register at once.
   */
  method AddCmds(gpu: Gpu, rb: Ringbuffer, ctx: Option<Context>, detached: bool, fault: bool, flags: Flags,
                 input: array<Word>, dwords: nat, timestamp: nat, fixup: IbRef, pre: Option<IbRef>, post: Option<IbRef>,
                 ghost payload: seq<Packet>) returns (ret: Outcome)
    requires rb.Valid()
    requires input != rb.buffer && dwords <= input.Length && input[..dwords] == Flatten(payload)
    modifies rb`cursor, rb`wptr, rb`timestamp, rb.buffer, gpu`wptrRegister
    ensures rb.Valid()
    ensures ret == (if ctx.Some? && detached then NoEntry
                    else if fault then Fault
                    else if !Fits(rb.rptr, old(rb.cursor), A3XX_SUBMIT_MAX + dwords) then NoSpace
                    else Done)
    ensures rb.timestamp == if ret.NoEntry? || ret.Fault? then old(rb.timestamp) else Next(old(rb.timestamp))
    ensures !ret.Done? ==>
      rb.cursor == old(rb.cursor) && rb.wptr == old(rb.wptr) && rb.buffer[..] == old(rb.buffer[..]) && unchanged(gpu)
    ensures ret.Done? ==>
      && Adds(old(rb.Stream()), rb.Stream(),
           A3xxStream.AddCmds(Submission(rb.addr, ctx, flags, timestamp, rb.timestamp, fixup, pre, post), payload))
      && rb.wptr == rb.cursor && gpu.wptrRegister == rb.wptr
  {
    hide Live, Flatten, A3xxStream.AddCmds, Fits, Free, RingOk, ContextOk;
    if ctx.Some? && detached {
      return NoEntry;
    }
    if fault {
      return Fault;
    }
    rb.timestamp := Next(rb.timestamp);
    var size := A3XX_SUBMIT_MAX + dwords;
    var cmds := rb.AllocSpace(size);
    if cmds.None? {
      return NoSpace;
    }
    var s := Submission(rb.addr, ctx, flags, timestamp, rb.timestamp, fixup, pre, post);
    FillSpace(rb, s, cmds.value, size, input, dwords, payload);
    assert IsGap(old(rb.Gap(size)));
    gpu.wptrRegister := rb.cursor;
    rb.wptr := rb.cursor;
    return Done;
  }

  // --------------------------------------------------- context switches

  /** a3xx_vbif_lock after the packets that stall the prefetch. */
  method FillLock(setstate: nat, cmds: array<Word>, ghost was: seq<Word>) returns (index: nat)
    requires Wrote(was, cmds[..], 0, [], 0) && 23 <= cmds.Length
    modifies cmds
    ensures Wrote(was, cmds[..], 0, VbifLock(Stall(setstate, [])), index) && index == 23
  {
    hide Wrote, Lo;
    var ib := IbRef(setstate, 2);
    index := Emit(cmds, 0, 0, WaitForMe(), was, []);
    ghost var ps1 := [] + [WaitForMe()];
    index := Emit(cmds, 0, index, Indirect(ib), was, ps1);
    ghost var ps2 := ps1 + [Indirect(ib)];
    index := Emit(cmds, 0, index, WaitForIdle(), was, ps2);
    ghost var ps3 := ps2 + [WaitForIdle()];
    index := Emit(cmds, 0, index, WaitForMe(), was, ps3);
    ghost var ps4 := ps3 + [WaitForMe()];
    index := Emit(cmds, 0, index, WaitReg(A3XX_CP_WFI_PEND_CTR, 1, ALL_BITS), was, ps4);
    ghost var ps5 := ps4 + [WaitReg(A3XX_CP_WFI_PEND_CTR, 1, ALL_BITS)];
    index := Emit(cmds, 0, index, ModifyReg(A3XX_VBIF_HALT_CTRL0, ALL_BITS - 1, 1), was, ps5);
    ghost var ps6 := ps5 + [ModifyReg(A3XX_VBIF_HALT_CTRL0, ALL_BITS - 1, 1)];
    index := Emit(cmds, 0, index, WaitReg(A3XX_VBIF_HALT_CTRL1, 1, ALL_BITS), was, ps6);
  }

  /** a3xx_vbif_unlock and a3xx_tlbiall. */
  method FillUnlock(cmds: array<Word>, index: nat, ghost was: seq<Word>, ghost ps: seq<Packet>) returns (next: nat)
    requires Wrote(was, cmds[..], 0, ps, index) && index + 17 <= cmds.Length
    modifies cmds
    ensures Wrote(was, cmds[..], 0, TlbiAll(VbifUnlock(ps)), next) && next == index + 17
  {
    hide Wrote;
    next := Emit(cmds, 0, index, ModifyReg(A3XX_VBIF_HALT_CTRL0, ALL_BITS - 1, 0), was, ps);
    ghost var ps1 := ps + [ModifyReg(A3XX_VBIF_HALT_CTRL0, ALL_BITS - 1, 0)];
    next := Emit(cmds, 0, next, WaitForMe(), was, ps1);
    ghost var ps2 := ps1 + [WaitForMe()];
    next := Emit(cmds, 0, next, SmmuReg(SMMU_TLBIALL, 1), was, ps2);
    ghost var ps3 := ps2 + [SmmuReg(SMMU_TLBIALL, 1)];
    next := Emit(cmds, 0, next, SmmuReg(SMMU_TLBSYNC, 0), was, ps3);
    ghost var ps4 := ps3 + [SmmuReg(SMMU_TLBSYNC, 0)];
    next := Emit(cmds, 0, next, WaitReg(SMMU_TLBSTATUS, 0, 1), was, ps4);
  }

  /** a3xx_rb_pagetable_switch. */
  method PagetableSwitch(setstate: nat, ttbr0: nat, cmds: array<Word>, ghost was: seq<Word>) returns (index: nat)
    requires Wrote(was, cmds[..], 0, [], 0) && 50 <= cmds.Length
    modifies cmds
    ensures Wrote(was, cmds[..], 0, A3xxStream.PagetableSwitch(setstate, ttbr0), index) && index == 50
  {
    hide Wrote, Lo, Hi, VbifLock, Stall, TlbiAll, VbifUnlock;
    index := FillLock(setstate, cmds, was);
    ghost var ps1 := VbifLock(Stall(setstate, []));
    index := Emit(cmds, 0, index, SmmuRegPair(SMMU_TTBR0, Lo(ttbr0), Hi(ttbr0)), was, ps1);
    ghost var ps2 := ps1 + [SmmuRegPair(SMMU_TTBR0, Lo(ttbr0), Hi(ttbr0))];
    index := FillUnlock(cmds, index, was, ps2);
    ghost var ps3 := TlbiAll(VbifUnlock(ps2));
    index := Emit(cmds, 0, index, WaitForMe(), was, ps3);
    index := Emit(cmds, 0, index, WaitForIdle(), was, ps3 + [WaitForMe()]);
    index := Emit(cmds, 0, index, InvalidateState(), was, ps3 + [WaitForMe()] + [WaitForIdle()]);
  }

  method FillAnnouncement(ring: RingAddresses, ctx: Context, cmds: array<Word>, index: nat,
                          ghost was: seq<Word>, ghost ps: seq<Packet>) returns (next: nat)
    requires Wrote(was, cmds[..], 0, ps, index) && index + 11 <= cmds.Length
    modifies cmds
    ensures Wrote(was, cmds[..], 0, Announce(ring, ctx, ps), next) && next == index + 11
  {
    hide Wrote, Lo;
    next := Emit(cmds, 0, index, Nop(CONTEXT_TO_MEM_IDENTIFIER), was, ps);
    ghost var ps1 := ps + [Nop(CONTEXT_TO_MEM_IDENTIFIER)];
    next := Emit(cmds, 0, next, MemWrite(ring.currentContext, ctx.id), was, ps1);
    ghost var ps2 := ps1 + [MemWrite(ring.currentContext, ctx.id)];
    next := Emit(cmds, 0, next, MemWrite(ring.globalCurrentContext, ctx.id), was, ps2);
    next := Emit(cmds, 0, next, InvalidateUche(), was, ps2 + [MemWrite(ring.globalCurrentContext, ctx.id)]);
  }

  function NewTable(active: Option<Context>, ctx: Context): bool {
    active.None? || active.value.ttbr0 != ctx.ttbr0
  }

  /** The array of a3xx_rb_context_switch. */
  method FillContextSwitch(rb: Ringbuffer, setstate: nat, ctx: Context, cmds: array<Word>) returns (index: nat)
    requires cmds.Length == 64
    modifies cmds
    ensures index <= 61
    ensures cmds[..index] == Flatten(ContextSwitch(rb.addr, setstate, ctx, NewTable(rb.active, ctx)))
  {
    ghost var was := cmds[..];
    WroteNothing(was, 0);
    hide Wrote, A3xxStream.PagetableSwitch, Announce;
    index := 0;
    ghost var ps := [];
    if rb.active.None? || rb.active.value.ttbr0 != ctx.ttbr0 {
      index := PagetableSwitch(setstate, ctx.ttbr0, cmds, was);
      ps := A3xxStream.PagetableSwitch(setstate, ctx.ttbr0);
    }
    index := FillAnnouncement(rb.addr, ctx, cmds, index, was, ps);
    WroteAll(was, cmds[..], ContextSwitch(rb.addr, setstate, ctx, NewTable(rb.active, ctx)), index);
  }

  function SwitchCmds(ring: RingAddresses, setstate: nat, ctx: Context, newTable: bool,
                      rbTimestamp: nat, fixup: IbRef): seq<Packet>
  {
    var s := Submission(ring, None, NoFlags.(notProtected := true), 0, rbTimestamp, fixup, None, None);
    A3xxStream.AddCmds(s, ContextSwitch(ring, setstate, ctx, newTable))
  }

  /** a3xx_rb_context_switch. */
  method RbContextSwitch(gpu: Gpu, rb: Ringbuffer, setstate: nat, ctx: Context, fault: bool, fixup: IbRef)
    returns (ret: Outcome)
    requires rb.Valid() && ContextOk(ctx)
    modifies rb`cursor, rb`wptr, rb`timestamp, rb.buffer, gpu`wptrRegister
    ensures rb.Valid()
    ensures var payload := ContextSwitch(rb.addr, setstate, ctx, NewTable(rb.active, ctx));
      && ret == (if fault then Fault
                 else if !Fits(rb.rptr, old(rb.cursor), A3XX_SUBMIT_MAX + Size(payload)) then NoSpace else Done)
      && (ret.Done? ==>
            Adds(old(rb.Stream()), rb.Stream(),
              SwitchCmds(rb.addr, setstate, ctx, NewTable(rb.active, ctx), rb.timestamp, fixup)))
    ensures rb.timestamp == if ret.Fault? then old(rb.timestamp) else Next(old(rb.timestamp))
    ensures !ret.Done? ==>
      rb.cursor == old(rb.cursor) && rb.wptr == old(rb.wptr) && rb.buffer[..] == old(rb.buffer[..]) && unchanged(gpu)
    ensures ret.Done? ==> rb.wptr == rb.cursor && gpu.wptrRegister == rb.wptr
  {
    hide Live, Flatten, A3xxStream.AddCmds, ContextSwitch, Adds, Fits, RingOk, ContextOk;
    var cmds := new Word[64](_ => Data(0));
    var count := FillContextSwitch(rb, setstate, ctx, cmds);
    ret := AddCmds(gpu, rb, None, false, fault, NoFlags.(notProtected := true), cmds, count, 0, fixup, None, None,
      ContextSwitch(rb.addr, setstate, ctx, NewTable(rb.active, ctx)));
  }

  // ------------------------------------------------------- draw objects

  /** The buffer of a3xx_ringbuffer_submitcmd. */
  method FillSubmitCmd(obj: DrawObj, flags: Flags, cmds: array<Word>) returns (index: nat)
    requires cmds.Length == A3XX_COMMAND_DWORDS + 4 * (if flags.skip then 0 else |obj.ibs|)
    modifies cmds
    ensures index <= cmds.Length && cmds[..index] == Flatten(A3xxStream.SubmitCmd(obj, flags))
  {
    ghost var was := cmds[..];
    WroteNothing(was, 0);
    hide Wrote, IbPackets;
    var ibs := if flags.skip then [] else obj.ibs;
    index := Emit(cmds, 0, 0, Nop(START_IB_IDENTIFIER), was, []);
    ghost var ps := [Nop(START_IB_IDENTIFIER)];
    assert [] + ps == ps;
    index := FillIbs(cmds, index, flags, ibs, IbPacket, 4, was, ps);
    index := Emit(cmds, 0, index, Nop(END_IB_IDENTIFIER), was, IbPackets(flags, ibs, ps));
    WroteAll(was, cmds[..], A3xxStream.SubmitCmd(obj, flags), index);
  }

  /**
   a3xx_ringbuffer_submitcmd with a3xx_drawctxt_switch; parameters and ghost
   results as for the A5xx.
   */
  method SubmitCmd(gpu: Gpu, rb: Ringbuffer, setstate: nat, obj: DrawObj, flags: Flags, memory: bool, refused: bool,
                   detached: bool, faults: (bool, bool), fixup: IbRef, pre: Option<IbRef>, post: Option<IbRef>)
    returns (ret: Outcome, ghost mid: seq<Word>, ghost switched: bool)
    requires rb.Valid() && ContextOk(obj.ctx)
    modifies rb`cursor, rb`wptr, rb`timestamp, rb`active, rb.buffer, gpu`wptrRegister
    ensures rb.Valid()
    ensures ret.NoMemory? <==> !memory
    ensures memory && old(rb.active) != Some(obj.ctx) && refused ==> ret.NoEntry?
    ensures !memory || (old(rb.active) != Some(obj.ctx) && refused) ==>
      gpu.wptrRegister == old(gpu.wptrRegister) && rb.active == old(rb.active) && rb.Stream() == old(rb.Stream()) && rb.timestamp == old(rb.timestamp)
    ensures memory && (old(rb.active) == Some(obj.ctx) || !refused) ==>
      && rb.active == Some(obj.ctx)
      && (if switched
          then Adds(old(rb.Stream()), mid,
                 SwitchCmds(rb.addr, setstate, obj.ctx, NewTable(old(rb.active), obj.ctx), Next(old(rb.timestamp)), fixup))
          else mid == old(rb.Stream()))
      && (switched <==>
            && old(rb.active) != Some(obj.ctx) && !faults.0
            && Fits(rb.rptr, old(rb.cursor), A3XX_SUBMIT_MAX
                 + Size(ContextSwitch(rb.addr, setstate, obj.ctx, NewTable(old(rb.active), obj.ctx)))))
      && ret == (if detached then NoEntry else if faults.1 then Fault
                 else if !Fits(rb.rptr, (rb.rptr + |mid|) % RB_DWORDS, A3XX_SUBMIT_MAX + Size(A3xxStream.SubmitCmd(obj, flags)))
                 then NoSpace else Done)
      && (if ret.Done?
          then
            && Adds(mid, rb.Stream(),
                 A3xxStream.AddCmds(Submission(rb.addr, Some(obj.ctx), flags, obj.timestamp, rb.timestamp, fixup, pre, post),
                   A3xxStream.SubmitCmd(obj, flags)))
            && rb.wptr == rb.cursor == gpu.wptrRegister
          else
            && rb.Stream() == mid)
    ensures memory && (old(rb.active) == Some(obj.ctx) || !refused) ==>
      var ts := if old(rb.active) == Some(obj.ctx) || faults.0 then old(rb.timestamp) else Next(old(rb.timestamp));
      rb.timestamp == if ret.Done? || ret.NoSpace? then Next(ts) else ts
  {
    hide Adds, Live, RingOk, ContextOk, Flatten, A3xxStream.SubmitCmd, A3xxStream.AddCmds, SwitchCmds, Fits,
      ContextSwitch, NewTable, Next, Size;
    SizeIs(A3xxStream.SubmitCmd(obj, flags));
    switched, mid := false, rb.Stream();
    if !memory {
      return NoMemory, mid, switched;
    }
    var numibs := if flags.skip then 0 else |obj.ibs|;
    var cmds := new Word[A3XX_COMMAND_DWORDS + numibs * 4](_ => Data(0));
    var index := FillSubmitCmd(obj, flags, cmds);
    if rb.active != Some(obj.ctx) {
      if refused {
        return NoEntry, mid, switched;
      }
      var dropped := RbContextSwitch(gpu, rb, setstate, obj.ctx, faults.0, fixup);
      switched := dropped.Done?;
      rb.active := Some(obj.ctx);
      mid := rb.Stream();
    }
    CursorOf(rb.buffer[..], rb.rptr, rb.cursor);
    ret := AddCmds(gpu, rb, Some(obj.ctx), detached, faults.1, flags, cmds, index, obj.timestamp, fixup, pre, post,
      A3xxStream.SubmitCmd(obj, flags));
  }
}
