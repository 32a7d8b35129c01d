/**
 adreno_a5xx_ringbuffer.c as it fills buffers and advances ring pointers. The
 methods are proved against the streams of A5xxStream, whose meaning and size
 are the subject of A5xxMeaning and A5xxBounds.
 */
module A5xxRingbuffer {
  import opened Wrappers
  import opened Pm4
  import opened CommandProcessor
  import opened Submissions
  import opened StreamBounds
  import opened StreamMeaning
  import opened A5xxStream
  import opened A5xxBounds
  import opened CommandBuffer
  import opened Ringbuffers

  const A5XX_SUBMIT_MAX := 64
  const A5XX_COMMAND_DWORDS := 32

  // ------------------------------------------------------ filling cmds

  /** a5xx_preemption_pre_ibsubmit. */
  method PreIbSubmit(t: Target, s: Submission, cmds: array<Word>, start: nat, index: nat,
                     ghost was: seq<Word>, ghost ps: seq<Packet>) returns (next: nat)
    requires Wrote(was, cmds[..], start, ps, index) && start + index + 14 <= cmds.Length
    modifies cmds
    ensures Wrote(was, cmds[..], start, A5xxStream.PreIbSubmit(t, s, ps), next)
    ensures index <= next <= index + 14
  {
    hide Wrote;
    next := index;
    if t.preemption {
      var finegrain := Finegrain(s.ctx);
      ghost var ps1 := ps + [Global(if finegrain then 2 else 0)];
      next := Emit(cmds, start, next, Global(if finegrain then 2 else 0), was, ps);
      ghost var ps2 := ps1 + [ProtectedMode(0)];
      next := Emit(cmds, start, next, ProtectedMode(0), was, ps1);
      ghost var ps3 := ps2 + [Reg(A5XX_CP_CONTEXT_SWITCH_SAVE_ADDR_LO, Lo(s.ring.desc))];
      next := Emit(cmds, start, next, Reg(A5XX_CP_CONTEXT_SWITCH_SAVE_ADDR_LO, Lo(s.ring.desc)), was, ps2);
      ghost var ps4 := ps3 + [Reg(A5XX_CP_CONTEXT_SWITCH_SAVE_ADDR_HI, Hi(s.ring.desc))];
      next := Emit(cmds, start, next, Reg(A5XX_CP_CONTEXT_SWITCH_SAVE_ADDR_HI, Hi(s.ring.desc)), was, ps3);
      ghost var ps5 := ps4 + [ProtectedMode(1)];
      next := Emit(cmds, start, next, ProtectedMode(1), was, ps4);
      ghost var ps6 := ps5 + [Local(if finegrain then 1 else 0)];
      next := Emit(cmds, start, next, Local(if finegrain then 1 else 0), was, ps5);
      next := Emit(cmds, start, next, YieldEnable(2), was, ps6);
    }
  }

  /** The part of a5xx_ringbuffer_addcmds before the payload. */
  method Open(t: Target, s: Submission, cmds: array<Word>, start: nat, ghost was: seq<Word>) returns (next: nat)
    requires Wrote(was, cmds[..], start, [], 0) && start + 32 <= cmds.Length
    modifies cmds
    ensures Wrote(was, cmds[..], start, Prologue(t, s), next) && next <= 32
  {
    hide Wrote, A5xxStream.PreIbSubmit;
    var id := Nop(if s.ctx.Some? then CMD_IDENTIFIER else CMD_INTERNAL_IDENTIFIER);
    next := Emit(cmds, start, 0, id, was, []);
    assert [] + [id] == [id];
    next := PreIbSubmit(t, s, cmds, start, next, was, [id]);
    ghost var ps1 := A5xxStream.PreIbSubmit(t, s, [id]);
    if s.pre.Some? {
      next := Emit(cmds, start, next, Indirect(s.pre.value), was, ps1);
    }
    ghost var ps2 := if s.pre.Some? then ps1 + [Indirect(s.pre.value)] else ps1;
    if s.ctx.Some? {
      next := Emit(cmds, start, next, MemWrite(s.ctx.value.sopAddr, s.timestamp), was, ps2);
    }
    ghost var ps3 := if s.ctx.Some? then ps2 + [MemWrite(s.ctx.value.sopAddr, s.timestamp)] else ps2;
    next := Emit(cmds, start, next, MemWrite(s.ring.sop, s.rbTimestamp), was, ps3);
    ghost var ps4 := ps3 + [MemWrite(s.ring.sop, s.rbTimestamp)];
    if s.flags.secure {
      next := Emit(cmds, start, next, SecureMode(1), was, ps4);
    }
    ghost var ps5 := if s.flags.secure then ps4 + [SecureMode(1)] else ps4;
    if s.flags.notProtected {
      next := Emit(cmds, start, next, ProtectedMode(0), was, ps5);
    }
  }

  /** The part of a5xx_ringbuffer_addcmds after the payload, up to the unique memory write. */
  method Restore(t: Target, s: Submission, cmds: array<Word>, start: nat, index: nat,
                 ghost was: seq<Word>, ghost ps: seq<Packet>) returns (next: nat)
    requires Wrote(was, cmds[..], start, ps, index) && start + index + 11 <= cmds.Length
    modifies cmds
    ensures Wrote(was, cmds[..], start, Settle(t, s, ps), next)
    ensures next <= index + 11
  {
    hide Wrote;
    next := index;
    if s.flags.notProtected {
      next := Emit(cmds, start, next, ProtectedMode(1), was, ps);
    }
    ghost var ps1 := if s.flags.notProtected then ps + [ProtectedMode(1)] else ps;
    if s.post.Some? {
      next := Emit(cmds, start, next, Indirect(s.post.value), was, ps1);
    }
    ghost var ps2 := if s.post.Some? then ps1 + [Indirect(s.post.value)] else ps1;
    if t.waitMemWrites {
      next := Emit(cmds, start, next, WaitMemWrites(), was, ps2);
    }
    ghost var ps3 := if t.waitMemWrites then ps2 + [WaitMemWrites()] else ps2;
    next := Emit(cmds, start, next, MemWrite(s.ring.refWaitTs, s.sequence), was, ps3);
  }

  /** The rest of a5xx_ringbuffer_addcmds, with a5xx_preemption_post_ibsubmit. */
  method Close(t: Target, s: Submission, cmds: array<Word>, start: nat, index: nat,
               ghost was: seq<Word>, ghost ps: seq<Packet>) returns (next: nat)
    requires Wrote(was, cmds[..], start, ps, index) && start + index + 18 <= cmds.Length
    modifies cmds
    ensures Wrote(was, cmds[..], start, Retire(t, s, ps), next)
    ensures next <= index + (if t.preemption then 18 else 13)
  {
    hide Wrote;
    next := index;
    if s.ctx.Some? {
      next := Emit(cmds, start, next, EventWrite(s.ctx.value.eopAddr, s.timestamp, true), was, ps);
    }
    ghost var ps1 := if s.ctx.Some? then ps + [EventWrite(s.ctx.value.eopAddr, s.timestamp, true)] else ps;
    next := Emit(cmds, start, next, EventWrite(s.ring.eop, s.rbTimestamp, s.ctx.None?), was, ps1);
    ghost var ps2 := ps1 + [EventWrite(s.ring.eop, s.rbTimestamp, s.ctx.None?)];
    if s.flags.wfi {
      next := Emit(cmds, start, next, WaitForIdle(), was, ps2);
    }
    ghost var ps3 := if s.flags.wfi then ps2 + [WaitForIdle()] else ps2;
    if s.flags.secure {
      next := Emit(cmds, start, next, SecureMode(0), was, ps3);
    }
    ghost var ps4 := if s.flags.secure then ps3 + [SecureMode(0)] else ps3;
    if t.preemption {
      next := Emit(cmds, start, next, ContextSwitchYield(), was, ps4);
    }
  }

  // ------------------------------------------------------- submissions

  /** What follows the commands when preemption is off: a report of the read pointer. */
  function Report(t: Target, ring: RingAddresses): seq<Packet> {
    if t.preemption then [] else [WhereAmI(ring.scratchRptr)]
  }

  /** The CP_WHERE_AM_I of a5xx_ringbuffer_submit. */
  method ReportRptr(rb: Ringbuffer) returns (ret: Outcome)
    requires rb.Valid()
    modifies rb`cursor, rb.buffer
    ensures rb.Valid()
    ensures ret == if Fits(rb.rptr, old(rb.cursor), 3) then Done else NoSpace
    ensures ret.NoSpace? ==> rb.cursor == old(rb.cursor) && rb.buffer[..] == old(rb.buffer[..])
    ensures ret.Done? ==>
      rb.Stream() == old(rb.Stream()) + old(rb.Gap(3)) + Words(WhereAmI(rb.addr.scratchRptr))
  {
    hide Live, Flatten, Wrote, Lo, Hi;
    var cmds := rb.AllocSpace(3);
    if cmds.None? {
      return NoSpace;
    }
    ghost var was := rb.buffer[..];
    var p := WhereAmI(rb.addr.scratchRptr);
    WroteNothing(was, cmds.value);
    var index := Emit(rb.buffer, cmds.value, 0, p, was, []);
    assert [] + [p] == [p];
    FlattenOne(p);
    FreeSpaceIsAppended(was, rb.buffer[..], rb.rptr, cmds.value, 3, [p], index);
    return Done;
  }

  /** a5xx_ringbuffer_submit. */
  method Submit(gpu: Gpu, rb: Ringbuffer, sync: bool) returns (ret: Outcome)
    requires rb.Valid()
    modifies rb`cursor, rb`wptr, rb.buffer, gpu`wptrRegister
    ensures rb.Valid()
    ensures ret == if sync && !Fits(rb.rptr, old(rb.cursor), 3) then NoSpace else Done
    ensures ret.NoSpace? ==> unchanged(rb) && rb.buffer[..] == old(rb.buffer[..]) && unchanged(gpu)
    ensures ret.Done? ==>
      && rb.wptr == rb.cursor
      && rb.Stream() == old(rb.Stream())
           + (if sync then old(rb.Gap(3)) + Words(WhereAmI(rb.addr.scratchRptr)) else [])
    ensures ret.Done? && gpu.none && gpu.current == rb.id ==> gpu.wptrRegister == rb.wptr
    ensures !gpu.none || gpu.current != rb.id ==> gpu.wptrRegister == old(gpu.wptrRegister)
  {
    if sync {
      ret := ReportRptr(rb);
      if ret.NoSpace? {
        return;
      }
    }
    if gpu.none {
      if gpu.current == rb.id {
        gpu.wptrRegister := rb.cursor;
      }
    }
    rb.wptr := rb.cursor;
    return Done;
  }

  /** The commands of a submission, written into reserved space. */
  method Fill(t: Target, s: Submission, cmds: array<Word>, start: nat, input: array<Word>, dwords: nat,
              ghost was: seq<Word>, ghost payload: seq<Packet>) returns (index: nat)
    requires was == cmds[..] && start + A5XX_SUBMIT_MAX + dwords <= cmds.Length
    requires input != cmds && dwords <= input.Length && input[..dwords] == Flatten(payload)
    modifies cmds
    ensures Wrote(was, cmds[..], start, A5xxStream.AddCmds(t, s, payload), index)
    ensures index <= 61 + dwords
  {
    WroteNothing(was, start);
    hide Wrote;
    index := Open(t, s, cmds, start, was);
    ghost var ps := Prologue(t, s);
    index := Copy(cmds, start, index, input, dwords, was, ps, payload);
    index := Restore(t, s, cmds, start, index, was, ps + payload);
    index := Close(t, s, cmds, start, index, was, Settle(t, s, ps + payload));
  }

  /** Filling the reservation and giving back what was not needed of it. */
  method FillSpace(rb: Ringbuffer, t: Target, s: Submission, pos: nat, size: nat, input: array<Word>, dwords: nat,
                   ghost payload: seq<Packet>)
    requires rb.Valid() && size == A5XX_SUBMIT_MAX + dwords
    requires rb.cursor == pos + size && Free(rb.rptr, pos, size)
    requires input != rb.buffer && dwords <= input.Length && input[..dwords] == Flatten(payload)
    modifies rb`cursor, rb.buffer
    ensures rb.Valid() && Fits(rb.rptr, rb.cursor, 3) && rb.Gap(3) == []
    ensures rb.Stream() == old(Live(rb.buffer[..], rb.rptr, pos)) + Flatten(A5xxStream.AddCmds(t, s, payload))
  {
    hide Live, Flatten, Wrote, A5xxStream.AddCmds;
    ghost var was := rb.buffer[..];
    var index := Fill(t, s, rb.buffer, pos, input, dwords, was, payload);
    rb.cursor := rb.cursor - (size - index);
    FreeSpaceIsAppended(was, rb.buffer[..], rb.rptr, pos, size, A5xxStream.AddCmds(t, s, payload), index);
  }

  /** The rest of a5xx_ringbuffer_addcmds once there is space: the commands and the submit, which then cannot fail. */
  method WriteAndSubmit(gpu: Gpu, rb: Ringbuffer, t: Target, s: Submission, pos: nat, size: nat,
                        input: array<Word>, dwords: nat, ghost payload: seq<Packet>)
    requires rb.Valid() && size == A5XX_SUBMIT_MAX + dwords
    requires rb.cursor == pos + size && Free(rb.rptr, pos, size)
    requires input != rb.buffer && dwords <= input.Length && input[..dwords] == Flatten(payload)
    modifies rb`cursor, rb`wptr, rb.buffer, gpu`wptrRegister
    ensures rb.Valid()
    ensures rb.Stream() == old(Live(rb.buffer[..], rb.rptr, pos)) + Flatten(A5xxStream.AddCmds(t, s, payload))
                           + (if t.preemption then [] else Words(WhereAmI(rb.addr.scratchRptr)))
    ensures rb.wptr == rb.cursor
    ensures gpu.none && gpu.current == rb.id ==> gpu.wptrRegister == rb.wptr
    ensures !gpu.none || gpu.current != rb.id ==> gpu.wptrRegister == old(gpu.wptrRegister)
  {
    hide Live, Flatten, A5xxStream.AddCmds, Fits, Free, RingOk, ContextOk, WhereAmI, Words;
    FillSpace(rb, t, s, pos, size, input, dwords, payload);
    ghost var gap := rb.Gap(3);
    var dropped := Submit(gpu, rb, !t.preemption);
  }

  /** The exits of a5xx_ringbuffer_addcmds, and the space it reserves otherwise. */
  method Reserve(rb: Ringbuffer, detached: bool, fault: bool, size: nat) returns (ret: Outcome, pos: nat)
    requires rb.Valid()
    modifies rb`cursor, rb`timestamp, rb.buffer
    ensures rb.Valid()
    ensures ret == if detached then NoEntry else if fault then Fault
                   else if !Fits(rb.rptr, old(rb.cursor), size) then NoSpace else Done
    ensures rb.timestamp == if ret.NoEntry? || ret.Fault? then old(rb.timestamp) else Next(old(rb.timestamp))
    ensures !ret.Done? ==> rb.cursor == old(rb.cursor) && rb.buffer[..] == old(rb.buffer[..])
    ensures ret.Done? ==>
      && rb.cursor == pos + size && Free(rb.rptr, pos, size)
      && IsGap(old(rb.Gap(size)))
      && Live(rb.buffer[..], rb.rptr, pos) == old(rb.Stream()) + old(rb.Gap(size))
  {
    hide Live, IsGap, Fits, Free, RingOk, ContextOk, Next;
    pos := 0;
    if detached {
      return NoEntry, 0;
    }
    if fault {
      return Fault, 0;
    }
    rb.timestamp := Next(rb.timestamp);
    var cmds := rb.AllocSpace(size);
    if cmds.None? {
      return NoSpace, 0;
    }
    return Done, cmds.value;
  }

  /**
   a5xx_ringbuffer_addcmds. `detached` and `fault` say whether the context has
   been detached and whether a GPU fault is pending; `pre` and `post` are the
   IBs of adreno_profile. The result of the final submit is dropped; it is
   always a success because the reservation leaves room for the report.
   */
  method AddCmds(gpu: Gpu, rb: Ringbuffer, t: Target, ctx: Option<Context>, detached: bool, fault: bool, flags: Flags,
                 input: array<Word>, dwords: nat, timestamp: nat, pre: Option<IbRef>, post: Option<IbRef>,
                 ghost payload: seq<Packet>) returns (ret: Outcome)
    requires rb.Valid()
    requires input != rb.buffer && dwords <= input.Length && input[..dwords] == Flatten(payload)
    modifies rb`cursor, rb`wptr, rb`timestamp, rb.buffer, gpu`wptrRegister, gpu`sequence
    ensures rb.Valid()
    ensures ret == (if ctx.Some? && detached then NoEntry
                    else if fault then Fault
                    else if !Fits(rb.rptr, old(rb.cursor), A5XX_SUBMIT_MAX + dwords) then NoSpace
                    else Done)
    ensures rb.timestamp == if ret.NoEntry? || ret.Fault? then old(rb.timestamp) else Next(old(rb.timestamp))
    ensures !ret.Done? ==>
      rb.cursor == old(rb.cursor) && rb.wptr == old(rb.wptr) && rb.buffer[..] == old(rb.buffer[..]) && unchanged(gpu)
    ensures ret.Done? ==>
      && gpu.sequence == Next(old(gpu.sequence))
      && Adds(old(rb.Stream()), rb.Stream(),
           A5xxStream.AddCmds(t, Submission(rb.addr, ctx, flags, timestamp, rb.timestamp, gpu.sequence, pre, post), payload)
           + Report(t, rb.addr))
      && rb.wptr == rb.cursor
    ensures ret.Done? && gpu.none && gpu.current == rb.id ==> gpu.wptrRegister == rb.wptr
    ensures !gpu.none || gpu.current != rb.id ==> gpu.wptrRegister == old(gpu.wptrRegister)
  {
    hide Live, Flatten, A5xxStream.AddCmds, Adds, IsGap, WhereAmI, Report, Fits, Free, RingOk, ContextOk,
      Next, U32, Words, Lo, Hi;
    var size := A5XX_SUBMIT_MAX + dwords;
    var pos;
    ret, pos := Reserve(rb, ctx.Some? && detached, fault, size);
    if !ret.Done? {
      return;
    }
    gpu.sequence := Next(gpu.sequence);
    var s := Submission(rb.addr, ctx, flags, timestamp, rb.timestamp, gpu.sequence, pre, post);
    WriteAndSubmit(gpu, rb, t, s, pos, size, input, dwords, payload);
    ReportIsAppended(t, rb.addr, old(rb.Stream()), old(rb.Gap(size)), A5xxStream.AddCmds(t, s, payload), rb.Stream());
  }

  // --------------------------------------------------- context switches

  /** a5xx_rb_pagetable_switch, for a table other than the default one. */
  method PagetableSwitch(ring: RingAddresses, id: nat, ttbr0: nat, cmds: array<Word>, ghost was: seq<Word>)
    returns (index: nat)
    requires Wrote(was, cmds[..], 0, [], 0) && 18 <= cmds.Length
    modifies cmds
    ensures Wrote(was, cmds[..], 0, A5xxStream.PagetableSwitch(ring, id, ttbr0, []), index) && index == 18
  {
    hide Wrote, Lo, Hi;
    index := Emit(cmds, 0, 0, TableUpdate(ttbr0, id), was, []);
    ghost var ps1 := [] + [TableUpdate(ttbr0, id)];
    index := Emit(cmds, 0, index, WaitForIdle(), was, ps1);
    index := Emit(cmds, 0, index, WaitForMe(), was, ps1 + [WaitForIdle()]);
    ghost var ps2 := ps1 + [WaitForIdle()] + [WaitForMe()];
    index := Emit(cmds, 0, index, Reg(A5XX_CP_CNTL, 1), was, ps2);
    ghost var ps3 := ps2 + [Reg(A5XX_CP_CNTL, 1)];
    index := Emit(cmds, 0, index, ScratchTable(ring.scratchTtbr0, ttbr0, id), was, ps3);
    ghost var ps4 := ps3 + [ScratchTable(ring.scratchTtbr0, ttbr0, id)];
    index := Emit(cmds, 0, index, WaitForIdle(), was, ps4);
    index := Emit(cmds, 0, index, WaitForMe(), was, ps4 + [WaitForIdle()]);
    index := Emit(cmds, 0, index, Reg(A5XX_CP_CNTL, 0), was, ps4 + [WaitForIdle()] + [WaitForMe()]);
  }

  /** Whether a switch from one context to another has to change the page table. */
  function NewTable(active: Option<Context>, ctx: Context, defaultTtbr0: nat): bool {
    (active.None? || active.value.ttbr0 != ctx.ttbr0) && ctx.ttbr0 != defaultTtbr0
  }

  /** The array of a5xx_rb_context_switch. */
  method FillContextSwitch(gpu: Gpu, rb: Ringbuffer, ctx: Context, cmds: array<Word>) returns (index: nat)
    requires cmds.Length == 32
    modifies cmds
    ensures index <= 30
    ensures cmds[..index] == Flatten(ContextSwitch(rb.addr, ctx, NewTable(rb.active, ctx, gpu.defaultTtbr0)))
  {
    ghost var was := cmds[..];
    WroteNothing(was, 0);
    hide Wrote, Lo, Hi, A5xxStream.PagetableSwitch;
    index := 0;
    ghost var ps := [];
    if rb.active.None? || rb.active.value.ttbr0 != ctx.ttbr0 {
      if ctx.ttbr0 != gpu.defaultTtbr0 {
        index := PagetableSwitch(rb.addr, ctx.id, ctx.ttbr0, cmds, was);
        ps := A5xxStream.PagetableSwitch(rb.addr, ctx.id, ctx.ttbr0, []);
      }
    }
    index := FillAnnouncement(rb.addr, ctx, cmds, index, was, ps);
    WroteAll(was, cmds[..], ContextSwitch(rb.addr, ctx, NewTable(rb.active, ctx, gpu.defaultTtbr0)), index);
  }

  method FillAnnouncement(ring: RingAddresses, ctx: Context, cmds: array<Word>, index: nat,
                          ghost was: seq<Word>, ghost ps: seq<Packet>) returns (next: nat)
    requires Wrote(was, cmds[..], 0, ps, index) && index + 12 <= cmds.Length
    modifies cmds
    ensures Wrote(was, cmds[..], 0, Announce(ring, ctx, ps), next) && next == index + 12
  {
    hide Wrote, Lo, Hi;
    next := Emit(cmds, 0, index, Nop(CONTEXT_TO_MEM_IDENTIFIER), was, ps);
    ghost var ps1 := ps + [Nop(CONTEXT_TO_MEM_IDENTIFIER)];
    next := Emit(cmds, 0, next, MemWrite(ring.currentContext, ctx.id), was, ps1);
    ghost var ps2 := ps1 + [MemWrite(ring.currentContext, ctx.id)];
    next := Emit(cmds, 0, next, MemWrite(ring.globalCurrentContext, ctx.id), was, ps2);
    ghost var ps3 := ps2 + [MemWrite(ring.globalCurrentContext, ctx.id)];
    next := Emit(cmds, 0, next, Reg(A5XX_UCHE_INVALIDATE0, 0x12), was, ps3);
  }

  /** The commands with which a ring is switched to a context. */
  function SwitchCmds(t: Target, ring: RingAddresses, ctx: Context, newTable: bool,
                      rbTimestamp: nat, sequence: nat): seq<Packet>
  {
    var s := Submission(ring, None, NoFlags.(notProtected := true), 0, rbTimestamp, sequence, None, None);
    A5xxStream.AddCmds(t, s, ContextSwitch(ring, ctx, newTable)) + Report(t, ring)
  }

  /** a5xx_rb_context_switch. */
  method RbContextSwitch(gpu: Gpu, rb: Ringbuffer, t: Target, ctx: Context, fault: bool) returns (ret: Outcome)
    requires rb.Valid() && ContextOk(ctx)
    modifies rb`cursor, rb`wptr, rb`timestamp, rb.buffer, gpu`wptrRegister, gpu`sequence
    ensures rb.Valid()
    ensures var newTable := NewTable(rb.active, ctx, gpu.defaultTtbr0);
      && ret == (if fault then Fault
                 else if !Fits(rb.rptr, old(rb.cursor), A5XX_SUBMIT_MAX + Size(ContextSwitch(rb.addr, ctx, newTable)))
                 then NoSpace else Done)
      && (ret.Done? ==>
            && gpu.sequence == Next(old(gpu.sequence))
            && Adds(old(rb.Stream()), rb.Stream(), SwitchCmds(t, rb.addr, ctx, newTable, rb.timestamp, gpu.sequence)))
    ensures rb.timestamp == if ret.Fault? then old(rb.timestamp) else Next(old(rb.timestamp))
    ensures !ret.Done? ==>
      rb.cursor == old(rb.cursor) && rb.wptr == old(rb.wptr) && rb.buffer[..] == old(rb.buffer[..]) && unchanged(gpu)
    ensures ret.Done? ==> rb.wptr == rb.cursor
    ensures gpu.none && gpu.current == rb.id && old(gpu.wptrRegister) == old(rb.wptr) ==> gpu.wptrRegister == rb.wptr
    ensures !gpu.none || gpu.current != rb.id ==> gpu.wptrRegister == old(gpu.wptrRegister)
  {
    hide Live, Flatten, A5xxStream.AddCmds, ContextSwitch, Adds, Report, Fits, RingOk, ContextOk;
    var cmds := new Word[32](_ => Data(0));
    var count := FillContextSwitch(gpu, rb, ctx, cmds);
    ret := AddCmds(gpu, rb, t, None, false, fault, NoFlags.(notProtected := true), cmds, count, 0, None, None,
      ContextSwitch(rb.addr, ctx, NewTable(rb.active, ctx, gpu.defaultTtbr0)));
  }

  /**
   a5xx_drawctxt_switch. `refused` says that the context is detached or cannot
   be referenced. The outcome of the context switch is dropped.
   */
  method DrawctxtSwitch(gpu: Gpu, rb: Ringbuffer, t: Target, ctx: Context, refused: bool, fault: bool)
    returns (ret: Outcome, ghost switched: bool)
    requires rb.Valid() && ContextOk(ctx)
    modifies rb`cursor, rb`wptr, rb`timestamp, rb`active, rb.buffer, gpu`wptrRegister, gpu`sequence
    ensures rb.Valid()
    ensures ret == if old(rb.active) != Some(ctx) && refused then NoEntry else Done
    ensures ret.NoEntry? ==>
      unchanged(rb) && rb.buffer[..] == old(rb.buffer[..]) && unchanged(gpu) && !switched
    ensures ret.Done? ==> rb.active == Some(ctx)
    ensures var newTable := NewTable(old(rb.active), ctx, gpu.defaultTtbr0);
      && (switched <==>
            && ret.Done? && old(rb.active) != Some(ctx) && !fault
            && Fits(rb.rptr, old(rb.cursor), A5XX_SUBMIT_MAX + Size(ContextSwitch(rb.addr, ctx, newTable))))
      && (if switched
          then
            && gpu.sequence == Next(old(gpu.sequence))
            && Adds(old(rb.Stream()), rb.Stream(), SwitchCmds(t, rb.addr, ctx, newTable, rb.timestamp, gpu.sequence))
          else
            && rb.Stream() == old(rb.Stream()) && rb.cursor == old(rb.cursor) && unchanged(gpu))
    ensures rb.timestamp == if ret.NoEntry? || old(rb.active) == Some(ctx) || fault then old(rb.timestamp)
                            else Next(old(rb.timestamp))
    ensures !switched ==> rb.wptr == old(rb.wptr)
    ensures gpu.none && gpu.current == rb.id && old(gpu.wptrRegister) == old(rb.wptr) ==> gpu.wptrRegister == rb.wptr
    ensures !gpu.none || gpu.current != rb.id ==> gpu.wptrRegister == old(gpu.wptrRegister)
  {
    hide Live, Flatten, ContextSwitch, Adds, Fits, RingOk, SwitchCmds;
    if rb.active == Some(ctx) {
      return Done, false;
    }
    if refused {
      return NoEntry, false;
    }
    var dropped := RbContextSwitch(gpu, rb, t, ctx, fault);
    rb.active := Some(ctx);
    return Done, dropped.Done?;
  }

  // ------------------------------------------------------ draw objects

  /** A profiling page with slot `i` filled with these dwords. */
  function SlotWritten(page: seq<Word>, i: nat, ws: seq<Word>): seq<Word>
    requires |page| == PAGE_DWORDS && i < PROFILE_IB_SLOTS && |ws| == PROFILE_IB_DWORDS
  {
    page[..PROFILE_IB_DWORDS * i] + ws + page[PROFILE_IB_DWORDS * (i + 1)..]
  }

  /** The write of one slot. */
  method FillSlot(page: array<Word>, i: nat, p: Packet)
    requires page.Length == PAGE_DWORDS && i < PROFILE_IB_SLOTS && |p.payload| + 1 == PROFILE_IB_DWORDS
    modifies page
    ensures page[..] == SlotWritten(old(page[..]), i, Words(p))
  {
    ghost var was := page[..];
    var offset := i * PROFILE_IB_DWORDS;
    WroteNothing(was, offset);
    hide Wrote, SlotWritten, Words;
    var n := Emit(page, offset, 0, p, was, []);
    assert [] + [p] == [p];
    WroteSlot(was, page[..], i, p);
  }

  lemma WroteSlot(was: seq<Word>, now: seq<Word>, i: nat, p: Packet)
    requires |was| == PAGE_DWORDS && i < PROFILE_IB_SLOTS && |p.payload| + 1 == PROFILE_IB_DWORDS
    requires Wrote(was, now, i * PROFILE_IB_DWORDS, [p], PROFILE_IB_DWORDS)
    ensures now == SlotWritten(was, i, Words(p))
  {
    var at := i * PROFILE_IB_DWORDS;
    FlattenOne(p);
    assert now == now[..at] + now[at..at + PROFILE_IB_DWORDS] + now[at + PROFILE_IB_DWORDS..];
  }

  /** The effect of a5xx_get_user_profiling_ib on the page. */
  function PageAfter(page: seq<Word>, i: nat, t: Target, addr: nat): seq<Word>
    requires |page| == PAGE_DWORDS && i < PROFILE_IB_SLOTS
  {
    SlotWritten(page, i, Words(ReadCounter(t, addr)))
  }

  /** a5xx_get_user_profiling_ib. */
  method GetUserProfilingIb(rb: Ringbuffer, t: Target, addr: nat, cmds: array<Word>, index: nat,
                            ghost was: seq<Word>, ghost ps: seq<Packet>) returns (next: nat)
    requires rb.Valid() && cmds != rb.buffer && cmds != rb.profile
    requires Wrote(was, cmds[..], 0, ps, index) && index + 4 <= cmds.Length
    modifies cmds, rb.profile, rb`profileIndex
    ensures rb.Valid()
    ensures rb.profile == null ==>
      next == index && cmds[..] == old(cmds[..]) && rb.profileIndex == old(rb.profileIndex)
    ensures rb.profile != null ==>
      && next == index + 4
      && Wrote(was, cmds[..], 0, ps + [Indirect(ProfileSlot(rb.addr, old(rb.profileIndex)))], next)
      && rb.profile[..] == PageAfter(old(rb.profile[..]), old(rb.profileIndex), t, addr)
      && rb.profileIndex == NextSlot(old(rb.profileIndex))
  {
    hide Wrote, Lo, Hi, SlotWritten, RingOk;
    if rb.profile == null {
      return index;
    }
    FillSlot(rb.profile, rb.profileIndex, ReadCounter(t, addr));
    next := Emit(cmds, 0, index, Indirect(ProfileSlot(rb.addr, rb.profileIndex)), was, ps);
    rb.profileIndex := NextSlot(rb.profileIndex);
  }

  /** The dwords before the IBs. */
  method FillStart(rb: Ringbuffer, t: Target, obj: DrawObj, flags: Flags, cmds: array<Word>, ghost was: seq<Word>)
    returns (index: nat)
    requires rb.Valid() && cmds != rb.buffer && cmds != rb.profile
    requires Wrote(was, cmds[..], 0, [], 0) && 10 <= cmds.Length
    modifies cmds, rb.profile, rb`profileIndex
    ensures rb.Valid() && index <= 10
    ensures Wrote(was, cmds[..], 0, DrawStart(t, rb.addr, obj, flags, rb.profile != null, old(rb.profileIndex)), index)
    ensures rb.profileIndex
         == if flags.userProfile && rb.profile != null then NextSlot(old(rb.profileIndex))
            else old(rb.profileIndex)
    ensures rb.profile != null ==>
      rb.profile[..] == if flags.userProfile
                        then PageAfter(old(rb.profile[..]), old(rb.profileIndex), t, obj.userSubmitted)
                        else old(rb.profile[..])
  {
    hide Wrote, Lo, Hi, ReadCounter, Indirect, RingOk, PageAfter;
    ReadCounterSize(t, obj.kernelStarted);
    index := Emit(cmds, 0, 0, Nop(START_IB_IDENTIFIER), was, []);
    ghost var ps := [Nop(START_IB_IDENTIFIER)];
    assert [] + ps == ps;
    if flags.kernelProfile {
      index := Emit(cmds, 0, index, ReadCounter(t, obj.kernelStarted), was, ps);
      ps := ps + [ReadCounter(t, obj.kernelStarted)];
    }
    if flags.userProfile {
      index := GetUserProfilingIb(rb, t, obj.userSubmitted, cmds, index, was, ps);
    }
  }

  lemma ReadCounterSize(t: Target, addr: nat)
    ensures |ReadCounter(t, addr).payload| == 3
  {}

  /** The dwords after the IBs. */
  method FillEnd(rb: Ringbuffer, t: Target, obj: DrawObj, flags: Flags, cmds: array<Word>, start: nat,
                 ghost was: seq<Word>, ghost ps: seq<Packet>) returns (index: nat)
    requires rb.Valid() && cmds != rb.buffer && cmds != rb.profile
    requires Wrote(was, cmds[..], 0, ps, start) && start + 18 <= cmds.Length
    modifies cmds, rb.profile, rb`profileIndex
    ensures rb.Valid() && index <= start + 18
    ensures Wrote(was, cmds[..], 0, DrawEnd(t, rb.addr, obj, flags, rb.profile != null, old(rb.profileIndex), ps), index)
    ensures rb.profileIndex
         == if flags.userProfile && rb.profile != null then NextSlot(old(rb.profileIndex))
            else old(rb.profileIndex)
    ensures rb.profile != null ==>
      rb.profile[..] == if flags.userProfile
                        then PageAfter(old(rb.profile[..]), old(rb.profileIndex), t, obj.userRetired)
                        else old(rb.profile[..])
  {
    hide Wrote, Lo, Hi, ReadCounter, Indirect, RingOk, PageAfter;
    ReadCounterSize(t, obj.kernelRetired);
    index := Emit(cmds, 0, start, SetRenderMode(), was, ps);
    ghost var ps1 := ps + [SetRenderMode()];
    index := Emit(cmds, 0, index, YieldEnable(1), was, ps1);
    ghost var ps2 := ps1 + [YieldEnable(1)];
    if flags.kernelProfile {
      index := Emit(cmds, 0, index, ReadCounter(t, obj.kernelRetired), was, ps2);
      ps2 := ps2 + [ReadCounter(t, obj.kernelRetired)];
    }
    ghost var slot := rb.profileIndex;
    if flags.userProfile {
      index := GetUserProfilingIb(rb, t, obj.userRetired, cmds, index, was, ps2);
    }
    ghost var ps3 := if flags.userProfile && rb.profile != null then ps2 + [Indirect(ProfileSlot(rb.addr, slot))] else ps2;
    index := Emit(cmds, 0, index, Nop(END_IB_IDENTIFIER), was, ps3);
  }

  lemma EndSlotIsUnused(t: Target, ring: RingAddresses, obj: DrawObj, flags: Flags, slots: bool,
                        a: nat, b: nat, ps: seq<Packet>)
    requires flags.userProfile && slots ==> a == b
    ensures DrawEnd(t, ring, obj, flags, slots, a, ps) == DrawEnd(t, ring, obj, flags, slots, b, ps)
  {}

  /** Both slots of a draw object. */
  function PagesAfter(page: seq<Word>, i: nat, t: Target, obj: DrawObj): seq<Word>
    requires |page| == PAGE_DWORDS && i < PROFILE_IB_SLOTS
  {
    PageAfter(PageAfter(page, i, t, obj.userSubmitted), NextSlot(i), t, obj.userRetired)
  }

  /** The IBs; a skipped one takes five dwords, any other four. */
  method FillList(cmds: array<Word>, index: nat, flags: Flags, ibs: seq<Ib>, ghost was: seq<Word>, ghost ps: seq<Packet>)
    returns (next: nat)
    requires Wrote(was, cmds[..], 0, ps, index) && index + 5 * |ibs| <= cmds.Length
    modifies cmds
    ensures Wrote(was, cmds[..], 0, IbPackets(flags, ibs, ps), next)
    ensures next <= index + 5 * |ibs|
  {
    hide Wrote, Lo, Hi;
    next := FillIbs(cmds, index, flags, ibs, IbPacket, 5, was, ps);
  }

  /** The dwords up to the last IB. */
  method FillFront(rb: Ringbuffer, t: Target, obj: DrawObj, flags: Flags, ibs: seq<Ib>, cmds: array<Word>,
                   ghost was: seq<Word>) returns (index: nat)
    requires rb.Valid() && cmds != rb.buffer && cmds != rb.profile
    requires Wrote(was, cmds[..], 0, [], 0) && 10 + 5 * |ibs| <= cmds.Length
    modifies cmds, rb.profile, rb`profileIndex
    ensures rb.Valid() && index <= 10 + 5 * |ibs|
    ensures var start := DrawStart(t, rb.addr, obj, flags, rb.profile != null, old(rb.profileIndex));
      Wrote(was, cmds[..], 0, IbPackets(flags, ibs, start), index)
    ensures rb.profileIndex
         == if flags.userProfile && rb.profile != null then NextSlot(old(rb.profileIndex))
            else old(rb.profileIndex)
    ensures rb.profile != null ==>
      rb.profile[..] == if flags.userProfile
                        then PageAfter(old(rb.profile[..]), old(rb.profileIndex), t, obj.userSubmitted)
                        else old(rb.profile[..])
  {
    hide Wrote, DrawStart, IbPackets, RingOk, PageAfter, ContextOk, NextSlot;
    ghost var ps := DrawStart(t, rb.addr, obj, flags, rb.profile != null, rb.profileIndex);
    index := FillStart(rb, t, obj, flags, cmds, was);
    index := FillList(cmds, index, flags, ibs, was, ps);
  }

  /** The buffer that a5xx_ringbuffer_submitcmd builds before it switches contexts. */
  method FillSubmitCmd(rb: Ringbuffer, t: Target, obj: DrawObj, flags: Flags, cmds: array<Word>) returns (index: nat)
    requires rb.Valid() && cmds != rb.buffer && cmds != rb.profile
    requires cmds.Length == A5XX_COMMAND_DWORDS + 5 * (if flags.skip then 0 else |obj.ibs|)
    modifies cmds, rb.profile, rb`profileIndex
    ensures rb.Valid() && index <= cmds.Length
    ensures cmds[..index] == Flatten(A5xxStream.SubmitCmd(t, rb.addr, obj, flags, rb.profile != null, old(rb.profileIndex)))
    ensures rb.profileIndex
         == if flags.userProfile && rb.profile != null then NextSlot(NextSlot(old(rb.profileIndex)))
            else old(rb.profileIndex)
    ensures rb.profile != null ==>
      rb.profile[..] == if flags.userProfile then PagesAfter(old(rb.profile[..]), old(rb.profileIndex), t, obj)
                        else old(rb.profile[..])
  {
    ghost var was, slot, slots := cmds[..], rb.profileIndex, rb.profile != null;
    WroteNothing(was, 0);
    hide Wrote, DrawStart, DrawEnd, IbPackets, RingOk, PageAfter, Flatten, ContextOk, NextSlot;
    var ibs := if flags.skip then [] else obj.ibs;
    ghost var ps := DrawStart(t, rb.addr, obj, flags, slots, slot);
    index := FillFront(rb, t, obj, flags, ibs, cmds, was);
    EndSlotIsUnused(t, rb.addr, obj, flags, slots, rb.profileIndex, NextSlot(slot), IbPackets(flags, ibs, ps));
    index := FillEnd(rb, t, obj, flags, cmds, index, was, IbPackets(flags, ibs, ps));
    WroteAll(was, cmds[..], A5xxStream.SubmitCmd(t, rb.addr, obj, flags, slots, slot), index);
  }

  /** The commands of a draw object. */
  function DrawCmds(t: Target, ring: RingAddresses, obj: DrawObj, flags: Flags, slots: bool, slot: nat,
                    rbTimestamp: nat, sequence: nat, pre: Option<IbRef>, post: Option<IbRef>): seq<Packet>
  {
    var s := Submission(ring, Some(obj.ctx), flags, obj.timestamp, rbTimestamp, sequence, pre, post);
    A5xxStream.AddCmds(t, s, A5xxStream.SubmitCmd(t, ring, obj, flags, slots, slot)) + Report(t, ring)
  }

  /** The end of a5xx_ringbuffer_submitcmd: switch to the context, then add the commands that were built. */
  method SwitchAndAdd(gpu: Gpu, rb: Ringbuffer, t: Target, obj: DrawObj, flags: Flags, refused: bool, detached: bool,
                      faults: (bool, bool), pre: Option<IbRef>, post: Option<IbRef>,
                      cmds: array<Word>, index: nat, ghost payload: seq<Packet>)
    returns (ret: Outcome, ghost mid: seq<Word>, ghost switched: bool)
    requires rb.Valid() && ContextOk(obj.ctx)
    requires cmds != rb.buffer && index <= cmds.Length && cmds[..index] == Flatten(payload)
    modifies rb`cursor, rb`wptr, rb`timestamp, rb`active, rb.buffer, gpu`wptrRegister, gpu`sequence
    ensures rb.Valid() && !ret.NoMemory?
    ensures old(rb.active) != Some(obj.ctx) && refused ==>
      ret.NoEntry? && rb.active == old(rb.active) && rb.Stream() == old(rb.Stream()) && rb.timestamp == old(rb.timestamp)
    ensures old(rb.active) == Some(obj.ctx) || !refused ==>
      && rb.active == Some(obj.ctx)
      && (if switched
          then Adds(old(rb.Stream()), mid,
                 SwitchCmds(t, rb.addr, obj.ctx, NewTable(old(rb.active), obj.ctx, gpu.defaultTtbr0),
                            Next(old(rb.timestamp)), Next(old(gpu.sequence))))
          else mid == old(rb.Stream()))
      && (switched <==>
            && old(rb.active) != Some(obj.ctx) && !faults.0
            && Fits(rb.rptr, old(rb.cursor), A5XX_SUBMIT_MAX
                 + Size(ContextSwitch(rb.addr, obj.ctx, NewTable(old(rb.active), obj.ctx, gpu.defaultTtbr0)))))
      && ret == (if detached then NoEntry else if faults.1 then Fault
                 else if !Fits(rb.rptr, (rb.rptr + |mid|) % RB_DWORDS, A5XX_SUBMIT_MAX + Size(payload)) then NoSpace else Done)
      && (if ret.Done?
          then
            && Adds(mid, rb.Stream(),
                 A5xxStream.AddCmds(t, Submission(rb.addr, Some(obj.ctx), flags, obj.timestamp, rb.timestamp,
                                                  gpu.sequence, pre, post), payload) + Report(t, rb.addr))
            && rb.wptr == rb.cursor
          else
            && rb.Stream() == mid)
    ensures (old(rb.active) == Some(obj.ctx) || !refused) ==>
      var ts := if old(rb.active) == Some(obj.ctx) || faults.0 then old(rb.timestamp) else Next(old(rb.timestamp));
      var unique := if switched then Next(old(gpu.sequence)) else old(gpu.sequence);
      && rb.timestamp == (if ret.Done? || ret.NoSpace? then Next(ts) else ts)
      && gpu.sequence == (if ret.Done? then Next(unique) else unique)
    ensures gpu.none && gpu.current == rb.id && old(gpu.wptrRegister) == old(rb.wptr) ==> gpu.wptrRegister == rb.wptr
    ensures !gpu.none || gpu.current != rb.id ==> gpu.wptrRegister == old(gpu.wptrRegister)
  {
    SizeIs(payload);
    hide Adds, Live, RingOk, ContextOk, Flatten, A5xxStream.AddCmds, SwitchCmds, Fits, ContextSwitch, Report, NewTable, Size;
    ret, switched := DrawctxtSwitch(gpu, rb, t, obj.ctx, refused, faults.0);
    mid := rb.Stream();
    if ret.NoEntry? {
      return;
    }
    CursorOf(rb.buffer[..], rb.rptr, rb.cursor);
    ret := AddCmds(gpu, rb, t, Some(obj.ctx), detached, faults.1, flags, cmds, index, obj.timestamp, pre, post, payload);
  }

  /**
   a5xx_ringbuffer_submitcmd. `memory` says whether the buffer could be
   allocated, `refused` whether the context can no longer be switched to,
   `detached` and `faults` what the two calls of addcmds find. `mid` is what the
   ring holds after the context switch, and `switched` whether that was written.
   */
  method SubmitCmd(gpu: Gpu, rb: Ringbuffer, t: Target, obj: DrawObj, flags: Flags, memory: bool,
                   refused: bool, detached: bool, faults: (bool, bool), pre: Option<IbRef>, post: Option<IbRef>)
    returns (ret: Outcome, ghost mid: seq<Word>, ghost switched: bool)
    requires rb.Valid() && ContextOk(obj.ctx)
    modifies rb, rb.buffer, rb.profile, gpu
    ensures rb.Valid()
    ensures ret.NoMemory? <==> !memory
    ensures !memory ==> unchanged(rb) && unchanged(gpu) && rb.Stream() == old(rb.Stream())
    ensures memory && old(rb.active) != Some(obj.ctx) && refused ==>
      ret.NoEntry? && rb.active == old(rb.active) && rb.Stream() == old(rb.Stream()) && rb.timestamp == old(rb.timestamp)
    ensures memory && (old(rb.active) == Some(obj.ctx) || !refused) ==>
      && rb.active == Some(obj.ctx)
      && (if switched
          then Adds(old(rb.Stream()), mid,
                 SwitchCmds(t, rb.addr, obj.ctx, NewTable(old(rb.active), obj.ctx, gpu.defaultTtbr0),
                            Next(old(rb.timestamp)), Next(old(gpu.sequence))))
          else mid == old(rb.Stream()))
      && (switched <==>
            && old(rb.active) != Some(obj.ctx) && !faults.0
            && Fits(rb.rptr, old(rb.cursor), A5XX_SUBMIT_MAX
                 + Size(ContextSwitch(rb.addr, obj.ctx, NewTable(old(rb.active), obj.ctx, gpu.defaultTtbr0)))))
      && ret == (if detached then NoEntry else if faults.1 then Fault
                 else if !Fits(rb.rptr, (rb.rptr + |mid|) % RB_DWORDS, A5XX_SUBMIT_MAX
                        + Size(A5xxStream.SubmitCmd(t, rb.addr, obj, flags, rb.profile != null, old(rb.profileIndex))))
                 then NoSpace else Done)
      && (if ret.Done?
          then
            && Adds(mid, rb.Stream(),
                 DrawCmds(t, rb.addr, obj, flags, rb.profile != null, old(rb.profileIndex),
                          rb.timestamp, gpu.sequence, pre, post))
            && rb.wptr == rb.cursor
          else
            && rb.Stream() == mid)
    ensures memory && (old(rb.active) == Some(obj.ctx) || !refused) ==>
      var ts := if old(rb.active) == Some(obj.ctx) || faults.0 then old(rb.timestamp) else Next(old(rb.timestamp));
      var unique := if switched then Next(old(gpu.sequence)) else old(gpu.sequence);
      && rb.timestamp == (if ret.Done? || ret.NoSpace? then Next(ts) else ts)
      && gpu.sequence == (if ret.Done? then Next(unique) else unique)
    ensures gpu.none && gpu.current == rb.id && old(gpu.wptrRegister) == old(rb.wptr) ==> gpu.wptrRegister == rb.wptr
    ensures !gpu.none || gpu.current != rb.id ==> gpu.wptrRegister == old(gpu.wptrRegister)
  {
    hide Adds, Live, RingOk, ContextOk, Flatten, SlotWritten, PagesAfter, A5xxStream.SubmitCmd, A5xxStream.AddCmds,
      SwitchCmds, NextSlot, Fits, ContextSwitch, Report, NewTable, Size, Next;
    switched, mid := false, rb.Stream();
    if !memory {
      return NoMemory, mid, switched;
    }
    var numibs := if flags.skip then 0 else |obj.ibs|;
    var cmds := new Word[A5XX_COMMAND_DWORDS + numibs * 5](_ => Data(0));
    var index := FillSubmitCmd(rb, t, obj, flags, cmds);
    ret, mid, switched := SwitchAndAdd(gpu, rb, t, obj, flags, refused, detached, faults, pre, post, cmds, index,
      A5xxStream.SubmitCmd(t, rb.addr, obj, flags, rb.profile != null, old(rb.profileIndex)));
  }

  lemma ReportIsAppended(t: Target, ring: RingAddresses, before: seq<Word>, gap: seq<Word>,
                         ps: seq<Packet>, after: seq<Word>)
    requires IsGap(gap)
    requires after == before + gap + Flatten(ps) + (if t.preemption then [] else [] + Words(WhereAmI(ring.scratchRptr)))
    ensures Adds(before, after, ps + Report(t, ring))
  {
    hide WhereAmI, IsGap;
    var a, b := Flatten(ps), Flatten(Report(t, ring));
    FlattenConcat(ps, Report(t, ring));
    FlattenOne(WhereAmI(ring.scratchRptr));
    assert Flatten([]) == [];
    hide Flatten, Words;
    Regroup(before + gap, a, b);
  }

  lemma Regroup(x: seq<Word>, a: seq<Word>, b: seq<Word>)
    ensures x + a + b == x + (a + b) && x + a + ([] + b) == x + (a + b)
  {}
}
