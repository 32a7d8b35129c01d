/** What the command processor does with the streams of A5xxStream. */
module A5xxMeaning {
  import opened Wrappers
  import opened Pm4
  import opened CommandProcessor
  import opened Submissions
  import opened StreamMeaning
  import opened A5xxStream

  // ------------------------------------------ appending a single packet

  lemma RunIndirect(st: State, ps: seq<Packet>, ib: IbRef)
    ensures Run(st, ps + [Indirect(ib)]) == Note(Run(st, ps), IbEvent(Run(st, ps), ib))
  {
    RunSnoc(st, ps, Indirect(ib));
  }

  lemma RunMemWrite(st: State, ps: seq<Packet>, addr: nat, v: nat)
    ensures Run(st, ps + [MemWrite(addr, v)]) == Note(Run(st, ps), Store(addr, [v], Run(st, ps).apriv))
  {
    RunSnoc(st, ps, MemWrite(addr, v));
    ExecMemWrite(Run(st, ps), addr, v);
  }

  lemma ExecMemWrite(st: State, addr: nat, v: nat)
    ensures Exec(st, MemWrite(addr, v)) == Note(st, Store(addr, [v], st.apriv))
  {
    assert Values(MemWrite(addr, v).payload)[2..] == [v];
  }

  lemma RunEventWrite(st: State, ps: seq<Packet>, addr: nat, v: nat, irq: bool)
    ensures Run(st, ps + [EventWrite(addr, v, irq)]) == Note(Run(st, ps), Stamp(addr, v, irq))
  {
    RunSnoc(st, ps, EventWrite(addr, v, irq));
    ExecEventWrite(Run(st, ps), addr, v, irq);
  }

  lemma ExecEventWrite(st: State, addr: nat, v: nat, irq: bool)
    ensures Exec(st, EventWrite(addr, v, irq)) == Note(st, Stamp(addr, v, irq))
  {}

  lemma RunScratchTable(st: State, ps: seq<Packet>, addr: nat, ttbr0: nat, id: nat)
    ensures Run(st, ps + [ScratchTable(addr, ttbr0, id)])
         == Note(Run(st, ps), Store(addr, [Lo(ttbr0), Hi(ttbr0), id], Run(st, ps).apriv))
  {
    RunSnoc(st, ps, ScratchTable(addr, ttbr0, id));
    ExecScratchTable(Run(st, ps), addr, ttbr0, id);
  }

  lemma ExecScratchTable(st: State, addr: nat, ttbr0: nat, id: nat)
    ensures Exec(st, ScratchTable(addr, ttbr0, id))
         == Note(st, Store(addr, [Lo(ttbr0), Hi(ttbr0), id], st.apriv))
  {
    var v := Values(ScratchTable(addr, ttbr0, id).payload);
    assert v == [Lo(addr), Hi(addr), Lo(ttbr0), Hi(ttbr0), id];
    assert v[2..] == [Lo(ttbr0), Hi(ttbr0), id];
  }

  lemma RunTableUpdate(st: State, ps: seq<Packet>, ttbr0: nat, id: nat)
    ensures Run(st, ps + [TableUpdate(ttbr0, id)]) == Note(Run(st, ps), UseTable(ttbr0, id))
  {
    RunSnoc(st, ps, TableUpdate(ttbr0, id));
  }

  /** The always-on counter goes to memory: both halves at once on targets after A530, else one register. */
  function CounterCopy(t: Target, addr: nat): Event {
    CopyRegister(A5XX_RBBM_ALWAYSON_COUNTER_LO, t.counter64, if t.counter64 then 2 else 0, addr)
  }

  lemma RunReadCounter(st: State, ps: seq<Packet>, t: Target, addr: nat)
    ensures Run(st, ps + [ReadCounter(t, addr)])
         == Note(Run(st, ps), CounterCopy(t, addr))
  {
    RunSnoc(st, ps, ReadCounter(t, addr));
    ExecReadCounter(Run(st, ps), t, addr);
  }

  lemma ExecReadCounter(st: State, t: Target, addr: nat)
    ensures Exec(st, ReadCounter(t, addr)) == Note(st, CounterCopy(t, addr))
  {
    JoinSplit(addr);
    hide Lo, Hi, Join;
  }

  lemma RunSecureMode(st: State, ps: seq<Packet>, on: nat)
    ensures Run(st, ps + [SecureMode(on)]) == Run(st, ps).(secure := on != 0)
  {
    RunSnoc(st, ps, SecureMode(on));
    ExecMode(Run(st, ps), on);
  }

  lemma ExecMode(st: State, on: nat)
    ensures Exec(st, SecureMode(on)) == st.(secure := on != 0)
    ensures Exec(st, ProtectedMode(on)) == st.(guarded := on != 0)
  {}

  lemma RunProtectedMode(st: State, ps: seq<Packet>, on: nat)
    ensures Run(st, ps + [ProtectedMode(on)]) == Run(st, ps).(guarded := on != 0)
  {
    RunSnoc(st, ps, ProtectedMode(on));
    ExecMode(Run(st, ps), on);
  }

  lemma RunGlobal(st: State, ps: seq<Packet>, v: nat)
    ensures Run(st, ps + [Global(v)]) == Run(st, ps).(global := v)
  {
    RunSnoc(st, ps, Global(v));
    ExecEnable(Run(st, ps), v);
  }

  lemma RunLocal(st: State, ps: seq<Packet>, v: nat)
    ensures Run(st, ps + [Local(v)]) == Run(st, ps).(local := v)
  {
    RunSnoc(st, ps, Local(v));
    ExecEnable(Run(st, ps), v);
  }

  lemma ExecEnable(st: State, v: nat)
    ensures Exec(st, Global(v)) == st.(global := v) && Exec(st, Local(v)) == st.(local := v)
  {}

  lemma RunReg(st: State, ps: seq<Packet>, reg: nat, v: nat)
    ensures Run(st, ps + [Reg(reg, v)]) == WriteReg(Run(st, ps), reg, [v])
  {
    RunSnoc(st, ps, Reg(reg, v));
    assert Values([Data(v)]) == [v];
  }

  lemma RunYield(st: State, ps: seq<Packet>)
    ensures Run(st, ps + [ContextSwitchYield()]) == Note(Run(st, ps), Yield(true))
  {
    RunSnoc(st, ps, ContextSwitchYield());
  }

  /** The events of the packets that wait or tune. */
  const IdleWait := Control(CP_WAIT_FOR_IDLE, [])
  const MeWait := Control(CP_WAIT_FOR_ME, [])
  const MemWait := Control(CP_WAIT_MEM_WRITES, [])
  const RenderMode := Control(CP_SET_RENDER_MODE, [0, 0, 0, 0, 0])

  function YieldMode(v: nat): Event {
    Control(CP_YIELD_ENABLE, [v])
  }

  lemma ControlEvents(v: nat)
    ensures IsControl(WaitForIdle()) && ControlEvent(WaitForIdle()) == IdleWait
    ensures IsControl(WaitForMe()) && ControlEvent(WaitForMe()) == MeWait
    ensures IsControl(WaitMemWrites()) && ControlEvent(WaitMemWrites()) == MemWait
    ensures IsControl(SetRenderMode()) && ControlEvent(SetRenderMode()) == RenderMode
    ensures IsControl(YieldEnable(v)) && ControlEvent(YieldEnable(v)) == YieldMode(v)
  {
    assert Values([]) == [] && Values([Data(v)]) == [v];
    assert Values(SetRenderMode().payload) == [0, 0, 0, 0, 0];
  }

  // ------------------------------------------------------ the frame

  /** Where the CP saves the ring and how finely it may be preempted; protection is on again. */
  function AfterPreIb(t: Target, s: Submission, st: State): State {
    if t.preemption
    then st.(saveLo := Lo(s.ring.desc), saveHi := Hi(s.ring.desc), guarded := true,
             global := if Finegrain(s.ctx) then 2 else 0, local := if Finegrain(s.ctx) then 1 else 0,
             events := st.events + [YieldMode(2)])
    else st
  }

  /** The state in which a payload runs: what the pre-IB packets and the flags ask for. */
  function Opened(t: Target, s: Submission, st: State): State {
    var st := AfterPreIb(t, s, st);
    var st := if s.pre.Some? then Note(st, IbEvent(st, s.pre.value)) else st;
    var st := if s.ctx.Some? then Note(st, Store(s.ctx.value.sopAddr, [s.timestamp], st.apriv)) else st;
    var st := Note(st, Store(s.ring.sop, [s.rbTimestamp], st.apriv));
    var st := if s.flags.secure then st.(secure := true) else st;
    if s.flags.notProtected then st.(guarded := false) else st
  }

  /** What happens between the end of the payload and the next submission. */
  function Closed(t: Target, s: Submission, st: State): State {
    Retired(t, s, Settled(t, s, st))
  }

  function Settled(t: Target, s: Submission, st: State): State {
    var st := if s.flags.notProtected then st.(guarded := true) else st;
    var st := if s.post.Some? then Note(st, IbEvent(st, s.post.value)) else st;
    var st := Extend(st, Maybe(t.waitMemWrites, MemWait));
    Note(st, Store(s.ring.refWaitTs, [s.sequence], st.apriv))
  }

  function Retired(t: Target, s: Submission, st: State): State {
    var st := if s.ctx.Some? then Note(st, Stamp(s.ctx.value.eopAddr, s.timestamp, true)) else st;
    var st := Note(st, Stamp(s.ring.eop, s.rbTimestamp, s.ctx.None?));
    var st := Extend(st, Maybe(s.flags.wfi, IdleWait));
    var st := if s.flags.secure then st.(secure := false) else st;
    if t.preemption then Note(st, Yield(true)) else st
  }

  lemma PreIbMeaning(t: Target, s: Submission, ps: seq<Packet>, st: State)
    ensures Run(st, PreIbSubmit(t, s, ps)) == AfterPreIb(t, s, Run(st, ps))
  {
    if t.preemption { PreIbSteps(t, s, ps, st); }
  }

  lemma RunSave(st: State, ps: seq<Packet>, lo: nat, hi: nat)
    requires !Run(st, ps).guarded
    ensures Run(st, ps + [Reg(A5XX_CP_CONTEXT_SWITCH_SAVE_ADDR_LO, lo)] + [Reg(A5XX_CP_CONTEXT_SWITCH_SAVE_ADDR_HI, hi)])
         == Run(st, ps).(saveLo := lo, saveHi := hi)
  {
    hide Run;
    RunReg(st, ps, A5XX_CP_CONTEXT_SWITCH_SAVE_ADDR_LO, lo);
    RunReg(st, ps + [Reg(A5XX_CP_CONTEXT_SWITCH_SAVE_ADDR_LO, lo)], A5XX_CP_CONTEXT_SWITCH_SAVE_ADDR_HI, hi);
  }

  lemma PreIbSteps(t: Target, s: Submission, ps: seq<Packet>, st: State)
    requires t.preemption
    ensures Run(st, PreIbSubmit(t, s, ps)) == AfterPreIb(t, s, Run(st, ps))
  {
    hide Exec, Run, Lo, Hi, ControlEvent, IsControl, WriteReg, Finegrain, Global, Local, Reg, ProtectedMode, YieldEnable;
    var g, l := if Finegrain(s.ctx) then 2 else 0, if Finegrain(s.ctx) then 1 else 0;
    var ps1 := ps + [Global(g)];
    var ps2 := ps1 + [ProtectedMode(0)];
    var ps3 := ps2 + [Reg(A5XX_CP_CONTEXT_SWITCH_SAVE_ADDR_LO, Lo(s.ring.desc))];
    var ps4 := ps3 + [Reg(A5XX_CP_CONTEXT_SWITCH_SAVE_ADDR_HI, Hi(s.ring.desc))];
    var ps5 := ps4 + [ProtectedMode(1)];
    var ps6 := ps5 + [Local(l)];
    RunGlobal(st, ps, g);
    RunProtectedMode(st, ps1, 0);
    RunSave(st, ps2, Lo(s.ring.desc), Hi(s.ring.desc));
    RunProtectedMode(st, ps4, 1);
    RunLocal(st, ps5, l);
    ControlEvents(2);
    RunControl(st, ps6, YieldEnable(2));
  }

  /**
   How finely a ring may be preempted, told by the context: a secure one and
   none at all only between rings, any other in the middle of its IBs exactly
   if its style is 2.
   */
  lemma GrainOfContext(t: Target, s: Submission, st: State)
    requires t.preemption
    ensures var fin := Run(st, Prologue(t, s));
      && (s.ctx.None? ==> fin.global == 0 && fin.local == 0)
      && (s.ctx.Some? && s.ctx.value.secure ==> fin.global == 0 && fin.local == 0)
      && (s.ctx.Some? && !s.ctx.value.secure && s.ctx.value.style != 2 ==> fin.global == 0 && fin.local == 0)
      && (s.ctx.Some? && !s.ctx.value.secure && s.ctx.value.style == 2 ==> fin.global == 2 && fin.local == 1)
  {
    PrologueMeaning(t, s, st);
    hide Run, Prologue;
  }

  /** The marks that let a reader of the ring tell the streams apart. */
  lemma StreamsAreMarked(t: Target, s: Submission, payload: seq<Packet>)
    ensures AddCmds(t, s, payload) != []
    ensures AddCmds(t, s, payload)[0].h == Type7(CP_NOP, 1)
    ensures s.ctx.Some? ==> AddCmds(t, s, payload)[0].payload == [Data(0x2EED_FACE)]
    ensures s.ctx.None? ==> AddCmds(t, s, payload)[0].payload == [Data(0x2EED_D00D)]
  {
    MarkStaysFirst(t, s, payload);
  }

  lemma MarkStaysFirst(t: Target, s: Submission, payload: seq<Packet>)
    ensures Prologue(t, s) != [] && AddCmds(t, s, payload) != []
    ensures AddCmds(t, s, payload)[0] == Prologue(t, s)[0]
      == Nop(if s.ctx.Some? then CMD_IDENTIFIER else CMD_INTERNAL_IDENTIFIER)
  {
    hide Nop, Indirect, MemWrite, SecureMode, ProtectedMode, EventWrite, Finegrain, Global, Reg, Local, YieldEnable;
  }

  /** The commands of a draw stand between their two marks. */
  lemma DrawIsMarked(t: Target, ring: RingAddresses, obj: DrawObj, flags: Flags, slots: bool, slot: nat)
    ensures var ps := SubmitCmd(t, ring, obj, flags, slots, slot);
      && |ps| >= 2
      && ps[0] == Packet(Type7(CP_NOP, 1), [Data(0x2EAD_EABE)])
      && ps[|ps| - 1] == Packet(Type7(CP_NOP, 1), [Data(0x2ABE_DEAD)])
  {
    IbsComeAfter(flags, if flags.skip then [] else obj.ibs, DrawStart(t, ring, obj, flags, slots, slot));
  }

  lemma {:induction false} IbsComeAfter(flags: Flags, ibs: seq<Ib>, ps: seq<Packet>)
    ensures ps <= IbPackets(flags, ibs, ps)
  {
    if ibs != [] { IbsComeAfter(flags, ibs[..|ibs| - 1], ps); }
  }

  // Conditional packets, one lemma each, so that the big lemmas have a single path.

  lemma MaybeIndirect(st: State, ps: seq<Packet>, ib: Option<IbRef>)
    ensures var st1 := Run(st, ps);
      Run(st, if ib.Some? then ps + [Indirect(ib.value)] else ps)
        == if ib.Some? then Note(st1, IbEvent(st1, ib.value)) else st1
  {
    if ib.Some? { RunIndirect(st, ps, ib.value); }
  }

  lemma MaybeSop(st: State, ps: seq<Packet>, s: Submission)
    ensures var st1 := Run(st, ps);
      Run(st, if s.ctx.Some? then ps + [MemWrite(s.ctx.value.sopAddr, s.timestamp)] else ps)
        == if s.ctx.Some? then Note(st1, Store(s.ctx.value.sopAddr, [s.timestamp], st1.apriv)) else st1
  {
    if s.ctx.Some? { RunMemWrite(st, ps, s.ctx.value.sopAddr, s.timestamp); }
  }

  lemma MaybeEop(st: State, ps: seq<Packet>, s: Submission)
    ensures var st1 := Run(st, ps);
      Run(st, if s.ctx.Some? then ps + [EventWrite(s.ctx.value.eopAddr, s.timestamp, true)] else ps)
        == if s.ctx.Some? then Note(st1, Stamp(s.ctx.value.eopAddr, s.timestamp, true)) else st1
  {
    if s.ctx.Some? { RunEventWrite(st, ps, s.ctx.value.eopAddr, s.timestamp, true); }
  }

  lemma MaybeSecure(st: State, ps: seq<Packet>, c: bool, on: nat)
    ensures Run(st, if c then ps + [SecureMode(on)] else ps)
         == if c then Run(st, ps).(secure := on != 0) else Run(st, ps)
  {
    if c { RunSecureMode(st, ps, on); }
  }

  lemma MaybeProtected(st: State, ps: seq<Packet>, c: bool, on: nat)
    ensures Run(st, if c then ps + [ProtectedMode(on)] else ps)
         == if c then Run(st, ps).(guarded := on != 0) else Run(st, ps)
  {
    if c { RunProtectedMode(st, ps, on); }
  }

  lemma MaybeYield(st: State, ps: seq<Packet>, c: bool)
    ensures Run(st, if c then ps + [ContextSwitchYield()] else ps)
         == if c then Note(Run(st, ps), Yield(true)) else Run(st, ps)
  {
    if c { RunYield(st, ps); }
  }

  lemma PrologueMeaning(t: Target, s: Submission, st: State)
    ensures Run(st, Prologue(t, s)) == Opened(t, s, st)
  {
    hide Exec, Run, PreIbSubmit, AfterPreIb;
    var id := Nop(if s.ctx.Some? then CMD_IDENTIFIER else CMD_INTERNAL_IDENTIFIER);
    RunFirst(st, id);
    var ps1 := PreIbSubmit(t, s, [id]);
    PreIbMeaning(t, s, [id], st);
    var ps2 := if s.pre.Some? then ps1 + [Indirect(s.pre.value)] else ps1;
    MaybeIndirect(st, ps1, s.pre);
    var ps3 := if s.ctx.Some? then ps2 + [MemWrite(s.ctx.value.sopAddr, s.timestamp)] else ps2;
    MaybeSop(st, ps2, s);
    var ps4 := ps3 + [MemWrite(s.ring.sop, s.rbTimestamp)];
    RunMemWrite(st, ps3, s.ring.sop, s.rbTimestamp);
    var ps5 := if s.flags.secure then ps4 + [SecureMode(1)] else ps4;
    MaybeSecure(st, ps4, s.flags.secure, 1);
    MaybeProtected(st, ps5, s.flags.notProtected, 0);
  }

  lemma SettleMeaning(t: Target, s: Submission, ps: seq<Packet>, st: State)
    ensures Run(st, Settle(t, s, ps)) == Settled(t, s, Run(st, ps))
  {
    hide Exec, Run;
    var ps1 := if s.flags.notProtected then ps + [ProtectedMode(1)] else ps;
    MaybeProtected(st, ps, s.flags.notProtected, 1);
    var ps2 := if s.post.Some? then ps1 + [Indirect(s.post.value)] else ps1;
    MaybeIndirect(st, ps1, s.post);
    var ps3 := if t.waitMemWrites then ps2 + [WaitMemWrites()] else ps2;
    ControlEvents(0);
    MaybeControl(st, ps2, t.waitMemWrites, WaitMemWrites());
    RunMemWrite(st, ps3, s.ring.refWaitTs, s.sequence);
  }

  lemma RetireMeaning(t: Target, s: Submission, ps: seq<Packet>, st: State)
    ensures Run(st, Retire(t, s, ps)) == Retired(t, s, Run(st, ps))
  {
    hide Exec, Run;
    var ps1 := if s.ctx.Some? then ps + [EventWrite(s.ctx.value.eopAddr, s.timestamp, true)] else ps;
    MaybeEop(st, ps, s);
    var ps2 := ps1 + [EventWrite(s.ring.eop, s.rbTimestamp, s.ctx.None?)];
    RunEventWrite(st, ps1, s.ring.eop, s.rbTimestamp, s.ctx.None?);
    var ps3 := if s.flags.wfi then ps2 + [WaitForIdle()] else ps2;
    ControlEvents(0);
    MaybeControl(st, ps2, s.flags.wfi, WaitForIdle());
    var ps4 := if s.flags.secure then ps3 + [SecureMode(0)] else ps3;
    MaybeSecure(st, ps3, s.flags.secure, 0);
    MaybeYield(st, ps4, t.preemption);
  }

  lemma EpilogueMeaning(t: Target, s: Submission, ps: seq<Packet>, st: State)
    ensures Run(st, Epilogue(t, s, ps)) == Closed(t, s, Run(st, ps))
  {
    SettleMeaning(t, s, ps, st);
    RetireMeaning(t, s, Settle(t, s, ps), st);
  }

  /** A submission is its payload, run in the opened state and followed by the closing actions. */
  lemma AddCmdsMeaning(t: Target, s: Submission, payload: seq<Packet>, st: State)
    ensures Run(st, AddCmds(t, s, payload)) == Closed(t, s, Run(Opened(t, s, st), payload))
  {
    PrologueMeaning(t, s, st);
    RunConcat(st, Prologue(t, s), payload);
    EpilogueMeaning(t, s, Prologue(t, s) + payload, st);
  }

  // ---------------------------------------------------------- the payloads

  function IbEvents(st: State, ibs: seq<Ib>): seq<Event> {
    EventsOf(st, ibs, OwnEvent)
  }

  function OwnEvent(st: State, ib: Ib): Event {
    IbEvent(st, IbRefOf(ib))
  }

  /** A NOP with the count of a whole IB packet swallows that packet and nothing else. */
  lemma SkipSwallowsOneIb(ib: Ib, rest: seq<Word>)
    ensures Parse(Words(SkippedIb(ib)) + rest)
         == if Parse(rest).Some? then Some([SkippedIb(ib)] + Parse(rest).value) else None
    ensures Words(SkippedIb(ib)) == [Head(Type7(CP_NOP, 4))] + Words(Indirect(IbRefOf(ib)))
    ensures Silent(SkippedIb(ib))
  {
    var ws := Words(SkippedIb(ib)) + rest;
    assert |SkippedIb(ib).payload| == 4;
    assert ws[5..] == rest && ws[1..5] == SkippedIb(ib).payload;
  }

  lemma RunsIndirect(st: State, ib: IbRef)
    ensures Exec(st, Indirect(ib)) == st.(events := st.events + [IbEvent(st, ib)])
  {}

  lemma SkippedIsSilent(st: State, ib: Ib)
    ensures Exec(st, SkippedIb(ib)) == st
  {
    ExecSilent(st, SkippedIb(ib));
  }

  lemma OneIbMeans()
    ensures IbMeans(IbPacket, OwnEvent)
  {
    hide Exec, SkippedIb, Indirect, IbRefOf;
    forall st: State, ib: Ib ensures Exec(st, IbPacket(ib, true)) == st {
      SkippedIsSilent(st, ib);
    }
    forall st: State, ib: Ib
      ensures Exec(st, IbPacket(ib, false)) == st.(events := st.events + [OwnEvent(st, ib)])
    {
      RunsIndirect(st, IbRefOf(ib));
    }
  }

  /** The IBs that are not to be skipped run in list order. */
  lemma IbPacketsMeaning(flags: Flags, ibs: seq<Ib>, ps: seq<Packet>, st: State)
    ensures Run(st, IbPackets(flags, ibs, ps))
         == Extend(Run(st, ps), IbEvents(Run(st, ps), Kept(flags, ibs)))
  {
    OneIbMeans();
    IbListMeaning(flags, ibs, ps, st, IbPacket, OwnEvent);
  }

  /** What a draw payload does, in order. */
  function DrawTrace(t: Target, ring: RingAddresses, obj: DrawObj, flags: Flags, slots: bool, slot: nat, st: State): seq<Event> {
    Maybe(flags.kernelProfile, CounterCopy(t, obj.kernelStarted))
    + Maybe(flags.userProfile && slots, IbEvent(st, ProfileSlot(ring, slot)))
    + IbEvents(st, if flags.skip then [] else Kept(flags, obj.ibs))
    + [RenderMode, YieldMode(1)]
    + Maybe(flags.kernelProfile, CounterCopy(t, obj.kernelRetired))
    + Maybe(flags.userProfile && slots, IbEvent(st, ProfileSlot(ring, NextSlot(slot))))
  }

  lemma MaybeCounter(st: State, ps: seq<Packet>, c: bool, t: Target, addr: nat)
    ensures Run(st, if c then ps + [ReadCounter(t, addr)] else ps)
         == Extend(Run(st, ps), Maybe(c, CounterCopy(t, addr)))
  {
    if c { RunReadCounter(st, ps, t, addr); }
  }

  lemma MaybeSlot(st: State, ps: seq<Packet>, c: bool, ib: IbRef)
    ensures Run(st, if c then ps + [Indirect(ib)] else ps)
         == Extend(Run(st, ps), Maybe(c, IbEvent(Run(st, ps), ib)))
  {
    if c { RunIndirect(st, ps, ib); }
  }

  lemma DrawStartMeaning(t: Target, ring: RingAddresses, obj: DrawObj, flags: Flags, slots: bool, slot: nat, st: State)
    ensures Run(st, DrawStart(t, ring, obj, flags, slots, slot)) == Extend(st,
      Maybe(flags.kernelProfile, CounterCopy(t, obj.kernelStarted))
      + Maybe(flags.userProfile && slots, IbEvent(st, ProfileSlot(ring, slot))))
  {
    hide Exec, Run, Maybe, ReadCounter, Indirect, IbEvent, CounterCopy, ProfileSlot;
    var kernel, user, ib := flags.kernelProfile, flags.userProfile && slots, ProfileSlot(ring, slot);
    var ps0 := [Nop(START_IB_IDENTIFIER)];
    RunFirst(st, Nop(START_IB_IDENTIFIER));
    var ps1 := if kernel then ps0 + [ReadCounter(t, obj.kernelStarted)] else ps0;
    MaybeCounter(st, ps0, kernel, t, obj.kernelStarted);
    MaybeSlot(st, ps1, user, ib);
    SameIbEvents(Run(st, ps1), st, ib, ib, []);
    ExtendTwice(st, Maybe(kernel, CounterCopy(t, obj.kernelStarted)), Maybe(user, IbEvent(st, ib)));
  }

  lemma DrawEndMeaning(t: Target, ring: RingAddresses, obj: DrawObj, flags: Flags, slots: bool, slot: nat,
                       ps: seq<Packet>, st: State)
    ensures Run(st, DrawEnd(t, ring, obj, flags, slots, slot, ps)) == Extend(Run(st, ps),
      [RenderMode, YieldMode(1)]
      + Maybe(flags.kernelProfile, CounterCopy(t, obj.kernelRetired))
      + Maybe(flags.userProfile && slots, IbEvent(Run(st, ps), ProfileSlot(ring, slot))))
  {
    hide Exec, Run, Maybe, ReadCounter, Indirect, IbEvent, CounterCopy, ProfileSlot, ControlEvent, IsControl, YieldMode;
    var kernel, user, ib := flags.kernelProfile, flags.userProfile && slots, ProfileSlot(ring, slot);
    var st0 := Run(st, ps);
    var ps4 := ps + [SetRenderMode()];
    ControlEvents(1);
    RunControl(st, ps, SetRenderMode());
    var ps5 := ps4 + [YieldEnable(1)];
    RunControl(st, ps4, YieldEnable(1));
    var ps6 := if kernel then ps5 + [ReadCounter(t, obj.kernelRetired)] else ps5;
    MaybeCounter(st, ps5, kernel, t, obj.kernelRetired);
    var ps7 := if user then ps6 + [Indirect(ib)] else ps6;
    MaybeSlot(st, ps6, user, ib);
    RunSilent(st, ps7, Nop(END_IB_IDENTIFIER));
    SameIbEvents(Run(st, ps6), st0, ib, ib, []);
    var m, d := [RenderMode, YieldMode(1)], Maybe(kernel, CounterCopy(t, obj.kernelRetired));
    assert m == [RenderMode] + [YieldMode(1)];
    ExtendTwice(st0, [RenderMode], [YieldMode(1)]);
    ExtendTwice(st0, m, d);
    ExtendTwice(st0, m + d, Maybe(user, IbEvent(st0, ib)));
  }

  lemma SubmitCmdMeaning(t: Target, ring: RingAddresses, obj: DrawObj, flags: Flags, slots: bool, slot: nat, st: State)
    ensures Run(st, SubmitCmd(t, ring, obj, flags, slots, slot))
         == Extend(st, DrawTrace(t, ring, obj, flags, slots, slot, st))
  {
    hide Exec, Run, Maybe, IbPackets, IbEvents, IbEvent, Kept, YieldMode, CounterCopy, ProfileSlot, DrawStart, DrawEnd;
    var first, last := ProfileSlot(ring, slot), ProfileSlot(ring, NextSlot(slot));
    var ibs := if flags.skip then [] else obj.ibs;
    var ps2 := DrawStart(t, ring, obj, flags, slots, slot);
    DrawStartMeaning(t, ring, obj, flags, slots, slot, st);
    var ps3 := IbPackets(flags, ibs, ps2);
    IbPacketsMeaning(flags, ibs, ps2, st);
    DrawEndMeaning(t, ring, obj, flags, slots, NextSlot(slot), ps3, st);
    SameIbEvents(Run(st, ps2), st, first, last, Kept(flags, ibs));
    SameIbEvents(Run(st, ps3), st, first, last, []);
    KeptOrNone(flags, obj.ibs);
    var k, u := flags.kernelProfile, flags.userProfile && slots;
    Joined(st, Maybe(k, CounterCopy(t, obj.kernelStarted)), Maybe(u, IbEvent(st, first)), IbEvents(st, Kept(flags, ibs)),
      [RenderMode, YieldMode(1)], Maybe(k, CounterCopy(t, obj.kernelRetired)), Maybe(u, IbEvent(st, last)));
  }

  lemma Joined(st: State, a: seq<Event>, b: seq<Event>, c: seq<Event>, d: seq<Event>, e: seq<Event>, f: seq<Event>)
    ensures Extend(Extend(Extend(st, a + b), c), d + e + f) == Extend(st, a + b + c + d + e + f)
  {
    ExtendTwice(st, a + b, c);
    ExtendTwice(st, a + b + c, d + e + f);
    assert a + b + c + (d + e + f) == a + b + c + d + e + f;
  }

  /** The IBs that run are those at these positions, each with its address and its length in dwords, cut to 20 bits. */
  function IbsAt(ibs: seq<Ib>, runs: seq<nat>, secure: bool, guarded: bool): seq<Event>
    requires InListOrder(runs, |ibs|)
  {
    seq(|runs|, j requires 0 <= j < |runs| =>
      RunIb(ibs[runs[j]].gpuaddr, ibs[runs[j]].size / 4 % 0x10_0000, secure, guarded))
  }

  /** Told by the marks of the IBs alone, what a draw payload runs and in which place. */
  lemma DrawRunsByMarks(t: Target, ring: RingAddresses, obj: DrawObj, flags: Flags, slots: bool, slot: nat, st: State)
    returns (runs: seq<nat>)
    ensures InListOrder(runs, |obj.ibs|)
    ensures flags.skip ==> runs == []
    ensures !flags.skip ==> RunByMarks(flags, obj.ibs, runs)
    ensures Run(st, SubmitCmd(t, ring, obj, flags, slots, slot)) == Extend(st,
      Maybe(flags.kernelProfile, CounterCopy(t, obj.kernelStarted))
      + Maybe(flags.userProfile && slots, IbEvent(st, ProfileSlot(ring, slot)))
      + IbsAt(obj.ibs, runs, st.secure, st.guarded)
      + [RenderMode, YieldMode(1)]
      + Maybe(flags.kernelProfile, CounterCopy(t, obj.kernelRetired))
      + Maybe(flags.userProfile && slots, IbEvent(st, ProfileSlot(ring, NextSlot(slot)))))
  {
    SubmitCmdMeaning(t, ring, obj, flags, slots, slot, st);
    if flags.skip {
      runs := [];
      assert IbEvents(st, []) == IbsAt(obj.ibs, runs, st.secure, st.guarded);
    } else {
      runs := KeptExactly(flags, obj.ibs);
      KeptAreAt(flags, obj.ibs, runs, st);
    }
  }

  lemma KeptAreAt(flags: Flags, ibs: seq<Ib>, runs: seq<nat>, st: State)
    requires InListOrder(runs, |ibs|) && PicksOut(ibs, runs, Kept(flags, ibs))
    ensures IbEvents(st, Kept(flags, ibs)) == IbsAt(ibs, runs, st.secure, st.guarded)
  {
    hide Kept, Skipped;
    forall j | 0 <= j < |runs|
      ensures OwnEvent(st, Kept(flags, ibs)[j])
        == RunIb(ibs[runs[j]].gpuaddr, ibs[runs[j]].size / 4 % 0x10_0000, st.secure, st.guarded)
    {}
  }

  /** What an IB event records of a state is its modes, not its history. */
  lemma SameIbEvents(st1: State, st: State, first: IbRef, last: IbRef, ibs: seq<Ib>)
    requires st1.secure == st.secure && st1.guarded == st.guarded
    ensures IbEvent(st1, first) == IbEvent(st, first) && IbEvent(st1, last) == IbEvent(st, last)
    ensures IbEvents(st1, ibs) == IbEvents(st, ibs)
  {
    assert forall k | 0 <= k < |ibs| :: OwnEvent(st1, ibs[k]) == OwnEvent(st, ibs[k]);
  }

  lemma KeptOrNone(flags: Flags, ibs: seq<Ib>)
    ensures Kept(flags, if flags.skip then [] else ibs) == if flags.skip then [] else Kept(flags, ibs)
  {}

  /** What a context switch payload does: the table first, with its copy written under APRIV. */
  function SwitchTrace(ring: RingAddresses, ctx: Context, switchTable: bool): seq<Event> {
    (if switchTable
     then TableTrace(ring, ctx.id, ctx.ttbr0)
     else [])
    + [Store(ring.currentContext, [ctx.id], false),
       Store(ring.globalCurrentContext, [ctx.id], false),
       WriteRegisters(A5XX_UCHE_INVALIDATE0, [0x12])]
  }

  /** The update, awaited, and its copy written under APRIV, awaited in turn before APRIV goes. */
  function TableTrace(ring: RingAddresses, id: nat, ttbr0: nat): seq<Event> {
    [UseTable(ttbr0, id)] + [IdleWait, MeWait]
    + [Store(ring.scratchTtbr0, [Lo(ttbr0), Hi(ttbr0), id], true)] + [IdleWait, MeWait]
  }

  lemma BothWaits(st: State, ps: seq<Packet>)
    ensures Run(st, ps + [WaitForIdle()] + [WaitForMe()]) == Extend(Run(st, ps), [IdleWait, MeWait])
  {
    ControlEvents(0);
    hide Exec, Run, ControlEvent, IsControl;
    RunControl(st, ps, WaitForIdle());
    RunControl(st, ps + [WaitForIdle()], WaitForMe());
    ExtendTwice(Run(st, ps), [IdleWait], [MeWait]);
    assert [IdleWait] + [MeWait] == [IdleWait, MeWait];
  }

  lemma PagetableSwitchMeaning(ring: RingAddresses, id: nat, ttbr0: nat, ps: seq<Packet>, st: State)
    requires !Run(st, ps).apriv && !Run(st, ps).guarded
    ensures Run(st, PagetableSwitch(ring, id, ttbr0, ps))
         == Extend(Run(st, ps), TableTrace(ring, id, ttbr0))
  {
    hide Exec, Run, TableUpdate, ScratchTable, Lo, Hi;
    var st0 := Run(st, ps);
    var a, w, b := [UseTable(ttbr0, id)], [IdleWait, MeWait], [Store(ring.scratchTtbr0, [Lo(ttbr0), Hi(ttbr0), id], true)];
    var ps1 := ps + [TableUpdate(ttbr0, id)];
    RunTableUpdate(st, ps, ttbr0, id);
    var ps2 := ps1 + [WaitForIdle()] + [WaitForMe()];
    BothWaits(st, ps1);
    ExtendTwice(st0, a, w);
    var ps3 := ps2 + [Reg(A5XX_CP_CNTL, 1)];
    RunReg(st, ps2, A5XX_CP_CNTL, 1);
    var ps4 := ps3 + [ScratchTable(ring.scratchTtbr0, ttbr0, id)];
    RunScratchTable(st, ps3, ring.scratchTtbr0, ttbr0, id);
    var st1 := st0.(apriv := true);
    ExtendTwice(st1, a + w, b);
    var ps5 := ps4 + [WaitForIdle()] + [WaitForMe()];
    BothWaits(st, ps4);
    ExtendTwice(st1, a + w + b, w);
    RunReg(st, ps5, A5XX_CP_CNTL, 0);
  }

  lemma AnnounceMeaning(ring: RingAddresses, ctx: Context, ps: seq<Packet>, st: State)
    requires !Run(st, ps).apriv && !Run(st, ps).guarded
    ensures Run(st, Announce(ring, ctx, ps)) == Extend(Run(st, ps), SwitchTrace(ring, ctx, false))
  {
    hide Exec, Run;
    var ps1 := ps + [Nop(CONTEXT_TO_MEM_IDENTIFIER)];
    RunSilent(st, ps, Nop(CONTEXT_TO_MEM_IDENTIFIER));
    var ps2 := ps1 + [MemWrite(ring.currentContext, ctx.id)];
    RunMemWrite(st, ps1, ring.currentContext, ctx.id);
    var ps3 := ps2 + [MemWrite(ring.globalCurrentContext, ctx.id)];
    RunMemWrite(st, ps2, ring.globalCurrentContext, ctx.id);
    RunReg(st, ps3, A5XX_UCHE_INVALIDATE0, 0x12);
  }

  lemma ContextSwitchMeaning(ring: RingAddresses, ctx: Context, switchTable: bool, st: State)
    requires !st.apriv && !st.guarded
    ensures Run(st, ContextSwitch(ring, ctx, switchTable)) == Extend(st, SwitchTrace(ring, ctx, switchTable))
  {
    assert Run(st, []) == st;
    hide Exec, Run, PagetableSwitch, Announce;
    if switchTable {
      var table := PagetableSwitch(ring, ctx.id, ctx.ttbr0, []);
      PagetableSwitchMeaning(ring, ctx.id, ctx.ttbr0, [], st);
      AnnounceMeaning(ring, ctx, table, st);
    } else {
      AnnounceMeaning(ring, ctx, [], st);
    }
  }

  // -------------------------------------------------- whole submissions

  /** The modes in which the payload of a submission runs. */
  function PayloadModes(s: Submission, st: State): State {
    st.(secure := s.flags.secure, guarded := !s.flags.notProtected)
  }

  function OpeningTrace(s: Submission, st: State): seq<Event> {
    (if s.pre.Some? then [IbEvent(st, s.pre.value)] else [])
    + (if s.ctx.Some? then [Store(s.ctx.value.sopAddr, [s.timestamp], false)] else [])
    + [Store(s.ring.sop, [s.rbTimestamp], false)]
  }

  function ClosingTrace(t: Target, s: Submission, st: State): seq<Event> {
    (if s.post.Some? then [IbEvent(st.(secure := s.flags.secure), s.post.value)] else [])
    + Maybe(t.waitMemWrites, MemWait)
    + [Store(s.ring.refWaitTs, [s.sequence], false)]
    + (if s.ctx.Some? then [Stamp(s.ctx.value.eopAddr, s.timestamp, true)] else [])
    + [Stamp(s.ring.eop, s.rbTimestamp, s.ctx.None?)]
    + Maybe(s.flags.wfi, IdleWait)
    + Maybe(t.preemption, Yield(true))
  }

  /** Between submissions: protection on, secure mode and APRIV off. */
  predicate AtRest(st: State) {
    st.guarded && !st.secure && !st.apriv
  }

  lemma OpenedTrace(t: Target, s: Submission, st: State)
    requires AtRest(st)
    ensures Opened(t, s, st) == Extend(PayloadModes(s, AfterPreIb(t, s, st)), OpeningTrace(s, st))
  {
    var st0 := AfterPreIb(t, s, st);
    var a := if s.pre.Some? then [IbEvent(st, s.pre.value)] else [];
    var b := if s.ctx.Some? then [Store(s.ctx.value.sopAddr, [s.timestamp], false)] else [];
    var c := [Store(s.ring.sop, [s.rbTimestamp], false)];
    ExtendTwice(st0, a, b);
    ExtendTwice(st0, a + b, c);
    assert st0.events + [] == st0.events && st0.events + a + [] == st0.events + a;
  }

  lemma ClosedTrace(t: Target, s: Submission, st: State, rest: State)
    requires AtRest(rest) && st == PayloadModes(s, st) && !st.apriv
    ensures Closed(t, s, st) == Extend(st.(secure := false, guarded := true), ClosingTrace(t, s, rest))
  {
    var st0 := st.(secure := false, guarded := true);
    var a := if s.post.Some? then [IbEvent(rest.(secure := s.flags.secure), s.post.value)] else [];
    var m := Maybe(t.waitMemWrites, MemWait);
    var b := [Store(s.ring.refWaitTs, [s.sequence], false)];
    var c := if s.ctx.Some? then [Stamp(s.ctx.value.eopAddr, s.timestamp, true)] else [];
    var d := [Stamp(s.ring.eop, s.rbTimestamp, s.ctx.None?)];
    var w := Maybe(s.flags.wfi, IdleWait);
    var e := Maybe(t.preemption, Yield(true));
    ExtendTwice(st0, a, m);
    ExtendTwice(st0, a + m, b);
    ExtendTwice(st0, a + m + b, c);
    ExtendTwice(st0, a + m + b + c, d);
    ExtendTwice(st0, a + m + b + c + d, w);
    ExtendTwice(st0, a + m + b + c + d + w, e);
    ExtendNothing(st0);
    ExtendNothing(Extend(st0, a + m + b));
    ExtendNothing(Extend(st0, a + m + b + c + d + w));
  }

  /**
   A payload that leaves the modes alone runs in exactly the modes asked for,
   after the start timestamps and before the end timestamps, and the next
   submission finds the CP at rest again.
   */
  lemma SubmissionMeaning(t: Target, s: Submission, payload: seq<Packet>, trace: seq<Event>, st: State)
    requires AtRest(st)
    requires var st1 := Opened(t, s, st); Run(st1, payload) == Extend(st1, trace)
    ensures Run(st, AddCmds(t, s, payload))
         == Extend(AfterPreIb(t, s, st), OpeningTrace(s, st) + trace + ClosingTrace(t, s, st))
    ensures AtRest(Run(st, AddCmds(t, s, payload)))
  {
    AddCmdsMeaning(t, s, payload, st);
    OpenedTrace(t, s, st);
    hide Run, AddCmds, OpeningTrace, ClosingTrace;
    var st0 := PayloadModes(s, AfterPreIb(t, s, st));
    ExtendTwice(st0, OpeningTrace(s, st), trace);
    ClosedTrace(t, s, Extend(st0, OpeningTrace(s, st) + trace), st);
    ExtendTwice(AfterPreIb(t, s, st), OpeningTrace(s, st) + trace, ClosingTrace(t, s, st));
  }

  /** The submission of a draw object, from one rest state to the next. */
  lemma DrawSubmissionMeaning(t: Target, s: Submission, obj: DrawObj, slots: bool, slot: nat, st: State)
    requires AtRest(st)
    ensures var fin := Run(st, AddCmds(t, s, SubmitCmd(t, s.ring, obj, s.flags, slots, slot)));
      && AtRest(fin)
      && fin == Extend(AfterPreIb(t, s, st),
           OpeningTrace(s, st)
           + DrawTrace(t, s.ring, obj, s.flags, slots, slot, PayloadModes(s, st))
           + ClosingTrace(t, s, st))
  {
    var st1 := Opened(t, s, st);
    SubmitCmdMeaning(t, s.ring, obj, s.flags, slots, slot, st1);
    OpenedTrace(t, s, st);
    hide Run, AddCmds, SubmitCmd;
    SameDrawTrace(t, s.ring, obj, s.flags, slots, slot, st1, PayloadModes(s, st));
    SubmissionMeaning(t, s, SubmitCmd(t, s.ring, obj, s.flags, slots, slot),
      DrawTrace(t, s.ring, obj, s.flags, slots, slot, st1), st);
  }

  lemma SameDrawTrace(t: Target, ring: RingAddresses, obj: DrawObj, flags: Flags, slots: bool, slot: nat, st1: State, st: State)
    requires st1.secure == st.secure && st1.guarded == st.guarded
    ensures DrawTrace(t, ring, obj, flags, slots, slot, st1) == DrawTrace(t, ring, obj, flags, slots, slot, st)
  {
    SameIbEvents(st1, st, ProfileSlot(ring, slot), ProfileSlot(ring, NextSlot(slot)),
      Kept(flags, obj.ibs));
    SameIbEvents(st1, st, ProfileSlot(ring, slot), ProfileSlot(ring, NextSlot(slot)), []);
  }

  /** The context switch submission: table, copy of the table, and no protection violation on the way. */
  lemma SwitchSubmissionMeaning(t: Target, s: Submission, ctx: Context, switchTable: bool, st: State)
    requires AtRest(st) && s.flags == NoFlags.(notProtected := true)
    ensures var fin := Run(st, AddCmds(t, s, ContextSwitch(s.ring, ctx, switchTable)));
      && AtRest(fin)
      && fin == Extend(AfterPreIb(t, s, st),
           OpeningTrace(s, st) + SwitchTrace(s.ring, ctx, switchTable) + ClosingTrace(t, s, st))
  {
    var st1 := Opened(t, s, st);
    OpenedTrace(t, s, st);
    ContextSwitchMeaning(s.ring, ctx, switchTable, st1);
    hide Run, AddCmds, ContextSwitch;
    SubmissionMeaning(t, s, ContextSwitch(s.ring, ctx, switchTable), SwitchTrace(s.ring, ctx, switchTable), st);
  }

  /** With protection left on, the same context switch would not get through. */
  lemma GuardedSwitchIsRefused(ring: RingAddresses, id: nat, ttbr0: nat, st: State)
    requires st.guarded
    ensures Violation(A5XX_CP_CNTL) in Run(st, PagetableSwitch(ring, id, ttbr0, [])).events
  {
    assert Run(st, []) == st;
    hide Exec, Run;
    var ps1 := [TableUpdate(ttbr0, id)];
    RunTableUpdate(st, [], ttbr0, id);
    assert [] + ps1 == ps1;
    var ps2 := ps1 + [WaitForIdle()] + [WaitForMe()];
    RunControl(st, ps1, WaitForIdle());
    RunControl(st, ps1 + [WaitForIdle()], WaitForMe());
    var ps3 := ps2 + [Reg(A5XX_CP_CNTL, 1)];
    RunReg(st, ps2, A5XX_CP_CNTL, 1);
    var ps4 := ps3 + [ScratchTable(ring.scratchTtbr0, ttbr0, id)];
    RunScratchTable(st, ps3, ring.scratchTtbr0, ttbr0, id);
    var ps5 := ps4 + [WaitForIdle()] + [WaitForMe()];
    RunControl(st, ps4, WaitForIdle());
    RunControl(st, ps4 + [WaitForIdle()], WaitForMe());
    RunReg(st, ps5, A5XX_CP_CNTL, 0);
    assert Run(st, ps3).events[|st.events| + 3] == Violation(A5XX_CP_CNTL);
  }
}
