/** A small interpreter of PM4 packets: what the command processor makes of a stream. */
module CommandProcessor {
  import opened Pm4

  const CP_NOP := 0x10
  const CP_WAIT_MEM_WRITES := 0x12
  const CP_WAIT_FOR_ME := 0x13
  const CP_YIELD_ENABLE := 0x1C
  const CP_REG_RMW := 0x21
  const CP_WAIT_FOR_IDLE := 0x26
  const CP_SET_CONSTANT := 0x2d
  const CP_INVALIDATE_STATE := 0x3b
  const CP_MEM_WRITE := 0x3d
  const CP_REG_TO_MEM := 0x3e
  const CP_INDIRECT_BUFFER_PFE := 0x3F
  const CP_EVENT_WRITE := 0x46
  const CP_WAIT_REG_EQ := 0x52
  const CP_SMMU_TABLE_UPDATE := 0x53
  const CP_SET_PROTECTED_MODE := 0x5f
  const CP_WHERE_AM_I := 0x62
  const CP_SET_SECURE_MODE := 0x66
  const CP_PREEMPT_ENABLE_GLOBAL := 0x69
  const CP_PREEMPT_ENABLE_LOCAL := 0x6A
  const CP_CONTEXT_SWITCH_YIELD := 0x6B
  const CP_SET_RENDER_MODE := 0x6C
  const CP_REG_WR_NO_CTXT := 0x78

  const CACHE_FLUSH_TS := 4

  const A5XX_CP_CNTL := 0x831
  const A5XX_CP_CONTEXT_SWITCH_SAVE_ADDR_LO := 0x83E
  const A5XX_CP_CONTEXT_SWITCH_SAVE_ADDR_HI := 0x83F
  const A5XX_UCHE_INVALIDATE0 := 0xE95

  // 64-bit addresses in two words
  function Lo(a: nat): nat { a % 0x1_0000_0000 }
  function Hi(a: nat): nat { a / 0x1_0000_0000 }
  function Join(lo: nat, hi: nat): nat { hi * 0x1_0000_0000 + lo }

  /** What the outside world sees of a stream, in order. */
  datatype Event =
    | RunIb(addr: nat, dwords: nat, secure: bool, guarded: bool)
    | Store(addr: nat, values: seq<nat>, apriv: bool)
    | Stamp(addr: nat, value: nat, irq: bool)
    | CopyRegister(reg: nat, wide: bool, count: nat, addr: nat)  // bit 30, and the count above the register
    | UseTable(ttbr0: nat, contextidr: nat)
    | ReportRptr(addr: nat)
    | Yield(irq: bool)
    | WriteRegisters(reg: nat, values: seq<nat>)
    | ModifyRegister(reg: nat, mask: nat, bits: nat)
    | WaitRegister(reg: nat, value: nat, mask: nat)
    | Violation(reg: nat)
    | Control(op: nat, values: seq<nat>)  // waits, yield enables and whatever else has no effect here

  datatype State = State(
    secure: bool,    // CP_SET_SECURE_MODE
    guarded: bool,   // CP_SET_PROTECTED_MODE
    apriv: bool,     // CP_CNTL
    saveLo: nat, saveHi: nat,
    global: nat, local: nat,
    events: seq<Event>
  )

  function Value(w: Word): nat {
    if w.Data? then w.v else 0
  }

  function Values(ws: seq<Word>): seq<nat> {
    seq(|ws|, i requires 0 <= i < |ws| => Value(ws[i]))
  }

  /** The register ranges of a5xx_protected_blocks. */
  predicate Protected(reg: nat) {
    || 0x4 <= reg < 0xC0 || 0xF800 <= reg < 0xF810 || 0xF400 <= reg < 0xF402
    || 0x800 <= reg < 0x848 || 0x880 <= reg < 0x8A0 || reg == 0xAA0
    || reg == 0xCC0 || 0xCF0 <= reg < 0xCF2
    || 0xE68 <= reg < 0xE80 || 0xE80 <= reg < 0xE90
  }

  function Note(st: State, e: Event): State {
    st.(events := st.events + [e])
  }

  function WriteReg(st: State, reg: nat, values: seq<nat>): State
    requires |values| > 0
  {
    if st.guarded && Protected(reg) then Note(st, Violation(reg))
    else if reg == A5XX_CP_CNTL then st.(apriv := values[0] != 0)
    else if reg == A5XX_CP_CONTEXT_SWITCH_SAVE_ADDR_LO then st.(saveLo := values[0])
    else if reg == A5XX_CP_CONTEXT_SWITCH_SAVE_ADDR_HI then st.(saveHi := values[0])
    else Note(st, WriteRegisters(reg, values))
  }

  /** One packet. NOPs do nothing; packets that wait or tune are noted, in their place and with their values. */
  function Exec(st: State, p: Packet): State {
    var n := |p.payload|;
    var v := Values(p.payload);
    match p.h
    case Type7(op, _) =>
      if op == CP_INDIRECT_BUFFER_PFE && n == 3 then
        Note(st, RunIb(Join(v[0], v[1]), v[2], st.secure, st.guarded))
      else if op == CP_MEM_WRITE && n >= 3 then Note(st, Store(Join(v[0], v[1]), v[2..], st.apriv))
      else if op == CP_EVENT_WRITE && n == 4 && v[0] % 0x8000_0000 == CACHE_FLUSH_TS then
        Note(st, Stamp(Join(v[1], v[2]), v[3], v[0] >= 0x8000_0000))
      else if op == CP_REG_TO_MEM && n == 3 then Note(st, CopyRegister(v[0] % 0x4_0000, v[0] / 0x4000_0000 % 2 == 1, v[0] / 0x4_0000 % 0x1000, Join(v[1], v[2])))
      else if op == CP_SMMU_TABLE_UPDATE && n == 3 then Note(st, UseTable(Join(v[0], v[1]), v[2]))
      else if op == CP_SET_SECURE_MODE && n == 1 then st.(secure := v[0] != 0)
      else if op == CP_SET_PROTECTED_MODE && n == 1 then st.(guarded := v[0] != 0)
      else if op == CP_PREEMPT_ENABLE_GLOBAL && n == 1 then st.(global := v[0])
      else if op == CP_PREEMPT_ENABLE_LOCAL && n == 1 then st.(local := v[0])
      else if op == CP_WHERE_AM_I && n == 2 then Note(st, ReportRptr(Join(v[0], v[1])))
      else if op == CP_CONTEXT_SWITCH_YIELD && n == 4 then Note(st, Yield(v[3] == 1))
      else if op == CP_NOP then st
      else Note(st, Control(op, v))
    case Type3(op, _) =>
      if op == CP_INDIRECT_BUFFER_PFE && n == 2 then Note(st, RunIb(v[0], v[1], st.secure, st.guarded))
      else if op == CP_MEM_WRITE && n >= 2 then Note(st, Store(v[0], v[1..], st.apriv))
      else if op == CP_EVENT_WRITE && n == 3 && v[0] % 0x8000_0000 == CACHE_FLUSH_TS then
        Note(st, Stamp(v[1], v[2], v[0] >= 0x8000_0000))
      else if op == CP_SET_PROTECTED_MODE && n == 1 then st.(guarded := v[0] != 0)
      else if op == CP_REG_RMW && n == 3 then Note(st, ModifyRegister(v[0], v[1], v[2]))
      else if op == CP_WAIT_REG_EQ && n == 4 then Note(st, WaitRegister(v[0], v[1], v[2]))
      else if op == CP_REG_WR_NO_CTXT && n >= 2 then Note(st, WriteRegisters(v[0], v[1..]))
      else if op == CP_NOP then st
      else Note(st, Control(op, v))
    case Type4(reg, _) => if n >= 1 then WriteReg(st, reg, v) else st
    case Type0(reg, _) => if n >= 1 then WriteReg(st, reg, v) else st
  }

  function Run(st: State, ps: seq<Packet>): State {
    if ps == [] then st else Exec(Run(st, ps[..|ps| - 1]), ps[|ps| - 1])
  }

  lemma RunSnoc(st: State, ps: seq<Packet>, p: Packet)
    ensures Run(st, ps + [p]) == Exec(Run(st, ps), p)
  {
    assert (ps + [p])[..|ps|] == ps;
  }

  lemma {:induction false} RunConcat(st: State, a: seq<Packet>, b: seq<Packet>)
    ensures Run(st, a + b) == Run(Run(st, a), b)
  {
    if b == [] {
      assert a + b == a;
    } else {
      var init := b[..|b| - 1];
      assert (a + b)[..|a + b| - 1] == a + init;
      RunConcat(st, a, init);
    }
  }

  lemma JoinSplit(a: nat)
    ensures Join(Lo(a), Hi(a)) == a
  {}
}
