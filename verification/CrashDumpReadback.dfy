/** What the crash dumper makes of the script, and what the snapshot code reads out of the data. */
module CrashDumpReadback {
  import opened Wrappers
  import opened CrashDump

  /** The registers: the value of a register may depend on what the aperture has been set to show. */
  type Hardware = (nat, nat) -> nat

  /** The dumper: the aperture selector and the data buffer in dwords. */
  datatype Dumper = Dumper(sel: nat, mem: seq<nat>)

  function Read(hw: Hardware, sel: nat, reg: nat, count: nat): (vs: seq<nat>)
    ensures |vs| == count
  {
    seq(count, i requires 0 <= i < count => hw(sel, reg + i))
  }

  /** The buffer with `values` from dword k on. */
  function Filled(mem: seq<nat>, k: nat, values: seq<nat>): (after: seq<nat>)
    requires k + |values| <= |mem|
    ensures |after| == |mem|
  {
    mem[..k] + values + mem[k + |values|..]
  }

  /** One command: bit 21 tells a register write from a read into memory. */
  function DumpStep(hw: Hardware, base: nat, d: Dumper, q0: nat, q1: nat): Dumper {
    var reg, low := q1 / REG_UNIT, q1 % REG_UNIT;
    if low / WRITE_FLAG % 2 == 1 then
      if reg == READ_SEL then d.(sel := q0) else d
    else
      var count := low % WRITE_FLAG;
      if q0 >= base && (q0 - base) / 4 + count <= |d.mem|
      then d.(mem := Filled(d.mem, (q0 - base) / 4, Read(hw, d.sel, reg, count)))
      else d
  }

  /** The dumper stops at the first command whose second qword is zero. */
  function Dump(hw: Hardware, base: nat, d: Dumper, qs: seq<nat>): Dumper
    decreases |qs|
  {
    if |qs| < 2 || qs[1] == 0 then d
    else Dump(hw, base, DumpStep(hw, base, d, qs[0], qs[1]), qs[2..])
  }

  function Select(sel: nat, p: Piece): nat {
    if p.select.Some? then p.select.value else sel
  }

  /** What the aperture shows after the pieces. */
  function SelectAfter(sel: nat, ps: seq<Piece>): nat {
    if ps == [] then sel else Select(SelectAfter(sel, ps[..|ps| - 1]), ps[|ps| - 1])
  }

  /** The data of all pieces, one after the other. */
  function Values(hw: Hardware, sel: nat, ps: seq<Piece>): (vs: seq<nat>)
    ensures |vs| == Total(ps)
  {
    if ps == [] then []
    else
      var init, p := ps[..|ps| - 1], ps[|ps| - 1];
      Values(hw, sel, init) + Read(hw, Select(SelectAfter(sel, init), p), p.reg, p.count)
  }

  predicate PieceOk(p: Piece) {
    p.count < WRITE_FLAG && (p.reg > 0 || p.count > 0)
  }

  // -------------------------------------------------- running the script

  lemma Fields(reg: nat, low: nat)
    requires low < REG_UNIT
    ensures (reg * REG_UNIT + low) / REG_UNIT == reg && (reg * REG_UNIT + low) % REG_UNIT == low
  {}

  lemma WriteIsRecognised(hw: Hardware, base: nat, d: Dumper, value: nat)
    ensures DumpStep(hw, base, d, value, READ_SEL * REG_UNIT + WRITE_FLAG + 1) == d.(sel := value)
  {
    Fields(READ_SEL, WRITE_FLAG + 1);
  }

  lemma ReadIsRecognised(hw: Hardware, base: nat, d: Dumper, k: nat, p: Piece)
    requires PieceOk(p) && k + p.count <= |d.mem|
    ensures DumpStep(hw, base, d, base + 4 * k, p.reg * REG_UNIT + p.count)
         == d.(mem := Filled(d.mem, k, Read(hw, d.sel, p.reg, p.count)))
    ensures p.reg * REG_UNIT + p.count != 0
  {
    Fields(p.reg, p.count);
  }

  lemma CommandRuns(hw: Hardware, base: nat, d: Dumper, k: nat, p: Piece, rest: seq<nat>)
    requires PieceOk(p) && k + p.count <= |d.mem|
    ensures var sel := Select(d.sel, p);
      Dump(hw, base, d, Command(p, base + 4 * k) + rest)
        == Dump(hw, base, Dumper(sel, Filled(d.mem, k, Read(hw, sel, p.reg, p.count))), rest)
  {
    var qs := Command(p, base + 4 * k) + rest;
    if p.select.Some? {
      WriteIsRecognised(hw, base, d, p.select.value);
      var d1 := d.(sel := p.select.value);
      ReadIsRecognised(hw, base, d1, k, p);
      assert qs[2..][2..] == rest && qs[2..][0] == base + 4 * k && qs[2..][1] == p.reg * REG_UNIT + p.count;
      assert Dump(hw, base, d, qs) == Dump(hw, base, d1, qs[2..]);
    } else {
      ReadIsRecognised(hw, base, d, k, p);
      assert qs[2..] == rest;
    }
  }

  lemma FilledTwice(mem: seq<nat>, k: nat, a: seq<nat>, b: seq<nat>)
    requires k + |a| + |b| <= |mem|
    ensures Filled(Filled(mem, k, a), k + |a|, b) == Filled(mem, k, a + b)
  {}

  /** The script for some pieces is that for all but the last, and the command of the last at the offset reached. */
  lemma LastCommand(base: nat, k: nat, ps: seq<Piece>, rest: seq<nat>)
    requires ps != []
    ensures var init, p := ps[..|ps| - 1], ps[|ps| - 1];
      Script(ps, base, 4 * k) + rest
        == Script(init, base, 4 * k) + (Command(p, base + 4 * (k + Total(init))) + rest)
  {
    hide Command;
  }

  /** The script for some pieces fills exactly their part of the buffer, in order and without gaps. */
  lemma {:induction false} ScriptRuns(hw: Hardware, base: nat, d: Dumper, k: nat, ps: seq<Piece>, rest: seq<nat>)
    requires (forall i | 0 <= i < |ps| :: PieceOk(ps[i])) && k + Total(ps) <= |d.mem|
    ensures Dump(hw, base, d, Script(ps, base, 4 * k) + rest)
         == Dump(hw, base, Dumper(SelectAfter(d.sel, ps), Filled(d.mem, k, Values(hw, d.sel, ps))), rest)
  {
    hide Dump, Command, PieceOk, Filled, Read, Select, Script;
    if ps == [] {
      NothingRuns(base, k, d, rest);
    } else {
      var init, p := ps[..|ps| - 1], ps[|ps| - 1];
      var n := k + Total(init);
      LastCommand(base, k, ps, rest);
      ScriptRuns(hw, base, d, k, init, Command(p, base + 4 * n) + rest);
      var d1 := Dumper(SelectAfter(d.sel, init), Filled(d.mem, k, Values(hw, d.sel, init)));
      CommandRuns(hw, base, d1, n, p, rest);
      FilledTwice(d.mem, k, Values(hw, d.sel, init), Read(hw, Select(d1.sel, p), p.reg, p.count));
    }
  }

  lemma NothingRuns(base: nat, k: nat, d: Dumper, rest: seq<nat>)
    requires k <= |d.mem|
    ensures Script([], base, 4 * k) + rest == rest && Filled(d.mem, k, []) == d.mem
  {}

  lemma PlanIsOk(main: seq<Range>, gpmu: seq<Range>, shaders: seq<Shader>, hlsqs: seq<Hlsq>)
    requires RangesOk(main) && RangesOk(gpmu) && ShadersOk(shaders) && HlsqsOk(hlsqs)
    ensures forall k | 0 <= k < |Plan(main, gpmu, shaders, hlsqs)| :: PieceOk(Plan(main, gpmu, shaders, hlsqs)[k])
  {
    ShaderPiecesAreOk(shaders);
  }

  lemma {:induction false} ShaderPiecesAreOk(bs: seq<Shader>)
    requires ShadersOk(bs)
    ensures forall k | 0 <= k < |ShaderPieces(bs)| :: PieceOk(ShaderPieces(bs)[k])
  {
    if bs != [] { ShaderPiecesAreOk(bs[..|bs| - 1]); }
  }

  /** The ranges of the script tile the data buffer: whatever it held before, afterwards it is the data of the plan. */
  lemma DumpFillsTheBuffer(hw: Hardware, base: nat, sel: nat, mem: seq<nat>,
                           main: seq<Range>, gpmu: seq<Range>, shaders: seq<Shader>, hlsqs: seq<Hlsq>)
    requires RangesOk(main) && RangesOk(gpmu) && ShadersOk(shaders) && HlsqsOk(hlsqs)
    requires |mem| == Total(Plan(main, gpmu, shaders, hlsqs))
    ensures var plan := Plan(main, gpmu, shaders, hlsqs);
      Dump(hw, base, Dumper(sel, mem), Script(plan, base, 0) + [0, 0]).mem == Values(hw, sel, plan)
  {
    var plan := Plan(main, gpmu, shaders, hlsqs);
    PlanIsOk(main, gpmu, shaders, hlsqs);
    hide Script, Plan, Values;
    ScriptRuns(hw, base, Dumper(sel, mem), 0, plan, [0, 0]);
    assert Filled(mem, 0, Values(hw, sel, plan)) == Values(hw, sel, plan);
  }

  // -------------------------------------------------------- the readers

  lemma {:induction false} ValuesConcat(hw: Hardware, sel: nat, a: seq<Piece>, b: seq<Piece>)
    ensures SelectAfter(sel, a + b) == SelectAfter(SelectAfter(sel, a), b)
    ensures Values(hw, sel, a + b) == Values(hw, sel, a) + Values(hw, SelectAfter(sel, a), b)
  {
    if b == [] {
      assert a + b == a;
    } else {
      assert (a + b)[..|a + b| - 1] == a + b[..|b| - 1];
      ValuesConcat(hw, sel, a, b[..|b| - 1]);
    }
  }

  /** How many ranges fit whole into `room` bytes at 8 bytes a register, counted from the front. */
  function Fitting(rs: seq<Range>, room: nat): (m: nat)
    requires RangesOk(rs)
    ensures m <= |rs|
    decreases |rs|
  {
    if rs == [] || room < 8 * PairCount(rs[0]) then 0
    else 1 + Fitting(rs[1..], room - 8 * PairCount(rs[0]))
  }

  /** A register and its value, as the snapshot stores them. */
  function RegPair(reg: nat, value: nat): (nat, nat) { (reg, value) }

  /** Each register of a range with the dword that belongs to it, the first at `src`. */
  function Paired(r: Range, mem: seq<nat>, src: nat, n: nat): seq<(nat, nat)>
    requires src + n <= |mem|
  {
    seq(n, i requires 0 <= i < n => RegPair(r.first + i, mem[src + i]))
  }

  function PairedAll(rs: seq<Range>, mem: seq<nat>): seq<(nat, nat)>
    requires RangesOk(rs) && Total(RangePieces(rs)) <= |mem|
  {
    if rs == [] then []
    else
      RangeSnoc(rs, |rs| - 1);
      assert rs[..|rs|] == rs;
      var init, r := rs[..|rs| - 1], rs[|rs| - 1];
      PairedAll(init, mem) + Paired(r, mem, Total(RangePieces(init)), PairCount(r))
  }

  lemma FirstRange(rs: seq<Range>, j: nat)
    requires RangesOk(rs) && 0 < j <= |rs|
    ensures RangesOk(rs[..j]) && RangesOk(rs[1..]) && RangesOk(rs[1..][..j - 1])
    ensures Total(RangePieces(rs[..j])) == PairCount(rs[0]) + Total(RangePieces(rs[1..][..j - 1]))
  {
    var first := RangePieces(rs[..1]);
    assert RangePieces(rs[..j]) == first + RangePieces(rs[1..][..j - 1]);
    Sums(first, RangePieces(rs[1..][..j - 1]));
    assert first[..0] == [] && Total(first) == PairCount(rs[0]);
  }

  lemma {:induction false} FittingPrefix(rs: seq<Range>, room: nat, j: nat, left: nat)
    requires RangesOk(rs) && j <= |rs| && left + 8 * Total(RangePieces(rs[..j])) == room
    ensures Fitting(rs, room) >= j ==> Fitting(rs, room) == j + Fitting(rs[j..], left)
    ensures Fitting(rs, room) >= j
    decreases |rs|
  {
    if j == 0 {
      assert rs[0..] == rs && RangePieces(rs[..0]) == [];
    } else {
      FirstRange(rs, j);
      hide RangePieces, Total;
      FittingPrefix(rs[1..], room - 8 * PairCount(rs[0]), j - 1, left);
      assert rs[1..][j - 1..] == rs[j..];
    }
  }

  /** sizeof(struct kgsl_snapshot_regs). */
  const HEADER_BYTES := 4

  /**
   a5xx_snapshot_registers with a valid crash dump. `count` goes to the header;
   the result is the size of the section.
   */
  method SnapshotRegisters(rs: seq<Range>, mem: seq<nat>, remain: nat)
    returns (data: seq<(nat, nat)>, count: nat, size: nat)
    requires RangesOk(rs) && Total(RangePieces(rs)) <= |mem|
    ensures remain < HEADER_BYTES ==> data == [] && size == 0
    ensures remain >= HEADER_BYTES ==>
      && var m := Fitting(rs, remain - HEADER_BYTES);
      && Total(RangePieces(rs[..m])) <= |mem|
      && data == PairedAll(rs[..m], mem)
      && count == |data| == Total(RangePieces(rs[..m]))
      && size == 8 * count + HEADER_BYTES <= remain
  {
    data, count, size := [], 0, 0;
    if remain < HEADER_BYTES {
      return;
    }
    var left := remain - HEADER_BYTES;
    ghost var room := left;
    var j, src := 0, 0;
    NothingPaired(rs, mem);
    hide PairedAll, Paired, RangePieces, Total, Fitting, RangesOk;
    while j < |rs|
      invariant 0 <= j <= |rs| && RangesOk(rs[..j])
      invariant src == count == Total(RangePieces(rs[..j])) <= |mem|
      invariant 0 <= left && left + 8 * src == room
      invariant data == PairedAll(rs[..j], mem)
    {
      RangeIsOk(rs, j);
      var n := PairCount(rs[j]);
      if left < n * 8 {
        break;
      }
      left := left - n * 8;
      NextRange(rs, j, mem);
      var more := CopyRange(rs[j], mem, src, n);
      data := data + more;
      count, src := count + n, src + n;
      j := j + 1;
    }
    FitsNoMore(rs, room, j, left);
    PairCounts(rs[..j], mem);
    size := count * 8 + HEADER_BYTES;
  }

  lemma FitsNoMore(rs: seq<Range>, room: nat, j: nat, left: nat)
    requires RangesOk(rs) && j <= |rs| && left + 8 * Total(RangePieces(rs[..j])) == room
    requires j < |rs| ==> left < 8 * PairCount(rs[j])
    ensures Fitting(rs, room) == j
  {
    hide RangePieces, Total;
    FittingPrefix(rs, room, j, left);
  }

  lemma RangeIsOk(rs: seq<Range>, j: nat)
    requires RangesOk(rs) && j < |rs|
    ensures rs[j].first <= rs[j].last && RangesOk(rs[..j + 1])
  {}

  lemma NextRange(rs: seq<Range>, j: nat, mem: seq<nat>)
    requires RangesOk(rs) && j < |rs| && Total(RangePieces(rs)) <= |mem|
    ensures RangesOk(rs[..j]) && RangesOk(rs[..j + 1])
    ensures var src, n := Total(RangePieces(rs[..j])), PairCount(rs[j]);
      && Total(RangePieces(rs[..j + 1])) == src + n <= |mem|
      && PairedAll(rs[..j + 1], mem) == PairedAll(rs[..j], mem) + Paired(rs[j], mem, src, n)
  {
    PrefixFits(rs, j, mem);
    hide RangePieces, Total, Paired, PairedAll;
    PrefixPairs(rs, j, mem);
  }

  lemma NothingPaired(rs: seq<Range>, mem: seq<nat>)
    requires RangesOk(rs)
    ensures RangesOk(rs[..0]) && Total(RangePieces(rs[..0])) == 0 && PairedAll(rs[..0], mem) == []
  {
    assert RangePieces(rs[..0]) == [];
  }

  /** The inner loop: one whole range. */
  method CopyRange(r: Range, mem: seq<nat>, src: nat, n: nat) returns (data: seq<(nat, nat)>)
    requires src + n <= |mem|
    ensures data == Paired(r, mem, src, n)
  {
    data := [];
    var k := 0;
    while k < n
      invariant 0 <= k <= n && data == Paired(r, mem, src, k)
    {
      data := data + [(r.first + k, mem[src + k])];
      k := k + 1;
    }
  }

  lemma PrefixFits(rs: seq<Range>, j: nat, mem: seq<nat>)
    requires RangesOk(rs) && j < |rs| && Total(RangePieces(rs)) <= |mem|
    ensures Total(RangePieces(rs[..j + 1])) == Total(RangePieces(rs[..j])) + PairCount(rs[j]) <= |mem|
  {
    RangeSnoc(rs, j);
    assert RangePieces(rs) == RangePieces(rs[..j + 1]) + RangePieces(rs)[j + 1..];
    Sums(RangePieces(rs[..j + 1]), RangePieces(rs)[j + 1..]);
  }

  lemma PrefixPairs(rs: seq<Range>, j: nat, mem: seq<nat>)
    requires RangesOk(rs) && j < |rs| && Total(RangePieces(rs[..j + 1])) <= |mem|
    requires Total(RangePieces(rs[..j])) + PairCount(rs[j]) <= |mem|
    ensures PairedAll(rs[..j + 1], mem)
         == PairedAll(rs[..j], mem) + Paired(rs[j], mem, Total(RangePieces(rs[..j])), PairCount(rs[j]))
  {
    assert rs[..j + 1][..j] == rs[..j];
    hide RangePieces, Paired;
  }

  /** The registers of the ranges, each with its own value. */
  function TruePairs(hw: Hardware, sel: nat, rs: seq<Range>): seq<(nat, nat)>
    requires RangesOk(rs)
  {
    if rs == [] then []
    else
      var r := rs[|rs| - 1];
      TruePairs(hw, sel, rs[..|rs| - 1])
        + seq(PairCount(r), i requires 0 <= i < PairCount(r) => RegPair(r.first + i, hw(sel, r.first + i)))
  }

  lemma {:induction false} RangesDoNotSelect(sel: nat, rs: seq<Range>)
    requires RangesOk(rs)
    ensures SelectAfter(sel, RangePieces(rs)) == sel
  {
    if rs != [] {
      RangeSnoc(rs, |rs| - 1);
      assert rs[..|rs|] == rs;
      RangesDoNotSelect(sel, rs[..|rs| - 1]);
    }
  }

  lemma {:induction false} MainReadback(hw: Hardware, sel: nat, rs: seq<Range>, rest: seq<nat>)
    requires RangesOk(rs)
    ensures PairedAll(rs, Values(hw, sel, RangePieces(rs)) + rest) == TruePairs(hw, sel, rs)
  {
    if rs != [] {
      var init, r := rs[..|rs| - 1], rs[|rs| - 1];
      RangeSnoc(rs, |rs| - 1);
      assert rs[..|rs|] == rs;
      RangesDoNotSelect(sel, init);
      var own := Read(hw, sel, r.first, PairCount(r));
      var mem := Values(hw, sel, RangePieces(rs)) + rest;
      assert mem == Values(hw, sel, RangePieces(init)) + (own + rest);
      MainReadback(hw, sel, init, own + rest);
      assert Paired(r, mem, Total(RangePieces(init)), PairCount(r))
          == seq(PairCount(r), i requires 0 <= i < PairCount(r) => RegPair(r.first + i, hw(sel, r.first + i)));
    }
  }

  /**
   Dumping and then reading back the main register list gives each register its
   own value, for as many whole ranges from the front as there is room for.
   */
  lemma MainRegistersComeBack(hw: Hardware, sel: nat, main: seq<Range>, gpmu: seq<Range>, shaders: seq<Shader>,
                              hlsqs: seq<Hlsq>, room: nat)
    requires RangesOk(main) && RangesOk(gpmu)
    ensures var mem := Values(hw, sel, Plan(main, gpmu, shaders, hlsqs));
      var m := Fitting(main, room);
      && Total(RangePieces(main[..m])) <= |mem|
      && PairedAll(main[..m], mem) == TruePairs(hw, sel, main[..m])
  {
    var m := Fitting(main, room);
    var first, later := main[..m], main[m..];
    var tail := RangePieces(later) + (RangePieces(gpmu) + ShaderPieces(shaders) + HlsqPieces(hlsqs));
    assert Plan(main, gpmu, shaders, hlsqs) == RangePieces(first) + tail;
    ValuesConcat(hw, sel, RangePieces(first), tail);
    Sums(RangePieces(first), tail);
    MainReadback(hw, sel, first, Values(hw, SelectAfter(sel, RangePieces(first)), tail));
  }

  // ------------------------------------------------------------- HLSQ

  /** get_hlsq_registers: the registers of a block under their AHB addresses. */
  method GetHlsqRegisters(h: Hlsq, src: nat, mem: seq<nat>) returns (data: seq<(nat, nat)>)
    requires src + h.size <= |mem|
    ensures data == seq(h.size, i requires 0 <= i < h.size => (h.ahbaddr + i, mem[src + i]))
  {
    data := [];
    var i := 0;
    while i < h.size
      invariant 0 <= i <= h.size
      invariant data == seq(i, k requires 0 <= k < i => (h.ahbaddr + k, mem[src + k]))
    {
      data := data + [(h.ahbaddr + i, mem[src + i])];
      i := i + 1;
    }
  }

  /** Where the data of block k begins if the first block's begins at `start`. */
  function BlockAt(hs: seq<Hlsq>, start: nat, k: nat): nat
    requires k <= |hs|
  {
    start + Total(HlsqPieces(hs[..k]))
  }

  function HlsqPairs(hs: seq<Hlsq>, start: nat, mem: seq<nat>): seq<(nat, nat)>
    requires start + Total(HlsqPieces(hs)) <= |mem|
  {
    if hs == [] then []
    else
      HlsqSnoc(hs, |hs| - 1);
      assert hs[..|hs|] == hs;
      var init, h := hs[..|hs| - 1], hs[|hs| - 1];
      var src := start + Total(HlsqPieces(init));
      HlsqPairs(init, start, mem) + seq(h.size, i requires 0 <= i < h.size => (h.ahbaddr + i, mem[src + i]))
  }

  /** a5xx_snapshot_dump_hlsq_sp_tp_regs, with the byte offsets that the emitting pass left in the table. */
  method DumpHlsqRegs(hs: seq<Hlsq>, offsets: seq<nat>, mem: seq<nat>, remain: nat, ghost start: nat)
    returns (data: seq<(nat, nat)>, count: nat, size: nat)
    requires |offsets| == |hs| && start + Total(HlsqPieces(hs)) <= |mem|
    requires forall k | 0 <= k < |hs| :: offsets[k] == 4 * BlockAt(hs, start, k)
    ensures count == Total(HlsqPieces(hs))
    ensures remain < 8 * count + HEADER_BYTES ==> data == [] && size == 0
    ensures remain >= 8 * count + HEADER_BYTES ==>
      data == HlsqPairs(hs, start, mem) && |data| == count && size == 8 * count + HEADER_BYTES
  {
    data, count, size := [], 0, 0;
    var i := 0;
    assert HlsqPieces(hs[..0]) == [];
    while i < |hs|
      invariant 0 <= i <= |hs| && count == Total(HlsqPieces(hs[..i]))
    {
      HlsqSnoc(hs, i);
      count := count + hs[i].size;
      i := i + 1;
    }
    assert hs[..i] == hs;
    if remain < count * 8 + HEADER_BYTES {
      return;
    }
    i := 0;
    while i < |hs|
      invariant 0 <= i <= |hs|
      invariant start + Total(HlsqPieces(hs[..i])) <= |mem|
      invariant data == HlsqPairs(hs[..i], start, mem) && |data| == Total(HlsqPieces(hs[..i]))
    {
      HlsqPrefix(hs, i, start, mem);
      assert offsets[i] == 4 * BlockAt(hs, start, i);
      var more := GetHlsqRegisters(hs[i], offsets[i] / 4, mem);
      data := data + more;
      i := i + 1;
    }
    assert hs[..i] == hs;
    size := count * 8 + HEADER_BYTES;
  }

  lemma HlsqPrefix(hs: seq<Hlsq>, i: nat, start: nat, mem: seq<nat>)
    requires i < |hs| && start + Total(HlsqPieces(hs)) <= |mem|
    ensures Total(HlsqPieces(hs[..i + 1])) == Total(HlsqPieces(hs[..i])) + hs[i].size
    ensures start + Total(HlsqPieces(hs[..i + 1])) <= |mem|
    ensures HlsqPairs(hs[..i + 1], start, mem) == HlsqPairs(hs[..i], start, mem)
         + seq(hs[i].size, k requires 0 <= k < hs[i].size =>
             (hs[i].ahbaddr + k, mem[start + Total(HlsqPieces(hs[..i])) + k]))
  {
    HlsqSnoc(hs, i);
    assert hs[..i + 1][..i] == hs[..i];
    assert HlsqPieces(hs) == HlsqPieces(hs[..i + 1]) + HlsqPieces(hs)[i + 1..];
    Sums(HlsqPieces(hs[..i + 1]), HlsqPieces(hs)[i + 1..]);
  }

  /** The registers of the blocks, each with what the aperture shows of it. */
  function TrueHlsqPairs(hw: Hardware, hs: seq<Hlsq>): seq<(nat, nat)> {
    if hs == [] then []
    else
      var h := hs[|hs| - 1];
      TrueHlsqPairs(hw, hs[..|hs| - 1])
        + seq(h.size, i requires 0 <= i < h.size => (h.ahbaddr + i, hw(h.statetype * STATETYPE_UNIT, APERTURE + i)))
  }

  lemma {:induction false} HlsqReadback(hw: Hardware, sel: nat, hs: seq<Hlsq>, before: seq<nat>, rest: seq<nat>)
    ensures HlsqPairs(hs, |before|, before + Values(hw, sel, HlsqPieces(hs)) + rest) == TrueHlsqPairs(hw, hs)
  {
    if hs != [] {
      var init, h := hs[..|hs| - 1], hs[|hs| - 1];
      HlsqSnoc(hs, |hs| - 1);
      assert hs[..|hs|] == hs;
      var own := Read(hw, h.statetype * STATETYPE_UNIT, APERTURE, h.size);
      var mem := before + Values(hw, sel, HlsqPieces(hs)) + rest;
      assert mem == before + Values(hw, sel, HlsqPieces(init)) + (own + rest);
      HlsqReadback(hw, sel, init, before, own + rest);
      var src := |before| + Total(HlsqPieces(init));
      assert seq(h.size, i requires 0 <= i < h.size => (h.ahbaddr + i, mem[src + i]))
          == seq(h.size, i requires 0 <= i < h.size => (h.ahbaddr + i, hw(h.statetype * STATETYPE_UNIT, APERTURE + i)));
    }
  }

  /** Dumping and then reading back the HLSQ blocks gives each register what the aperture shows of it. */
  lemma HlsqRegistersComeBack(hw: Hardware, sel: nat, main: seq<Range>, gpmu: seq<Range>, shaders: seq<Shader>,
                              hlsqs: seq<Hlsq>)
    requires RangesOk(main) && RangesOk(gpmu)
    ensures var mem := Values(hw, sel, Plan(main, gpmu, shaders, hlsqs));
      var start := HlsqOffset(main, gpmu, shaders, hlsqs, 0);
      && start + Total(HlsqPieces(hlsqs)) == |mem|
      && (forall k | 0 <= k < |hlsqs| :: HlsqOffset(main, gpmu, shaders, hlsqs, k) == BlockAt(hlsqs, start, k))
      && HlsqPairs(hlsqs, start, mem) == TrueHlsqPairs(hw, hlsqs)
  {
    var front := RangePieces(main) + RangePieces(gpmu) + ShaderPieces(shaders);
    ValuesConcat(hw, sel, front, HlsqPieces(hlsqs));
    Sums(front, HlsqPieces(hlsqs));
    assert HlsqPieces(hlsqs[..0]) == [];
    var before, own := Values(hw, sel, front), Values(hw, SelectAfter(sel, front), HlsqPieces(hlsqs));
    HlsqReadback(hw, SelectAfter(sel, front), hlsqs, before, []);
    assert before + own + [] == before + own;
  }

  // ------------------------------------------------- what does not match

  /** The byte offset at which a5xx_snapshot_shader looks for bank j, and the one at which it was dumped. */
  function BankLookedFor(offset: nat, b: Shader, j: nat): nat { offset + j * b.sz }
  function BankDumped(offset: nat, b: Shader, j: nat): nat { offset + 4 * Total(BankPieces(b, j)) }

  /** A bank is looked for where it was dumped exactly if it is the first or empty. */
  lemma OnlyFirstBankIsFound(offset: nat, b: Shader, j: nat)
    ensures BankLookedFor(offset, b, j) == BankDumped(offset, b, j) <==> j == 0 || b.sz == 0
  {
    BankSums(b, j);
    if j > 0 && b.sz > 0 {
      assert j * b.sz > 0;
    }
  }

  /** One dword of the data: a register under a setting of the aperture. */
  datatype Loc = Loc(sel: nat, reg: nat)

  function Run(sel: nat, reg: nat, count: nat): (ls: seq<Loc>)
    ensures |ls| == count
  {
    seq(count, i requires 0 <= i < count => Loc(sel, reg + i))
  }

  /** Which register each dword of the data holds. */
  function Locs(sel: nat, ps: seq<Piece>): (ls: seq<Loc>)
    ensures |ls| == Total(ps)
  {
    if ps == [] then []
    else
      var init, p := ps[..|ps| - 1], ps[|ps| - 1];
      Locs(sel, init) + Run(Select(SelectAfter(sel, init), p), p.reg, p.count)
  }

  lemma {:induction false} ValueAt(hw: Hardware, sel: nat, ps: seq<Piece>, k: nat)
    requires k < Total(ps)
    ensures Values(hw, sel, ps)[k] == hw(Locs(sel, ps)[k].sel, Locs(sel, ps)[k].reg)
  {
    var init := ps[..|ps| - 1];
    if k < Total(init) { ValueAt(hw, sel, init, k); }
  }

  lemma {:induction false} LocsConcat(sel: nat, a: seq<Piece>, b: seq<Piece>)
    ensures Locs(sel, a + b) == Locs(sel, a) + Locs(SelectAfter(sel, a), b)
    ensures SelectAfter(sel, a + b) == SelectAfter(SelectAfter(sel, a), b)
  {
    if b == [] {
      assert a + b == a;
    } else {
      var ab := a + b;
      assert ab[..|ab| - 1] == a + b[..|b| - 1];
      LocsConcat(sel, a, b[..|b| - 1]);
    }
  }

  /** The registers of a list, range by range. */
  function Addresses(rs: seq<Range>): seq<nat>
    requires RangesOk(rs)
  {
    if rs == [] then []
    else
      var r := rs[|rs| - 1];
      Addresses(rs[..|rs| - 1]) + seq(PairCount(r), i requires 0 <= i < PairCount(r) => r.first + i)
  }

  /** A register list is dumped in the order of its addresses. */
  lemma {:induction false} RangeLocs(sel: nat, rs: seq<Range>)
    requires RangesOk(rs)
    ensures |Addresses(rs)| == Total(RangePieces(rs))
    ensures forall k | 0 <= k < |Addresses(rs)| :: Locs(sel, RangePieces(rs))[k] == Loc(sel, Addresses(rs)[k])
  {
    if rs != [] {
      RangeSnoc(rs, |rs| - 1);
      assert rs[..|rs|] == rs;
      RangesDoNotSelect(sel, rs[..|rs| - 1]);
      RangeLocs(sel, rs[..|rs| - 1]);
    }
  }

  lemma {:induction false} PairCounts(rs: seq<Range>, mem: seq<nat>)
    requires RangesOk(rs) && Total(RangePieces(rs)) <= |mem|
    ensures |PairedAll(rs, mem)| == |Addresses(rs)| == Total(RangePieces(rs))
  {
    RangeLocs(0, rs);
    if rs != [] {
      var n := |rs| - 1;
      PrefixFits(rs, n, mem);
      assert rs[..n + 1] == rs;
      PrefixPairs(rs, n, mem);
      PairCounts(rs[..n], mem);
    }
  }

  lemma LastPairs(rs: seq<Range>, mem: seq<nat>)
    requires RangesOk(rs) && rs != [] && Total(RangePieces(rs)) <= |mem|
    ensures var n := |rs| - 1;
      && Total(RangePieces(rs[..n])) + PairCount(rs[n]) == Total(RangePieces(rs)) == |PairedAll(rs, mem)|
      && |PairedAll(rs[..n], mem)| == |Addresses(rs[..n])| == Total(RangePieces(rs[..n]))
      && PairedAll(rs, mem) == PairedAll(rs[..n], mem) + Paired(rs[n], mem, |Addresses(rs[..n])|, PairCount(rs[n]))
  {
    var n := |rs| - 1;
    PrefixFits(rs, n, mem);
    assert rs[..n + 1] == rs;
    PrefixPairs(rs, n, mem);
    PairCounts(rs[..n], mem);
    PairCounts(rs, mem);
  }

  lemma LastPair(r: Range, mem: seq<nat>, src: nat, i: nat)
    requires r.first <= r.last && src + PairCount(r) <= |mem| && i < PairCount(r)
    ensures Paired(r, mem, src, PairCount(r))[i] == (r.first + i, mem[src + i])
  {
    assert Paired(r, mem, src, PairCount(r))[i] == RegPair(r.first + i, mem[src + i]);
  }

  lemma {:induction false} PairAt(rs: seq<Range>, mem: seq<nat>, k: nat)
    requires RangesOk(rs) && Total(RangePieces(rs)) <= |mem| && k < |Addresses(rs)|
    ensures |PairedAll(rs, mem)| == |Addresses(rs)| == Total(RangePieces(rs))
    ensures PairedAll(rs, mem)[k] == (Addresses(rs)[k], mem[k])
  {
    var n := |rs| - 1;
    PairCounts(rs, mem);
    LastPairs(rs, mem);
    var before := |Addresses(rs[..n])|;
    if k < before {
      PairAt(rs[..n], mem, k);
    } else {
      LastPair(rs[n], mem, before, k - before);
    }
    hide PairedAll, Paired, RangePieces, Total;
  }

  lemma {:induction false} TruePairAt(hw: Hardware, sel: nat, rs: seq<Range>, k: nat)
    requires RangesOk(rs) && k < |Addresses(rs)|
    ensures |TruePairs(hw, sel, rs)| == |Addresses(rs)|
    ensures TruePairs(hw, sel, rs)[k] == (Addresses(rs)[k], hw(sel, Addresses(rs)[k]))
  {
    var n := |rs| - 1;
    TruePairCounts(hw, sel, rs[..n]);
    if k < |Addresses(rs[..n])| {
      TruePairAt(hw, sel, rs[..n], k);
    } else {
      assert TruePairs(hw, sel, rs)[k] == RegPair(Addresses(rs)[k], hw(sel, Addresses(rs)[k]));
    }
  }

  lemma {:induction false} TruePairCounts(hw: Hardware, sel: nat, rs: seq<Range>)
    requires RangesOk(rs)
    ensures |TruePairs(hw, sel, rs)| == |Addresses(rs)|
  {
    if rs != [] { TruePairCounts(hw, sel, rs[..|rs| - 1]); }
  }

  /** The plan begins with the main list and goes on with the GPMU list. */
  lemma PlanLocs(sel: nat, main: seq<Range>, gpmu: seq<Range>, shaders: seq<Shader>, hlsqs: seq<Hlsq>, k: nat)
    requires RangesOk(main) && RangesOk(gpmu) && k < |Addresses(main) + Addresses(gpmu)|
    ensures k < Total(Plan(main, gpmu, shaders, hlsqs))
    ensures Locs(sel, Plan(main, gpmu, shaders, hlsqs))[k] == Loc(sel, (Addresses(main) + Addresses(gpmu))[k])
  {
    var m, g, tail := RangePieces(main), RangePieces(gpmu), ShaderPieces(shaders) + HlsqPieces(hlsqs);
    assert Plan(main, gpmu, shaders, hlsqs) == m + (g + tail);
    LocsConcat(sel, m, g + tail);
    RangesDoNotSelect(sel, main);
    LocsConcat(sel, g, tail);
    Sums(m, g + tail);
    Sums(g, tail);
    RangeLocs(sel, main);
    RangeLocs(sel, gpmu);
  }

  /**
   The GPMU list is read from the start of the buffer: the address at position k is
   paired with the value of the register that was dumped k-th of all, first those
   of the main list and only then those of the GPMU list.
   */
  lemma GpmuListGets(hw: Hardware, sel: nat, main: seq<Range>, gpmu: seq<Range>, shaders: seq<Shader>,
                     hlsqs: seq<Hlsq>, m: nat, k: nat)
    requires RangesOk(main) && RangesOk(gpmu) && m <= |gpmu| && k < |Addresses(gpmu[..m])|
    ensures var mem := Values(hw, sel, Plan(main, gpmu, shaders, hlsqs));
      && Total(RangePieces(gpmu[..m])) <= |mem|
      && k < |PairedAll(gpmu[..m], mem)| && k < |Addresses(main) + Addresses(gpmu)|
      && PairedAll(gpmu[..m], mem)[k]
      == (Addresses(gpmu[..m])[k], hw(sel, (Addresses(main) + Addresses(gpmu))[k]))
  {
    var mem := Values(hw, sel, Plan(main, gpmu, shaders, hlsqs));
    GpmuFits(main, gpmu, shaders, hlsqs, m);
    PairAt(gpmu[..m], mem, k);
    PlanLocs(sel, main, gpmu, shaders, hlsqs, k);
    ValueAt(hw, sel, Plan(main, gpmu, shaders, hlsqs), k);
  }

  lemma PlanSum(main: seq<Range>, gpmu: seq<Range>, shaders: seq<Shader>, hlsqs: seq<Hlsq>)
    requires RangesOk(main) && RangesOk(gpmu)
    ensures Total(RangePieces(main)) + Total(RangePieces(gpmu)) <= Total(Plan(main, gpmu, shaders, hlsqs))
  {
    var m, g, tail := RangePieces(main), RangePieces(gpmu), ShaderPieces(shaders) + HlsqPieces(hlsqs);
    assert Plan(main, gpmu, shaders, hlsqs) == m + (g + tail);
    hide RangePieces, ShaderPieces, HlsqPieces, Total;
    Sums(m, g + tail);
    Sums(g, tail);
  }

  lemma PrefixSum(rs: seq<Range>, m: nat)
    requires RangesOk(rs) && m <= |rs|
    ensures Total(RangePieces(rs[..m])) <= Total(RangePieces(rs))
  {
    assert RangePieces(rs) == RangePieces(rs[..m]) + RangePieces(rs[m..]);
    hide RangePieces, Total;
    Sums(RangePieces(rs[..m]), RangePieces(rs[m..]));
  }

  lemma GpmuFits(main: seq<Range>, gpmu: seq<Range>, shaders: seq<Shader>, hlsqs: seq<Hlsq>, m: nat)
    requires RangesOk(main) && RangesOk(gpmu) && m <= |gpmu|
    ensures Total(RangePieces(gpmu[..m])) == |Addresses(gpmu[..m])| <= |Addresses(gpmu)|
    ensures |Addresses(main)| + |Addresses(gpmu)| <= Total(Plan(main, gpmu, shaders, hlsqs))
  {
    hide RangePieces, Total, Plan, Addresses, Locs;
    PlanSum(main, gpmu, shaders, hlsqs);
    PrefixSum(gpmu, m);
    RangeLocs(0, main);
    RangeLocs(0, gpmu);
    RangeLocs(0, gpmu[..m]);
  }

  /** The reader gets every register's own value, whatever the registers hold. */
  ghost predicate AlwaysTrue(sel: nat, rs: seq<Range>, ps: seq<Piece>)
    requires RangesOk(rs) && Total(RangePieces(rs)) <= Total(ps)
  {
    forall hw: Hardware :: PairedAll(rs, Values(hw, sel, ps)) == TruePairs(hw, sel, rs)
  }

  /** A register that nothing else can be taken for. */
  function Beacon(sel: nat, reg: nat): Hardware {
    (s: nat, r: nat) => if s == sel && r == reg then 1 else 0
  }

  /**
   What is read back as the GPMU list are the values of the GPMU registers if
   and only if the list, as far as there is room for it, begins like the row of
   all dumped registers.
   */
  lemma GpmuListIsTrueExactly(sel: nat, main: seq<Range>, gpmu: seq<Range>, shaders: seq<Shader>,
                              hlsqs: seq<Hlsq>, room: nat)
    requires RangesOk(main) && RangesOk(gpmu)
    ensures var rs, plan := gpmu[..Fitting(gpmu, room)], Plan(main, gpmu, shaders, hlsqs);
      && Total(RangePieces(rs)) <= Total(plan)
      && (AlwaysTrue(sel, rs, plan) <==> Addresses(rs) <= Addresses(main) + Addresses(gpmu))
  {
    var m := Fitting(gpmu, room);
    var rs, plan := gpmu[..m], Plan(main, gpmu, shaders, hlsqs);
    var dumped := Addresses(main) + Addresses(gpmu);
    GpmuFits(main, gpmu, shaders, hlsqs, m);
    if AlwaysTrue(sel, rs, plan) {
      forall k | 0 <= k < |Addresses(rs)| ensures Addresses(rs)[k] == dumped[k] {
        var hw := Beacon(sel, Addresses(rs)[k]);
        GpmuListGets(hw, sel, main, gpmu, shaders, hlsqs, m, k);
        TruePairAt(hw, sel, rs, k);
        assert PairedAll(rs, Values(hw, sel, plan)) == TruePairs(hw, sel, rs);
      }
    }
    if Addresses(rs) <= dumped {
      forall hw: Hardware ensures PairedAll(rs, Values(hw, sel, plan)) == TruePairs(hw, sel, rs) {
        PairCounts(rs, Values(hw, sel, plan));
        TruePairCounts(hw, sel, rs);
        forall k | 0 <= k < |Addresses(rs)|
          ensures PairedAll(rs, Values(hw, sel, plan))[k] == TruePairs(hw, sel, rs)[k]
        {
          GpmuListGets(hw, sel, main, gpmu, shaders, hlsqs, m, k);
          TruePairAt(hw, sel, rs, k);
        }
      }
    }
  }

  lemma {:induction false} FirstAddress(rs: seq<Range>)
    requires RangesOk(rs) && rs != []
    ensures |Addresses(rs)| > 0 && Addresses(rs)[0] == rs[0].first
  {
    if |rs| > 1 { FirstAddress(rs[..|rs| - 1]); }
  }

  /** With the driver's own tables, where the lists begin at 0x0000 and 0xA800, a range read back is never safe to trust. */
  lemma GpmuListIsMisread(sel: nat, main: seq<Range>, gpmu: seq<Range>, shaders: seq<Shader>,
                          hlsqs: seq<Hlsq>, room: nat)
    requires RangesOk(main) && RangesOk(gpmu) && main != [] && Fitting(gpmu, room) > 0
    requires main[0].first == 0x0000 && gpmu[0].first == 0xA800
    ensures var rs, plan := gpmu[..Fitting(gpmu, room)], Plan(main, gpmu, shaders, hlsqs);
      Total(RangePieces(rs)) <= Total(plan) && !AlwaysTrue(sel, rs, plan)
  {
    GpmuListIsTrueExactly(sel, main, gpmu, shaders, hlsqs, room);
    FirstAddress(main);
    FirstAddress(gpmu[..Fitting(gpmu, room)]);
  }

  // --------------------------------------------------------- shader banks

  /** Where the data of a part of a plan lies in the data of the whole. */
  lemma LocInFirst(sel: nat, a: seq<Piece>, b: seq<Piece>, at: nat)
    requires at < Total(a)
    ensures at < Total(a + b) && Locs(sel, a + b)[at] == Locs(sel, a)[at]
  {
    LocsConcat(sel, a, b);
    Sums(a, b);
    hide Locs, Total;
  }

  lemma LocInSecond(sel: nat, a: seq<Piece>, b: seq<Piece>, at: nat)
    requires at < Total(b)
    ensures Total(a) + at < Total(a + b) && Locs(sel, a + b)[Total(a) + at] == Locs(SelectAfter(sel, a), b)[at]
  {
    LocsConcat(sel, a, b);
    Sums(a, b);
    hide Locs, Total;
  }

  lemma {:induction false} BankLoc(sel: nat, b: Shader, banks: nat, j: nat, i: nat)
    requires j < banks && i < b.sz
    ensures j * b.sz + i < Total(BankPieces(b, banks))
    ensures Locs(sel, BankPieces(b, banks))[j * b.sz + i] == Loc(b.statetype * 0x100 + j, APERTURE + i)
  {
    var n := banks - 1;
    var p := Piece(Some(b.statetype * STATETYPE_UNIT + n), APERTURE, b.sz);
    assert BankPieces(b, banks)[..n] == BankPieces(b, n) && BankPieces(b, banks)[n] == p;
    BankSums(b, n);
    BankSums(b, banks);
    if j < n {
      BankLoc(sel, b, n, j, i);
    }
  }

  lemma {:induction false} ShaderLoc(sel: nat, bs: seq<Shader>, k: nat, j: nat, i: nat)
    requires k < |bs| && j < NUM_SHADER_BANKS && i < bs[k].sz
    ensures var at := Total(ShaderPieces(bs[..k])) + j * bs[k].sz + i;
      at < Total(ShaderPieces(bs)) && Locs(sel, ShaderPieces(bs))[at] == Loc(bs[k].statetype * 0x100 + j, APERTURE + i)
  {
    var init, b := bs[..|bs| - 1], bs[|bs| - 1];
    var before, own := ShaderPieces(init), BankPieces(b, NUM_SHADER_BANKS);
    assert ShaderPieces(bs) == before + own;
    hide ShaderPieces, BankPieces, Locs, Total;
    if k < |init| {
      assert init[..k] == bs[..k] && init[k] == bs[k];
      ShaderLoc(sel, init, k, j, i);
      LocInFirst(sel, before, own, Total(ShaderPieces(bs[..k])) + j * bs[k].sz + i);
    } else {
      assert bs[..k] == init;
      BankLoc(SelectAfter(sel, before), b, NUM_SHADER_BANKS, j, i);
      LocInSecond(sel, before, own, j * b.sz + i);
    }
  }

  /** Where a dword of a shader block lies in the data of the whole plan. */
  lemma PlanShaderLoc(sel: nat, main: seq<Range>, gpmu: seq<Range>, shaders: seq<Shader>, hlsqs: seq<Hlsq>,
                      k: nat, j: nat, i: nat)
    requires RangesOk(main) && RangesOk(gpmu) && k < |shaders| && j < NUM_SHADER_BANKS && i < shaders[k].sz
    ensures var at, plan := ShaderOffset(main, gpmu, shaders, k) + j * shaders[k].sz + i, Plan(main, gpmu, shaders, hlsqs);
      at < Total(plan) && Locs(sel, plan)[at] == Loc(shaders[k].statetype * 0x100 + j, APERTURE + i)
  {
    var front, own, rest := RangePieces(main) + RangePieces(gpmu), ShaderPieces(shaders), HlsqPieces(hlsqs);
    assert Plan(main, gpmu, shaders, hlsqs) == front + (own + rest);
    hide ShaderPieces, RangePieces, HlsqPieces, Locs, Total;
    var at := Total(ShaderPieces(shaders[..k])) + j * shaders[k].sz + i;
    ShaderLoc(SelectAfter(sel, front), shaders, k, j, i);
    LocInFirst(SelectAfter(sel, front), own, rest, at);
    LocInSecond(sel, front, own + rest, at);
  }

  /**
   After the dump, dword i of bank j of shader block k, found from the offset
   that is remembered for the block, is what the aperture shows of bank j: every
   bank has its own contents, in the order of the banks.
   */
  lemma ShaderBanksAreDumped(hw: Hardware, base: nat, sel: nat, mem: seq<nat>, main: seq<Range>, gpmu: seq<Range>,
                             shaders: seq<Shader>, hlsqs: seq<Hlsq>, k: nat, j: nat, i: nat)
    requires RangesOk(main) && RangesOk(gpmu) && ShadersOk(shaders) && HlsqsOk(hlsqs)
    requires |mem| == Total(Plan(main, gpmu, shaders, hlsqs))
    requires k < |shaders| && j < 4 && i < shaders[k].sz
    ensures var at := ShaderOffset(main, gpmu, shaders, k) + j * shaders[k].sz + i;
      var after := Dump(hw, base, Dumper(sel, mem), Script(Plan(main, gpmu, shaders, hlsqs), base, 0) + [0, 0]).mem;
      at < |after| && after[at] == hw(shaders[k].statetype * 0x100 + j, APERTURE + i)
  {
    hide Plan, Script, Dump, Values, Locs, Total;
    DumpFillsTheBuffer(hw, base, sel, mem, main, gpmu, shaders, hlsqs);
    PlanShaderLoc(sel, main, gpmu, shaders, hlsqs, k, j, i);
    ValueAt(hw, sel, Plan(main, gpmu, shaders, hlsqs), ShaderOffset(main, gpmu, shaders, k) + j * shaders[k].sz + i);
  }
}
