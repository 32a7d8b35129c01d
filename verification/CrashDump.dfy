/**
 The crash dump of the A5xx: a pass that sizes two buffers, a pass that writes
 the dump script, the hardware that runs it, and the readers of the result.
 All of them follow one plan.
 */
module CrashDump {
  import opened Wrappers

  const NUM_SHADER_BANKS := 4
  const READ_SEL := 0xBC00       // A5XX_HLSQ_DBG_READ_SEL
  const APERTURE := 0xA000       // A5XX_HLSQ_DBG_AHB_READ_APERTURE
  const REG_UNIT := 0x1000_0000_0000  // 1 << 44
  const WRITE_FLAG := 0x20_0000       // 1 << 21
  const STATETYPE_UNIT := 0x100       // 1 << A5XX_SHADER_STATETYPE_SHIFT

  // ------------------------------------------------------------- tables

  datatype Range = Range(first: nat, last: nat)
  datatype Shader = Shader(statetype: nat, sz: nat)
  datatype Hlsq = Hlsq(statetype: nat, ahbaddr: nat, size: nat)

  /** REG_PAIR_COUNT. */
  function PairCount(r: Range): nat
    requires r.first <= r.last
  {
    r.last - r.first + 1
  }

  /** What the static tables look like: ordered pairs, and lengths that fit the length field of a command. */
  predicate RangesOk(rs: seq<Range>) {
    forall k | 0 <= k < |rs| :: rs[k].first <= rs[k].last && rs[k].last - rs[k].first + 1 < WRITE_FLAG
  }

  predicate ShadersOk(bs: seq<Shader>) {
    forall k | 0 <= k < |bs| :: bs[k].sz < WRITE_FLAG
  }

  predicate HlsqsOk(hs: seq<Hlsq>) {
    forall k | 0 <= k < |hs| :: hs[k].size < WRITE_FLAG
  }

  // --------------------------------------------------------------- plan

  /** Read `count` registers from `reg` on, after choosing what the aperture shows. */
  datatype Piece = Piece(select: Option<nat>, reg: nat, count: nat)

  function RangePieces(rs: seq<Range>): (ps: seq<Piece>)
    requires RangesOk(rs)
    ensures |ps| == |rs|
  {
    seq(|rs|, i requires 0 <= i < |rs| => Piece(None, rs[i].first, PairCount(rs[i])))
  }

  function BankPieces(b: Shader, banks: nat): seq<Piece> {
    seq(banks, j requires 0 <= j < banks => Piece(Some(b.statetype * STATETYPE_UNIT + j), APERTURE, b.sz))
  }

  function ShaderPieces(bs: seq<Shader>): seq<Piece> {
    if bs == [] then [] else ShaderPieces(bs[..|bs| - 1]) + BankPieces(bs[|bs| - 1], NUM_SHADER_BANKS)
  }

  function HlsqPieces(hs: seq<Hlsq>): seq<Piece> {
    seq(|hs|, i requires 0 <= i < |hs| => Piece(Some(hs[i].statetype * STATETYPE_UNIT), APERTURE, hs[i].size))
  }

  /** Everything that is dumped, in order; without a GPMU its registers are an empty list. */
  function Plan(main: seq<Range>, gpmu: seq<Range>, shaders: seq<Shader>, hlsqs: seq<Hlsq>): seq<Piece>
    requires RangesOk(main) && RangesOk(gpmu)
  {
    RangePieces(main) + RangePieces(gpmu) + ShaderPieces(shaders) + HlsqPieces(hlsqs)
  }

  /** Dwords of data. */
  function Total(ps: seq<Piece>): nat {
    if ps == [] then 0 else Total(ps[..|ps| - 1]) + ps[|ps| - 1].count
  }

  /** Qwords of script for one piece. */
  function Qwords(p: Piece): nat {
    if p.select.Some? then 4 else 2
  }

  function ScriptQwords(ps: seq<Piece>): nat {
    if ps == [] then 0 else ScriptQwords(ps[..|ps| - 1]) + Qwords(ps[|ps| - 1])
  }

  // ------------------------------------------------------------- script

  /** The commands for one piece whose data goes to `dest`. */
  function Command(p: Piece, dest: nat): (qs: seq<nat>)
    ensures |qs| == Qwords(p)
  {
    (if p.select.Some? then [p.select.value, READ_SEL * REG_UNIT + WRITE_FLAG + 1] else [])
    + [dest, p.reg * REG_UNIT + p.count]
  }

  /** The script for the pieces, one after the other, with data from byte `offset` on. */
  function Script(ps: seq<Piece>, base: nat, offset: nat): (qs: seq<nat>)
    ensures |qs| == ScriptQwords(ps)
  {
    if ps == [] then []
    else
      Script(ps[..|ps| - 1], base, offset)
      + Command(ps[|ps| - 1], base + offset + 4 * Total(ps[..|ps| - 1]))
  }

  lemma {:induction false} Sums(a: seq<Piece>, b: seq<Piece>)
    ensures Total(a + b) == Total(a) + Total(b) && ScriptQwords(a + b) == ScriptQwords(a) + ScriptQwords(b)
  {
    if b == [] {
      assert a + b == a;
    } else {
      assert (a + b)[..|a + b| - 1] == a + b[..|b| - 1];
      Sums(a, b[..|b| - 1]);
    }
  }

  lemma {:induction false} ScriptConcat(a: seq<Piece>, b: seq<Piece>, base: nat, offset: nat)
    ensures Script(a + b, base, offset) == Script(a, base, offset) + Script(b, base, offset + 4 * Total(a))
  {
    if b == [] {
      assert a + b == a;
    } else {
      var init := b[..|b| - 1];
      assert (a + b)[..|a + b| - 1] == a + init;
      ScriptConcat(a, init, base, offset);
      Sums(a, init);
    }
  }

  // ------------------------------------------------------------- sizing

  /** The first loops of a5xx_crashdump_init, in bytes. */
  method Sizes(main: seq<Range>, gpmu: seq<Range>, shaders: seq<Shader>, hlsqs: seq<Hlsq>)
    returns (scriptSize: nat, dataSize: nat)
    requires RangesOk(main) && RangesOk(gpmu)
    ensures scriptSize == 8 * ScriptQwords(Plan(main, gpmu, shaders, hlsqs))
    ensures dataSize == 4 * Total(Plan(main, gpmu, shaders, hlsqs))
  {
    scriptSize, dataSize := RangeSizes(main);
    var s, d := RangeSizes(gpmu);
    scriptSize, dataSize := scriptSize + s, dataSize + d;
    Sums(RangePieces(main), RangePieces(gpmu));
    var i := 0;
    ghost var ranges := RangePieces(main) + RangePieces(gpmu);
    while i < |shaders|
      invariant 0 <= i <= |shaders|
      invariant scriptSize == 8 * (ScriptQwords(ranges) + ScriptQwords(ShaderPieces(shaders[..i])))
      invariant dataSize == 4 * (Total(ranges) + Total(ShaderPieces(shaders[..i])))
    {
      scriptSize := scriptSize + 32 * NUM_SHADER_BANKS;
      dataSize := dataSize + shaders[i].sz * 4 * NUM_SHADER_BANKS;
      assert shaders[..i + 1][..i] == shaders[..i];
      Sums(ShaderPieces(shaders[..i]), BankPieces(shaders[i], NUM_SHADER_BANKS));
      BankSums(shaders[i], NUM_SHADER_BANKS);
      i := i + 1;
    }
    assert shaders[..i] == shaders;
    i := 0;
    while i < |hlsqs|
      invariant 0 <= i <= |hlsqs|
      invariant scriptSize
             == 8 * (ScriptQwords(ranges) + ScriptQwords(ShaderPieces(shaders)) + ScriptQwords(HlsqPieces(hlsqs[..i])))
      invariant dataSize == 4 * (Total(ranges) + Total(ShaderPieces(shaders)) + Total(HlsqPieces(hlsqs[..i])))
    {
      scriptSize := scriptSize + 32;
      dataSize := dataSize + hlsqs[i].size * 4;
      HlsqSnoc(hlsqs, i);
      i := i + 1;
    }
    assert hlsqs[..i] == hlsqs;
    Sums(ranges, ShaderPieces(shaders));
    Sums(ranges + ShaderPieces(shaders), HlsqPieces(hlsqs));
  }

  lemma HlsqSnoc(hs: seq<Hlsq>, i: nat)
    requires i < |hs|
    ensures |HlsqPieces(hs[..i + 1])| == i + 1
    ensures HlsqPieces(hs[..i + 1])[..i] == HlsqPieces(hs[..i])
    ensures HlsqPieces(hs[..i + 1])[i] == Piece(Some(hs[i].statetype * STATETYPE_UNIT), APERTURE, hs[i].size)
  {}

  lemma RangeSnoc(rs: seq<Range>, i: nat)
    requires i < |rs| && RangesOk(rs)
    ensures RangesOk(rs[..i + 1]) && RangesOk(rs[..i])
    ensures RangePieces(rs[..i + 1])[..i] == RangePieces(rs[..i])
    ensures RangePieces(rs[..i + 1])[i] == Piece(None, rs[i].first, PairCount(rs[i]))
  {}

  lemma {:induction false} BankSums(b: Shader, banks: nat)
    ensures Total(BankPieces(b, banks)) == banks * b.sz && ScriptQwords(BankPieces(b, banks)) == 4 * banks
  {
    if banks > 0 {
      assert BankPieces(b, banks)[..banks - 1] == BankPieces(b, banks - 1);
      BankSums(b, banks - 1);
    }
  }

  /** The sizes of one register list. */
  method RangeSizes(rs: seq<Range>) returns (scriptSize: nat, dataSize: nat)
    requires RangesOk(rs)
    ensures scriptSize == 8 * ScriptQwords(RangePieces(rs)) && dataSize == 4 * Total(RangePieces(rs))
  {
    scriptSize := |rs| * 16;
    dataSize := 0;
    var j := 0;
    while j < |rs|
      invariant 0 <= j <= |rs|
      invariant dataSize == 4 * Total(RangePieces(rs[..j]))
      invariant 16 * j == 8 * ScriptQwords(RangePieces(rs[..j]))
    {
      RangeSnoc(rs, j);
      dataSize := dataSize + PairCount(rs[j]) * 4;
      j := j + 1;
    }
    assert rs[..j] == rs;
  }

  // ----------------------------------------------------------- emitting

  /** From `pos` on `script` holds `qs`; the rest is as it was. */
  predicate Holds(was: seq<nat>, now: seq<nat>, pos: nat, qs: seq<nat>, next: nat) {
    && |was| == |now| && next == pos + |qs| && next <= |now|
    && now[..pos] == was[..pos] && now[pos..next] == qs && now[next..] == was[next..]
  }

  lemma HoldsMore(was: seq<nat>, mid: seq<nat>, now: seq<nat>, pos: nat, qs: seq<nat>, next: nat, more: seq<nat>, end: nat)
    requires Holds(was, mid, pos, qs, next) && Holds(mid, now, next, more, end)
    ensures Holds(was, now, pos, qs + more, end)
  {
    assert now[..pos] == now[..next][..pos] && mid[..pos] == mid[..next][..pos];
    assert now[pos..end] == now[..next][pos..] + now[next..end];
    assert mid[end..] == mid[next..][end - next..] && was[end..] == was[next..][end - next..];
  }

  /** One command of the script. */
  method EmitPiece(script: array<nat>, pos: nat, p: Piece, dest: nat) returns (next: nat)
    requires pos + Qwords(p) <= script.Length
    modifies script
    ensures Holds(old(script[..]), script[..], pos, Command(p, dest), next)
  {
    next := pos;
    if p.select.Some? {
      script[next], script[next + 1] := p.select.value, READ_SEL * REG_UNIT + WRITE_FLAG + 1;
      next := next + 2;
    }
    script[next], script[next + 1] := dest, p.reg * REG_UNIT + p.count;
    next := next + 2;
  }

  /** Where a loop over pieces stands. */
  ghost predicate Emitted(was: seq<nat>, now: seq<nat>, pos: nat, ps: seq<Piece>, base: nat, offset: nat,
                          next: nat, end: nat)
  {
    Holds(was, now, pos, Script(ps, base, offset), next) && end == offset + 4 * Total(ps)
  }

  lemma EmittedMore(was: seq<nat>, mid: seq<nat>, now: seq<nat>, pos: nat, ps: seq<Piece>, base: nat, offset: nat,
                    next: nat, end: nat, p: Piece, next': nat)
    requires Emitted(was, mid, pos, ps, base, offset, next, end)
    requires Holds(mid, now, next, Command(p, base + end), next')
    ensures Emitted(was, now, pos, ps + [p], base, offset, next', end + 4 * p.count)
  {
    assert (ps + [p])[..|ps|] == ps;
    HoldsMore(was, mid, now, pos, Script(ps, base, offset), next, Command(p, base + end), next');
  }

  /** The read commands of a register list. */
  method EmitRanges(script: array<nat>, pos: nat, rs: seq<Range>, base: nat, offset: nat) returns (next: nat, end: nat)
    requires RangesOk(rs) && pos + 2 * |rs| <= script.Length
    modifies script
    ensures Emitted(old(script[..]), script[..], pos, RangePieces(rs), base, offset, next, end)
    ensures next == pos + 2 * |rs|
  {
    next, end := pos, offset;
    EmittedNothing(script[..], pos, base, offset);
    assert RangePieces(rs[..0]) == [];
    hide Emitted, Holds;
    var j := 0;
    while j < |rs|
      invariant 0 <= j <= |rs| && next == pos + 2 * j
      invariant Emitted(old(script[..]), script[..], pos, RangePieces(rs[..j]), base, offset, next, end)
    {
      ghost var mid := script[..];
      RangeSnoc(rs, j);
      var r := PairCount(rs[j]);
      var p := Piece(None, rs[j].first, r);
      var next' := EmitPiece(script, next, p, base + end);
      EmittedMore(old(script[..]), mid, script[..], pos, RangePieces(rs[..j]), base, offset, next, end, p, next');
      assert RangePieces(rs[..j + 1]) == RangePieces(rs[..j]) + [p];
      next, end := next', end + r * 4;
      j := j + 1;
    }
    assert rs[..j] == rs;
  }

  /** _a5xx_crashdump_init_shader; `first` is what block->offset becomes. */
  method InitShader(script: array<nat>, pos: nat, b: Shader, base: nat, offset: nat)
    returns (next: nat, end: nat, first: nat)
    requires pos + 4 * NUM_SHADER_BANKS <= script.Length
    modifies script
    ensures Emitted(old(script[..]), script[..], pos, BankPieces(b, NUM_SHADER_BANKS), base, offset, next, end)
    ensures next == pos + 4 * NUM_SHADER_BANKS && first == offset
  {
    next, end, first := pos, offset, 0;
    EmittedNothing(script[..], pos, base, offset);
    assert BankPieces(b, 0) == [];
    hide Emitted, Holds;
    var j := 0;
    while j < NUM_SHADER_BANKS
      invariant 0 <= j <= NUM_SHADER_BANKS && next == pos + 4 * j
      invariant first == if j == 0 then 0 else offset
      invariant Emitted(old(script[..]), script[..], pos, BankPieces(b, j), base, offset, next, end)
    {
      ghost var mid := script[..];
      var p := Piece(Some(b.statetype * STATETYPE_UNIT + j), APERTURE, b.sz);
      var next' := EmitPiece(script, next, p, base + end);
      EmittedMore(old(script[..]), mid, script[..], pos, BankPieces(b, j), base, offset, next, end, p, next');
      assert BankPieces(b, j + 1) == BankPieces(b, j) + [p];
      if j == 0 {
        first := end;
      }
      next, end := next', end + b.sz * 4;
      j := j + 1;
    }
  }

  /** _a5xx_crashdump_init_hlsq; `first` is what regs->offset becomes. */
  method InitHlsq(script: array<nat>, pos: nat, h: Hlsq, base: nat, offset: nat) returns (next: nat, end: nat, first: nat)
    requires pos + 4 <= script.Length
    modifies script
    ensures Holds(old(script[..]), script[..], pos,
                  Command(Piece(Some(h.statetype * STATETYPE_UNIT), APERTURE, h.size), base + offset), next)
    ensures next == pos + 4 && end == offset + 4 * h.size && first == offset
  {
    next := EmitPiece(script, pos, Piece(Some(h.statetype * STATETYPE_UNIT), APERTURE, h.size), base + offset);
    first := offset;
    end := offset + h.size * 4;
  }

  /** Where the data of HLSQ block i begins, in dwords. */
  function HlsqOffset(main: seq<Range>, gpmu: seq<Range>, shaders: seq<Shader>, hlsqs: seq<Hlsq>, i: nat): nat
    requires RangesOk(main) && RangesOk(gpmu) && i <= |hlsqs|
  {
    Total(RangePieces(main) + RangePieces(gpmu) + ShaderPieces(shaders)) + Total(HlsqPieces(hlsqs[..i]))
  }

  /** Where the data of shader block i begins, in dwords. */
  function ShaderOffset(main: seq<Range>, gpmu: seq<Range>, shaders: seq<Shader>, i: nat): nat
    requires RangesOk(main) && RangesOk(gpmu) && i <= |shaders|
  {
    Total(RangePieces(main) + RangePieces(gpmu)) + Total(ShaderPieces(shaders[..i]))
  }

  lemma EmittedTwice(was: seq<nat>, mid: seq<nat>, now: seq<nat>, pos: nat, a: seq<Piece>, b: seq<Piece>, base: nat,
                     offset: nat, next: nat, end: nat, next': nat, end': nat)
    requires Emitted(was, mid, pos, a, base, offset, next, end)
    requires Emitted(mid, now, next, b, base, end, next', end')
    ensures Emitted(was, now, pos, a + b, base, offset, next', end')
  {
    ScriptConcat(a, b, base, offset);
    Sums(a, b);
    HoldsMore(was, mid, now, pos, Script(a, base, offset), next, Script(b, base, end), next');
  }

  lemma EmittedNothing(was: seq<nat>, pos: nat, base: nat, offset: nat)
    requires pos <= |was|
    ensures Emitted(was, was, pos, [], base, offset, pos, offset)
  {}

  /** The shader blocks; the offsets are those that block->offset remembers, in bytes. */
  method EmitShaders(script: array<nat>, pos: nat, bs: seq<Shader>, base: nat, offset: nat)
    returns (next: nat, end: nat, offsets: seq<nat>)
    requires pos + 4 * NUM_SHADER_BANKS * |bs| <= script.Length
    modifies script
    ensures Emitted(old(script[..]), script[..], pos, ShaderPieces(bs), base, offset, next, end)
    ensures next == pos + 4 * NUM_SHADER_BANKS * |bs| && |offsets| == |bs|
    ensures forall k | 0 <= k < |bs| :: offsets[k] == offset + 4 * Total(ShaderPieces(bs[..k]))
  {
    next, end, offsets := pos, offset, [];
    EmittedNothing(script[..], pos, base, offset);
    hide Emitted, BankPieces, Total, ScriptQwords;
    assert Total(ShaderPieces(bs[..0])) == 0 by { NothingToDump(); }
    var i := 0;
    while i < |bs|
      invariant 0 <= i <= |bs| == i + (|bs| - i) && |offsets| == i && next == pos + 4 * NUM_SHADER_BANKS * i
      invariant end == offset + 4 * Total(ShaderPieces(bs[..i]))
      invariant forall k | 0 <= k < i :: offsets[k] == offset + 4 * Total(ShaderPieces(bs[..k]))
      invariant Emitted(old(script[..]), script[..], pos, ShaderPieces(bs[..i]), base, offset, next, end)
    {
      ghost var mid := script[..];
      var next', end', first := InitShader(script, next, bs[i], base, end);
      EmittedTwice(old(script[..]), mid, script[..], pos, ShaderPieces(bs[..i]), BankPieces(bs[i], NUM_SHADER_BANKS),
        base, offset, next, end, next', end');
      assert bs[..i + 1][..i] == bs[..i];
      EmittedEnd(old(script[..]), script[..], pos, ShaderPieces(bs[..i + 1]), base, offset, next', end');
      next, end, offsets := next', end', offsets + [first];
      i := i + 1;
    }
    assert bs[..i] == bs;
  }

  lemma NothingToDump()
    ensures Total([]) == 0
  {}

  lemma EmittedEnd(was: seq<nat>, now: seq<nat>, pos: nat, ps: seq<Piece>, base: nat, offset: nat, next: nat, end: nat)
    requires Emitted(was, now, pos, ps, base, offset, next, end)
    ensures end == offset + 4 * Total(ps) && next == pos + ScriptQwords(ps) && next <= |now| == |was|
  {}

  /** The HLSQ blocks; the offsets are those that regs->offset remembers, in bytes. */
  method EmitHlsqs(script: array<nat>, pos: nat, hs: seq<Hlsq>, base: nat, offset: nat)
    returns (next: nat, end: nat, offsets: seq<nat>)
    requires pos + 4 * |hs| <= script.Length
    modifies script
    ensures Emitted(old(script[..]), script[..], pos, HlsqPieces(hs), base, offset, next, end)
    ensures next == pos + 4 * |hs| && |offsets| == |hs|
    ensures forall k | 0 <= k < |hs| :: offsets[k] == offset + 4 * Total(HlsqPieces(hs[..k]))
  {
    next, end, offsets := pos, offset, [];
    EmittedNothing(script[..], pos, base, offset);
    assert HlsqPieces(hs[..0]) == [];
    NothingToDump();
    hide Emitted, Holds, Total, ScriptQwords;
    var i := 0;
    while i < |hs|
      invariant 0 <= i <= |hs| && |offsets| == i && next == pos + 4 * i
      invariant end == offset + 4 * Total(HlsqPieces(hs[..i]))
      invariant forall k | 0 <= k < i :: offsets[k] == offset + 4 * Total(HlsqPieces(hs[..k]))
      invariant Emitted(old(script[..]), script[..], pos, HlsqPieces(hs[..i]), base, offset, next, end)
    {
      ghost var mid := script[..];
      var next', end', first := InitHlsq(script, next, hs[i], base, end);
      ghost var p := Piece(Some(hs[i].statetype * STATETYPE_UNIT), APERTURE, hs[i].size);
      EmittedMore(old(script[..]), mid, script[..], pos, HlsqPieces(hs[..i]), base, offset, next, end, p, next');
      assert HlsqPieces(hs[..i + 1]) == HlsqPieces(hs[..i]) + [p];
      EmittedEnd(old(script[..]), script[..], pos, HlsqPieces(hs[..i + 1]), base, offset, next', end');
      next, end, offsets := next', end', offsets + [first];
      i := i + 1;
    }
    assert hs[..i] == hs;
  }

  /** The register lists of the script. */
  method EmitRegisters(script: array<nat>, main: seq<Range>, gpmu: seq<Range>, base: nat) returns (next: nat, offset: nat)
    requires RangesOk(main) && RangesOk(gpmu) && 2 * |main| + 2 * |gpmu| <= script.Length
    modifies script
    ensures Emitted(old(script[..]), script[..], 0, RangePieces(main) + RangePieces(gpmu), base, 0, next, offset)
    ensures next == 2 * |main| + 2 * |gpmu|
  {
    hide Emitted, Holds, Script, Total, ScriptQwords;
    ghost var was := script[..];
    var next0, offset0 := EmitRanges(script, 0, main, base, 0);
    ghost var mid := script[..];
    next, offset := EmitRanges(script, next0, gpmu, base, offset0);
    EmittedTwice(was, mid, script[..], 0, RangePieces(main), RangePieces(gpmu), base, 0, next0, offset0, next, offset);
  }

  /** The whole plan. */
  method EmitPlan(script: array<nat>, main: seq<Range>, gpmu: seq<Range>, shaders: seq<Shader>, hlsqs: seq<Hlsq>, base: nat)
    returns (next: nat, offset: nat, shaderOffsets: seq<nat>, hlsqOffsets: seq<nat>)
    requires RangesOk(main) && RangesOk(gpmu)
    requires script.Length >= 2 * |main| + 2 * |gpmu| + 4 * NUM_SHADER_BANKS * |shaders| + 4 * |hlsqs|
    modifies script
    ensures Emitted(old(script[..]), script[..], 0, Plan(main, gpmu, shaders, hlsqs), base, 0, next, offset)
    ensures |shaderOffsets| == |shaders| && |hlsqOffsets| == |hlsqs|
    ensures forall k | 0 <= k < |shaders| :: shaderOffsets[k] == 4 * ShaderOffset(main, gpmu, shaders, k)
    ensures forall k | 0 <= k < |hlsqs| :: hlsqOffsets[k] == 4 * HlsqOffset(main, gpmu, shaders, hlsqs, k)
  {
    hide Emitted, Holds, Script, Total, ScriptQwords, RangePieces, ShaderPieces, HlsqPieces, RangesOk;
    ghost var was := script[..];
    ghost var ranges := RangePieces(main) + RangePieces(gpmu);
    var next0, offset0 := EmitRegisters(script, main, gpmu, base);
    ghost var mid := script[..];
    EmittedEnd(was, mid, 0, ranges, base, 0, next0, offset0);
    var next1, offset1, offsets1 := EmitShaders(script, next0, shaders, base, offset0);
    EmittedTwice(was, mid, script[..], 0, ranges, ShaderPieces(shaders), base, 0, next0, offset0, next1, offset1);
    mid := script[..];
    EmittedEnd(was, mid, 0, ranges + ShaderPieces(shaders), base, 0, next1, offset1);
    shaderOffsets := offsets1;
    next, offset, hlsqOffsets := EmitHlsqs(script, next1, hlsqs, base, offset1);
    EmittedTwice(was, mid, script[..], 0, ranges + ShaderPieces(shaders), HlsqPieces(hlsqs), base, 0,
      next1, offset1, next, offset);
  }

  /**
   a5xx_crashdump_init with both buffers allocated as the first loops say: the
   script is the plan and two zero qwords and fills its buffer exactly, and the
   data of the plan fills the other.
   */
  method CrashdumpInit(main: seq<Range>, gpmu: seq<Range>, shaders: seq<Shader>, hlsqs: seq<Hlsq>, base: nat)
    returns (script: array<nat>, dataSize: nat, shaderOffsets: seq<nat>, hlsqOffsets: seq<nat>)
    requires RangesOk(main) && RangesOk(gpmu)
    ensures var plan := Plan(main, gpmu, shaders, hlsqs);
      && fresh(script) && script.Length == ScriptQwords(plan) + 2
      && script[..] == Script(plan, base, 0) + [0, 0]
      && dataSize == 4 * Total(plan)
    ensures |shaderOffsets| == |shaders| && |hlsqOffsets| == |hlsqs|
    ensures forall k | 0 <= k < |shaders| :: shaderOffsets[k] == 4 * ShaderOffset(main, gpmu, shaders, k)
    ensures forall k | 0 <= k < |hlsqs| :: hlsqOffsets[k] == 4 * HlsqOffset(main, gpmu, shaders, hlsqs, k)
  {
    hide Emitted, Holds, Script, Total, ScriptQwords, Plan, ShaderOffset, HlsqOffset;
    var scriptSize, size := Sizes(main, gpmu, shaders, hlsqs);
    dataSize := size;
    script := new nat[(scriptSize + 16) / 8](_ => 0);
    ghost var was, plan := script[..], Plan(main, gpmu, shaders, hlsqs);
    PlanQwords(main, gpmu, shaders, hlsqs);
    var next, offset;
    next, offset, shaderOffsets, hlsqOffsets := EmitPlan(script, main, gpmu, shaders, hlsqs, base);
    EmittedEnd(was, script[..], 0, plan, base, 0, next, offset);
    EmittedAll(was, script[..], plan, base, next, offset);
    ghost var mid := script[..];
    script[next], script[next + 1] := 0, 0;
    assert script[..] == mid[..next] + [0, 0];
  }

  lemma EmittedAll(was: seq<nat>, now: seq<nat>, ps: seq<Piece>, base: nat, next: nat, end: nat)
    requires Emitted(was, now, 0, ps, base, 0, next, end)
    ensures next <= |now| && now[..next] == Script(ps, base, 0)
  {
    assert now[0..next] == now[..next];
  }

  lemma PlanQwords(main: seq<Range>, gpmu: seq<Range>, shaders: seq<Shader>, hlsqs: seq<Hlsq>)
    requires RangesOk(main) && RangesOk(gpmu)
    ensures ScriptQwords(Plan(main, gpmu, shaders, hlsqs))
         == 2 * |main| + 2 * |gpmu| + 4 * NUM_SHADER_BANKS * |shaders| + 4 * |hlsqs|
  {
    Sums(RangePieces(main), RangePieces(gpmu));
    Sums(RangePieces(main) + RangePieces(gpmu), ShaderPieces(shaders));
    Sums(RangePieces(main) + RangePieces(gpmu) + ShaderPieces(shaders), HlsqPieces(hlsqs));
    ReadsOnly(RangePieces(main));
    ReadsOnly(RangePieces(gpmu));
    SelectsOnly(HlsqPieces(hlsqs));
    ShaderQwords(shaders);
  }

  lemma {:induction false} ReadsOnly(ps: seq<Piece>)
    requires forall k | 0 <= k < |ps| :: ps[k].select.None?
    ensures ScriptQwords(ps) == 2 * |ps|
  {
    if ps != [] { ReadsOnly(ps[..|ps| - 1]); }
  }

  lemma {:induction false} SelectsOnly(ps: seq<Piece>)
    requires forall k | 0 <= k < |ps| :: ps[k].select.Some?
    ensures ScriptQwords(ps) == 4 * |ps|
  {
    if ps != [] { SelectsOnly(ps[..|ps| - 1]); }
  }

  lemma {:induction false} ShaderQwords(bs: seq<Shader>)
    ensures ScriptQwords(ShaderPieces(bs)) == 4 * NUM_SHADER_BANKS * |bs|
  {
    if bs != [] {
      var init, b := bs[..|bs| - 1], bs[|bs| - 1];
      ShaderQwords(init);
      Sums(ShaderPieces(init), BankPieces(b, NUM_SHADER_BANKS));
      BankSums(b, NUM_SHADER_BANKS);
    }
  }
}
