/** The opcodes of the limits management sequence: a decoder, its inverse, and the loop that runs them. */
module RegSequence {
  import opened Wrappers

  const WORD := 0x1_0000_0000

  /** The three opcodes; registers and long values are 64 bits wide in the file. */
  datatype Op =
    | Write32(reg: nat, value: nat)
    | Write64(reg: nat, value: nat)
    | Delay(usec: nat)

  /** What reaches the hardware. */
  datatype Effect = RegWrite(offset: nat, value: nat) | Wait(usec: nat)

  predicate Words(ws: seq<nat>) {
    forall k | 0 <= k < |ws| :: ws[k] < WORD
  }

  predicate OpOk(op: Op) {
    match op
    case Write32(reg, value) => reg < WORD * WORD && value < WORD
    case Write64(reg, value) => reg < WORD * WORD && value < WORD * WORD
    case Delay(usec) => usec < WORD
  }

  function Encode(op: Op): seq<nat> {
    match op
    case Write32(reg, value) => [1, reg % WORD, reg / WORD, value]
    case Write64(reg, value) => [2, reg % WORD, reg / WORD, value % WORD, value / WORD]
    case Delay(usec) => [3, usec]
  }

  function EncodeAll(ops: seq<Op>): seq<nat> {
    if ops == [] then [] else Encode(ops[0]) + EncodeAll(ops[1..])
  }

  /** The opcode at the front of `ws` and its length, if there is one. */
  function First(ws: seq<nat>): (r: Option<(Op, nat)>)
    ensures r.Some? ==> 0 < r.value.1 <= |ws|
  {
    if |ws| >= 4 && ws[0] == 1 then Some((Write32(ws[2] * WORD + ws[1], ws[3]), 4))
    else if |ws| >= 5 && ws[0] == 2 then Some((Write64(ws[2] * WORD + ws[1], ws[4] * WORD + ws[3]), 5))
    else if |ws| >= 2 && ws[0] == 3 then Some((Delay(ws[1]), 2))
    else None
  }

  /** The opcodes that can be decoded, and whether they are all of `ws`. */
  function Decode(ws: seq<nat>): (seq<Op>, bool)
    decreases |ws|
  {
    if ws == [] then ([], true)
    else
      match First(ws)
      case None => ([], false)
      case Some(f) =>
        var (ops, ok) := Decode(ws[f.1..]);
        ([f.0] + ops, ok)
  }

  /** The number of words the decodable prefix takes. */
  function Consumed(ws: seq<nat>): (n: nat)
    ensures n <= |ws|
    decreases |ws|
  {
    match First(ws)
    case None => 0
    case Some(f) => f.1 + Consumed(ws[f.1..])
  }

  /** kgsl_regwrite takes 32-bit arguments, so upper halves are lost. */
  function EffectOf(op: Op): Effect {
    match op
    case Write32(reg, value) => RegWrite(reg % WORD, value % WORD)
    case Write64(reg, value) => RegWrite(reg % WORD, value % WORD)
    case Delay(usec) => Wait(usec)
  }

  function Effects(ops: seq<Op>): seq<Effect> {
    seq(|ops|, i requires 0 <= i < |ops| => EffectOf(ops[i]))
  }

  // ------------------------------------------------------------ lemmas

  lemma FirstOfEncoded(op: Op, rest: seq<nat>)
    requires OpOk(op)
    ensures First(Encode(op) + rest) == Some((op, |Encode(op)|))
    ensures (Encode(op) + rest)[|Encode(op)|..] == rest
  {}

  /** Whatever sequence is encoded, decoding gives it back. */
  lemma {:induction false} DecodeEncode(ops: seq<Op>)
    requires forall k | 0 <= k < |ops| :: OpOk(ops[k])
    ensures Decode(EncodeAll(ops)) == (ops, true)
  {
    if ops != [] {
      DecodeEncode(ops[1..]);
      FirstOfEncoded(ops[0], EncodeAll(ops[1..]));
      assert ops == [ops[0]] + ops[1..];
    }
  }

  lemma FirstEffect(ws: seq<nat>)
    requires Words(ws) && First(ws).Some?
    ensures var (op, n) := First(ws).value;
      && (ws[0] == 1 ==> n == 4 && EffectOf(op) == RegWrite(ws[1], ws[3]))
      && (ws[0] == 2 ==> n == 5 && EffectOf(op) == RegWrite(ws[1], ws[3]))
      && (ws[0] == 3 ==> n == 2 && EffectOf(op) == Wait(ws[1]))
  {
    if ws[0] != 3 { Halves(ws[2], ws[1]); }
    if ws[0] == 2 { Halves(ws[4], ws[3]); }
  }

  lemma OneEffect(ws: seq<nat>)
    requires First(ws).Some?
    ensures var (op, n) := First(ws).value; Effects(Decode(ws).0) == [EffectOf(op)] + Effects(Decode(ws[n..]).0)
  {
    hide First, EffectOf;
    var (op, n) := First(ws).value;
    assert Decode(ws).0 == [op] + Decode(ws[n..]).0;
  }

  predicate Opcode(ws: seq<nat>, code: nat, length: nat) {
    |ws| >= length >= 1 && ws[0] == code
  }

  /** The three opcodes word by word: what the words at the front of a sequence do, before those behind them. */
  lemma WordsBecomeEffects(ws: seq<nat>)
    requires Words(ws)
    ensures Opcode(ws, 1, 4) ==> Effects(Decode(ws).0) == [RegWrite(ws[1], ws[3])] + Effects(Decode(ws[4..]).0)
    ensures Opcode(ws, 2, 5) ==> Effects(Decode(ws).0) == [RegWrite(ws[1], ws[3])] + Effects(Decode(ws[5..]).0)
    ensures Opcode(ws, 3, 2) ==> Effects(Decode(ws).0) == [Wait(ws[1])] + Effects(Decode(ws[2..]).0)
    ensures !Opcode(ws, 1, 4) && !Opcode(ws, 2, 5) && !Opcode(ws, 3, 2) ==> Effects(Decode(ws).0) == []
  {
    if First(ws).Some? {
      FirstEffect(ws);
      OneEffect(ws);
    }
    hide Decode, Effects, EffectOf, Words;
    if First(ws).None? { NoEffect(ws); }
  }

  lemma NoEffect(ws: seq<nat>)
    requires First(ws).None?
    ensures Effects(Decode(ws).0) == []
  {}

  lemma FirstIsEncoded(ws: seq<nat>)
    requires Words(ws) && First(ws).Some?
    ensures var (op, n) := First(ws).value; OpOk(op) && Encode(op) == ws[..n]
  {
    var (op, n) := First(ws).value;
    if op.Write32? {
      Halves(ws[2], ws[1]);
      assert Encode(op) == ws[..4];
    } else if op.Write64? {
      Halves(ws[2], ws[1]);
      Halves(ws[4], ws[3]);
      assert Encode(op) == ws[..5];
    }
  }

  lemma Halves(hi: nat, lo: nat)
    requires hi < WORD && lo < WORD
    ensures (hi * WORD + lo) % WORD == lo && (hi * WORD + lo) / WORD == hi && hi * WORD + lo < WORD * WORD
  {}

  lemma CutAgain(ws: seq<nat>, n: nat, m: nat)
    requires n + m <= |ws|
    ensures ws[..n] + ws[n..][..m] == ws[..n + m] && ws[n..][m..] == ws[n + m..]
  {}

  /** Any words are the encoding of what is decoded, followed by a rest with no opcode at its front. */
  lemma {:induction false} EncodeDecode(ws: seq<nat>)
    requires Words(ws)
    ensures var (ops, ok) := Decode(ws);
      && (forall k | 0 <= k < |ops| :: OpOk(ops[k]))
      && EncodeAll(ops) == ws[..Consumed(ws)]
      && First(ws[Consumed(ws)..]) == None
      && (ok <==> Consumed(ws) == |ws|)
    decreases |ws|
  {
    hide First, Encode, OpOk;
    if First(ws).Some? {
      FirstIsEncoded(ws);
      var (op, n) := First(ws).value;
      var rest := ws[n..];
      EncodeDecode(rest);
      var ops := Decode(rest).0;
      assert ([op] + ops)[1..] == ops;
      CutAgain(ws, n, Consumed(rest));
    } else {
      assert ws[0..] == ws;
    }
  }

  /** Decoding succeeds exactly for the concatenations of well-formed opcodes. */
  lemma WellFormedExactly(ws: seq<nat>)
    requires Words(ws)
    ensures Decode(ws).1 <==>
      exists ops: seq<Op> :: (forall k | 0 <= k < |ops| :: OpOk(ops[k])) && EncodeAll(ops) == ws
  {
    EncodeDecode(ws);
    assert ws[..|ws|] == ws;
    forall ops: seq<Op> | (forall k | 0 <= k < |ops| :: OpOk(ops[k])) && EncodeAll(ops) == ws ensures Decode(ws).1 {
      DecodeEncode(ops);
    }
  }

  /** The hardware sees a decoded write exactly as meant if register and value fit 32 bits, and a cut one otherwise. */
  lemma TruncationMatters(op: Op)
    requires OpOk(op) && !op.Delay?
    ensures EffectOf(op) == RegWrite(op.reg, op.value) <==> op.reg < WORD && op.value < WORD
  {}

  // --------------------------------------------------------- the loop

  /** The registers behind kgsl_regwrite, with what has been done to them. */
  class Hardware {
    var log: seq<Effect>

    constructor ()
      ensures log == []
    {
      log := [];
    }

    method RegWrite(offset: nat, value: nat)
      modifies this
      ensures log == old(log) + [Effect.RegWrite(offset % WORD, value % WORD)]
    {
      log := log + [Effect.RegWrite(offset % WORD, value % WORD)];
    }

    method Udelay(usec: nat)
      modifies this
      ensures log == old(log) + [Wait(usec)]
    {
      log := log + [Wait(usec)];
    }

    /**
     _execute_reg_sequence. On failure exactly the decodable prefix has taken
     effect; nothing outside `opcode` is read.
     */
    method ExecuteRegSequence(opcode: seq<nat>) returns (ok: bool)
      modifies this
      ensures ok == Decode(opcode).1
      ensures log == old(log) + Effects(Decode(opcode).0)
    {
      var cur, length := 0, |opcode|;
      ghost var done: seq<Op> := [];
      DoneAtStart(opcode);
      hide Done, Decode;
      while cur < length
        invariant 0 <= cur <= length && Done(opcode, cur, done)
        invariant log == old(log) + Effects(done)
      {
        if opcode[cur] == 1 && length - cur >= 4 {
          var reg := opcode[cur + 2];
          reg := reg * WORD + opcode[cur + 1];
          RegWrite(reg, opcode[cur + 3]);
          done := Onward(opcode, cur, 4, Write32(reg, opcode[cur + 3]), done);
          cur := cur + 4;
        } else if opcode[cur] == 2 && length - cur >= 5 {
          var reg := opcode[cur + 2];
          reg := reg * WORD + opcode[cur + 1];
          var val := opcode[cur + 4];
          val := val * WORD + opcode[cur + 3];
          RegWrite(reg, val);
          done := Onward(opcode, cur, 5, Write64(reg, val), done);
          cur := cur + 5;
        } else if opcode[cur] == 3 && length - cur >= 2 {
          Udelay(opcode[cur + 1]);
          done := Onward(opcode, cur, 2, Delay(opcode[cur + 1]), done);
          cur := cur + 2;
        } else {
          DoneAtEnd(opcode, cur, done);
          return false;
        }
      }
      DoneAtEnd(opcode, cur, done);
      return true;
    }
  }

  /** Up to `cur` the opcodes `done` have been decoded. */
  ghost predicate Done(opcode: seq<nat>, cur: nat, done: seq<Op>) {
    && cur <= |opcode|
    && var rest := Decode(opcode[cur..]);
      Decode(opcode) == (done + rest.0, rest.1)
  }

  lemma DoneAtStart(opcode: seq<nat>)
    ensures Done(opcode, 0, []) && Effects([]) == []
  {
    assert opcode[0..] == opcode;
    assert [] + Decode(opcode).0 == Decode(opcode).0;
  }

  lemma Onward(opcode: seq<nat>, cur: nat, n: nat, op: Op, done: seq<Op>) returns (more: seq<Op>)
    requires Done(opcode, cur, done) && cur + n <= |opcode| && First(opcode[cur..]) == Some((op, n))
    ensures more == done + [op] && Done(opcode, cur + n, more)
    ensures Effects(more) == Effects(done) + [EffectOf(op)]
  {
    more := done + [op];
    var rest := opcode[cur + n..];
    assert opcode[cur..][n..] == rest;
    assert done + ([op] + Decode(rest).0) == more + Decode(rest).0;
  }

  lemma DoneAtEnd(opcode: seq<nat>, cur: nat, done: seq<Op>)
    requires Done(opcode, cur, done) && First(opcode[cur..]).None?
    ensures Decode(opcode) == (done, cur == |opcode|)
  {
    assert done + [] == done;
  }
}
