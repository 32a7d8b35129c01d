/**
 PM4 packets: a header word that names an operation and the number of payload
 words after it. Streams are sequences of words; only the position of a word
 decides whether it is read as a header.
 */
module Pm4 {
  import opened Wrappers

  datatype Header =
    | Type0(reg: nat, count: nat)
    | Type3(op: nat, count: nat)
    | Type4(reg: nat, count: nat)
    | Type7(op: nat, count: nat)

  datatype Word = Head(h: Header) | Data(v: nat)

  datatype Packet = Packet(h: Header, payload: seq<Word>)

  // ---------------------------------------------------------- framing

  predicate Framed(p: Packet) {
    |p.payload| == p.h.count
  }

  predicate AllFramed(ps: seq<Packet>) {
    forall k | 0 <= k < |ps| :: Framed(ps[k])
  }

  function Words(p: Packet): seq<Word> {
    [Head(p.h)] + p.payload
  }

  function Flatten(ps: seq<Packet>): seq<Word> {
    if ps == [] then [] else Flatten(ps[..|ps| - 1]) + Words(ps[|ps| - 1])
  }

  /** How the CP cuts a stream into packets; None when it does not end on a packet boundary. */
  function Parse(ws: seq<Word>): Option<seq<Packet>>
    decreases |ws|
  {
    if ws == [] then Some([])
    else if ws[0].Head? && ws[0].h.count < |ws| then
      var n := ws[0].h.count + 1;
      var rest := Parse(ws[n..]);
      if rest.Some? then Some([Packet(ws[0].h, ws[1..n])] + rest.value) else None
    else None
  }

  lemma {:induction false} FlattenConcat(a: seq<Packet>, b: seq<Packet>)
    ensures Flatten(a + b) == Flatten(a) + Flatten(b)
  {
    if b == [] {
      assert a + b == a;
    } else {
      var init := b[..|b| - 1];
      assert (a + b)[..|a + b| - 1] == a + init;
      FlattenConcat(a, init);
      assert Flatten(a) + (Flatten(init) + Words(b[|b| - 1])) == Flatten(a) + Flatten(init) + Words(b[|b| - 1]);
    }
  }

  lemma FlattenOne(p: Packet)
    ensures Flatten([p]) == Words(p)
  {
    assert [p][..0] == [];
  }

  lemma FlattenFront(p: Packet, rest: seq<Packet>)
    ensures Flatten([p] + rest) == Words(p) + Flatten(rest)
  {
    FlattenConcat([p], rest);
    FlattenOne(p);
  }

  /** A stream of framed packets is read back as those packets, whatever their payload looks like. */
  lemma {:induction false} ParseFlatten(ps: seq<Packet>)
    requires AllFramed(ps)
    ensures Parse(Flatten(ps)) == Some(ps)
    decreases |ps|
  {
    if ps != [] {
      var p, rest := ps[0], ps[1..];
      assert ps == [p] + rest;
      FlattenConcat([p], rest);
      FlattenOne(p);
      var ws := Flatten(ps);
      assert Framed(p) && ws == Words(p) + Flatten(rest);
      assert ws[|p.payload| + 1..] == Flatten(rest) && ws[1..|p.payload| + 1] == p.payload;
      ParseFlatten(rest);
    }
  }

  lemma FirstPacket(ws: seq<Word>)
    requires Parse(ws).Some? && ws != []
    ensures ws[0].Head? && ws[0].h.count < |ws| && Parse(ws[ws[0].h.count + 1..]).Some?
    ensures Parse(ws).value
         == [Packet(ws[0].h, ws[1..ws[0].h.count + 1])] + Parse(ws[ws[0].h.count + 1..]).value
  {}

  /** Conversely a stream that parses is the flattening of its packets. */
  lemma {:induction false} FlattenParse(ws: seq<Word>)
    requires Parse(ws).Some?
    ensures AllFramed(Parse(ws).value) && Flatten(Parse(ws).value) == ws
    decreases |ws|
  {
    if ws != [] {
      FirstPacket(ws);
      var n := ws[0].h.count + 1;
      FlattenParse(ws[n..]);
      var p, rest := Packet(ws[0].h, ws[1..n]), Parse(ws[n..]).value;
      hide Parse, Flatten, Words;
      FlattenFront(p, rest);
      Rebuild(ws, n);
    }
  }

  lemma Rebuild(ws: seq<Word>, n: nat)
    requires 1 <= n <= |ws| && ws[0].Head?
    ensures Words(Packet(ws[0].h, ws[1..n])) + ws[n..] == ws
  {}

  // ------------------------------------------------------ header words

  /** Number of one bits, and the bit that makes it odd (pm4_calc_odd_parity_bit). */
  function Ones(v: nat): nat {
    if v == 0 then 0 else v % 2 + Ones(v / 2)
  }

  function OddParity(v: nat): (bit: nat)
    ensures bit <= 1
    ensures (Ones(v) + bit) % 2 == 1
  {
    if Ones(v) % 2 == 0 then 1 else 0
  }

  /** The xor of the hexadecimal digits of v. */
  function DigitXor(v: nat): bv16 {
    if v == 0 then 0 else Xor(DigitXor(v / 16), Digit(v % 16))
  }

  function Xor(a: bv16, b: bv16): bv16 { a ^ b }

  function Digit(n: nat): bv16
    requires n < 16
  {
    n as bv16
  }

  /** pm4_calc_odd_parity_bit, which looks the bit up. */
  function LookedUp(v: nat): bv16 {
    Entry(DigitXor(v))
  }

  function Entry(digit: bv16): bv16 {
    ((0x9669 as bv16) >> (digit & 0xF) as bv5) & 1
  }

  lemma EntryOfXor(a: bv16, b: bv16)
    ensures Entry(Xor(a, b)) == if Entry(a) == Entry(b) then 1 else 0
  {}

  lemma EntryOfDigit(n: nat)
    requires n < 16
    ensures Entry(Digit(n)) == if OddParity(n) == 1 then 1 else 0
  {
    if n == 0 {} else if n == 1 {} else if n == 2 {} else if n == 3 {} else if n == 4 {} else if n == 5 {}
    else if n == 6 {} else if n == 7 {} else if n == 8 {} else if n == 9 {} else if n == 10 {} else if n == 11 {}
    else if n == 12 {} else if n == 13 {} else if n == 14 {} else {}
  }

  lemma OnesOfBit(v: nat, b: nat)
    requires b <= 1
    ensures Ones(2 * v + b) == Ones(v) + b
  {}

  lemma OnesOfBits(q: nat, a: nat, b: nat, c: nat, d: nat)
    requires a <= 1 && b <= 1 && c <= 1 && d <= 1
    ensures Ones(16 * q + 8 * a + 4 * b + 2 * c + d) == Ones(q) + a + b + c + d
  {
    hide Ones;
    OnesOfBit(q, a);
    OnesOfBit(2 * q + a, b);
    OnesOfBit(4 * q + 2 * a + b, c);
    OnesOfBit(8 * q + 4 * a + 2 * b + c, d);
  }

  lemma BitsOfDigit(n: nat)
    requires n < 16
    ensures n == 8 * (n / 8) + 4 * (n / 4 % 2) + 2 * (n / 2 % 2) + n % 2 && n / 8 <= 1
  {}

  lemma OnesOfDigit(q: nat, n: nat)
    requires n < 16
    ensures Ones(16 * q + n) == Ones(q) + Ones(n)
  {
    var a, b, c, d := n / 8, n / 4 % 2, n / 2 % 2, n % 2;
    assert Ones(0) == 0;
    hide Ones;
    BitsOfDigit(n);
    OnesOfBits(q, a, b, c, d);
    OnesOfBits(0, a, b, c, d);
  }

  lemma ParityOfDigit(q: nat, n: nat)
    requires n < 16
    ensures OddParity(16 * q + n) == if OddParity(q) == OddParity(n) then 1 else 0
  {
    OnesOfDigit(q, n);
    hide Ones;
  }

  /** Counting the ones and looking the bit up give the same. */
  lemma {:induction false} ParityIsLookedUp(v: nat)
    ensures LookedUp(v) == if OddParity(v) == 1 then 1 else 0
  {
    EntryOfDigit(0);
    hide OddParity, Entry, Ones;
    if v != 0 {
      var q, n := v / 16, v % 16;
      ParityIsLookedUp(q);
      ParityOfDigit(q, n);
      EntryOfDigit(n);
      LookUpMore(v, q, n);
    }
  }

  lemma LookUpMore(v: nat, q: nat, n: nat)
    requires v != 0 && q == v / 16 && n == v % 16
    ensures LookedUp(v) == if LookedUp(q) == Entry(Digit(n)) then 1 else 0
  {
    hide Entry, Xor, Digit;
    EntryOfXor(DigitXor(q), Digit(n));
  }

  /** The counts and names for which the fields of a header word do not overlap. */
  predicate Encodable(h: Header) {
    match h
    case Type0(reg, count) => reg < 0x8000 && 0 < count <= 0x4000
    case Type3(op, count) => op < 0x80 && 0 < count <= 0x4000
    case Type4(reg, count) => reg < 0x40000 && count < 0x80
    case Type7(op, count) => op < 0x80 && count < 0x4000
  }

  /** cp_type0_packet to cp_type7_packet; the fields are disjoint, so | is +. */
  function Encode(h: Header): (w: nat)
    requires Encodable(h)
    ensures w < 0x1_0000_0000
  {
    match h
    case Type0(reg, count) => (count - 1) * 0x1_0000 + reg
    case Type3(op, count) => 3 * 0x4000_0000 + (count - 1) * 0x1_0000 + op * 0x100
    case Type4(reg, count) =>
      4 * 0x1000_0000 + OddParity(reg) * 0x800_0000 + reg * 0x100 + OddParity(count) * 0x80 + count
    case Type7(op, count) =>
      7 * 0x1000_0000 + OddParity(op) * 0x80_0000 + op * 0x1_0000 + OddParity(count) * 0x8000 + count
  }

  /** pkt_is_type0 to pkt_is_type7 with the size and opcode macros. */
  function Decode(w: nat): Option<Header>
    requires w < 0x1_0000_0000
  {
    if w / 0x4000_0000 == 0 then Some(Type0(w % 0x8000, w / 0x1_0000 % 0x4000 + 1))
    else if w / 0x4000_0000 == 3 && w % 0x100 / 2 == 0 && w / 0x8000 % 2 == 0 then
      Some(Type3(w / 0x100 % 0x100, w / 0x1_0000 % 0x4000 + 1))
    else if w / 0x1000_0000 == 4
            && w / 0x800_0000 % 2 == OddParity(w / 0x100 % 0x8_0000)
            && w / 0x80 % 2 == OddParity(w % 0x80) then
      Some(Type4(w / 0x100 % 0x8_0000, w % 0x80))
    else if w / 0x1000_0000 == 7 && w / 0x100_0000 % 0x10 == 0
            && w / 0x80_0000 % 2 == OddParity(w / 0x1_0000 % 0x80)
            && w / 0x8000 % 2 == OddParity(w % 0x4000) then
      Some(Type7(w / 0x1_0000 % 0x80, w % 0x4000))
    else None
  }

  lemma DivIs(w: nat, c: nat, hi: nat, lo: nat)
    requires lo < c && w == hi * c + lo
    ensures w / c == hi && w % c == lo
  {
    var q, r := w / c, w % c;
    assert (q - hi) * c == lo - r;
    if q > hi { AtLeast(q - hi, c); }
    if q < hi { AtLeast(hi - q, c); }
  }

  lemma AtLeast(a: nat, c: nat)
    requires a >= 1
    ensures a * c >= c
  {}

  lemma Fields7(a: nat, op: nat, b: nat, count: nat, w: nat)
    requires a <= 1 && b <= 1 && op < 0x80 && count < 0x4000
    requires w == 7 * 0x1000_0000 + a * 0x80_0000 + op * 0x1_0000 + b * 0x8000 + count
    ensures w % 0x4000 == count && w / 0x8000 % 2 == b && w / 0x1_0000 % 0x80 == op && w / 0x80_0000 % 2 == a
    ensures w / 0x100_0000 % 0x10 == 0 && w / 0x1000_0000 == 7 && w / 0x4000_0000 == 1
  {
    DivIs(w, 0x4000, 7 * 0x4000 + a * 0x200 + op * 4 + b * 2, count);
    DivIs(w, 0x8000, 7 * 0x2000 + a * 0x100 + op * 2 + b, count);
    DivIs(w, 0x1_0000, 0x7000 + a * 0x80 + op, b * 0x8000 + count);
    DivIs(0x7000 + a * 0x80 + op, 0x80, 0xE0 + a, op);
    DivIs(w, 0x80_0000, 0xE0 + a, op * 0x1_0000 + b * 0x8000 + count);
    DivIs(w, 0x100_0000, 0x70, a * 0x80_0000 + op * 0x1_0000 + b * 0x8000 + count);
    DivIs(w, 0x1000_0000, 7, a * 0x80_0000 + op * 0x1_0000 + b * 0x8000 + count);
    DivIs(w, 0x4000_0000, 1, 0x3000_0000 + a * 0x80_0000 + op * 0x1_0000 + b * 0x8000 + count);
  }

  lemma Fields4(a: nat, reg: nat, b: nat, count: nat, w: nat)
    requires a <= 1 && b <= 1 && reg < 0x4_0000 && count < 0x80
    requires w == 4 * 0x1000_0000 + a * 0x800_0000 + reg * 0x100 + b * 0x80 + count
    ensures w % 0x80 == count && w / 0x80 % 2 == b && w / 0x100 % 0x8_0000 == reg && w / 0x800_0000 % 2 == a
    ensures w / 0x1000_0000 == 4 && w / 0x4000_0000 == 1
  {
    DivIs(w, 0x80, 4 * 0x20_0000 + a * 0x10_0000 + reg * 2 + b, count);
    DivIs(w, 0x100, 0x40_0000 + a * 0x8_0000 + reg, b * 0x80 + count);
    DivIs(0x40_0000 + a * 0x8_0000 + reg, 0x8_0000, 8 + a, reg);
    DivIs(w, 0x800_0000, 8 + a, reg * 0x100 + b * 0x80 + count);
    DivIs(w, 0x1000_0000, 4, a * 0x800_0000 + reg * 0x100 + b * 0x80 + count);
    DivIs(w, 0x4000_0000, 1, a * 0x800_0000 + reg * 0x100 + b * 0x80 + count);
  }

  lemma Fields3(op: nat, count: nat, w: nat)
    requires op < 0x80 && 0 < count <= 0x4000
    requires w == 3 * 0x4000_0000 + (count - 1) * 0x1_0000 + op * 0x100
    ensures w / 0x4000_0000 == 3 && w % 0x100 == 0 && w / 0x8000 % 2 == 0
    ensures w / 0x100 % 0x100 == op && w / 0x1_0000 % 0x4000 == count - 1
  {
    DivIs(w, 0x4000_0000, 3, (count - 1) * 0x1_0000 + op * 0x100);
    DivIs(w, 0x100, 3 * 0x40_0000 + (count - 1) * 0x100 + op, 0);
    DivIs(w, 0x8000, 3 * 0x8000 + (count - 1) * 2, op * 0x100);
    DivIs(3 * 0x40_0000 + (count - 1) * 0x100 + op, 0x100, 3 * 0x4000 + count - 1, op);
    DivIs(w, 0x1_0000, 3 * 0x4000 + count - 1, op * 0x100);
    DivIs(3 * 0x4000 + count - 1, 0x4000, 3, count - 1);
  }

  lemma Fields0(reg: nat, count: nat, w: nat)
    requires reg < 0x8000 && 0 < count <= 0x4000
    requires w == (count - 1) * 0x1_0000 + reg
    ensures w / 0x4000_0000 == 0 && w % 0x8000 == reg && w / 0x1_0000 % 0x4000 == count - 1
  {
    DivIs(w, 0x4000_0000, 0, w);
    DivIs(w, 0x8000, (count - 1) * 2, reg);
    DivIs(w, 0x1_0000, count - 1, reg);
    DivIs(count - 1, 0x4000, 0, count - 1);
  }

  /** Every header word the driver can build is recognised as what it was built for, and as nothing else. */
  lemma DecodeEncode(h: Header)
    requires Encodable(h)
    ensures Decode(Encode(h)) == Some(h)
  {
    match h
    case Type0(reg, count) => Fields0(reg, count, Encode(h));
    case Type3(op, count) => Fields3(op, count, Encode(h));
    case Type4(reg, count) => Fields4(OddParity(reg), reg, OddParity(count), count, Encode(h));
    case Type7(op, count) => Fields7(OddParity(op), op, OddParity(count), count, Encode(h));
  }

  /** Where the fields of a header word are, and that its two parity bits make the ones they cover odd in number. */
  lemma HeaderLayout(h: Header)
    requires Encodable(h)
    ensures var w := Encode(h);
      match h
      case Type0(reg, count) => w / 0x4000_0000 == 0 && w % 0x8000 == reg && w / 0x1_0000 % 0x4000 == count - 1
      case Type3(op, count) =>
        w / 0x4000_0000 == 3 && w % 0x100 == 0 && w / 0x100 % 0x100 == op && w / 0x1_0000 % 0x4000 == count - 1
      case Type4(reg, count) =>
        && w / 0x1000_0000 == 4 && w % 0x80 == count && w / 0x100 % 0x8_0000 == reg
        && (Ones(count) + w / 0x80 % 2) % 2 == 1 && (Ones(reg) + w / 0x800_0000 % 2) % 2 == 1
      case Type7(op, count) =>
        && w / 0x1000_0000 == 7 && w % 0x4000 == count && w / 0x1_0000 % 0x80 == op
        && (Ones(count) + w / 0x8000 % 2) % 2 == 1 && (Ones(op) + w / 0x80_0000 % 2) % 2 == 1
  {
    hide Ones, OddParity;
    match h
    case Type0(reg, count) => Fields0(reg, count, Encode(h));
    case Type3(op, count) => Fields3(op, count, Encode(h));
    case Type4(reg, count) => Fields4(OddParity(reg), reg, OddParity(count), count, Encode(h));
    case Type7(op, count) => Fields7(OddParity(op), op, OddParity(count), count, Encode(h));
  }

  // ------------------------------------------- the stream as dwords

  predicate WordOk(w: Word) {
    match w case Head(h) => Encodable(h) case Data(v) => v < 0x1_0000_0000
  }

  function Dword(w: Word): (d: nat)
    requires WordOk(w)
    ensures d < 0x1_0000_0000
  {
    match w case Head(h) => Encode(h) case Data(v) => v
  }

  function Dwords(ws: seq<Word>): (ds: seq<nat>)
    requires forall k | 0 <= k < |ws| :: WordOk(ws[k])
    ensures |ds| == |ws| && forall k | 0 <= k < |ws| :: ds[k] == Dword(ws[k])
  {
    if ws == [] then [] else [Dword(ws[0])] + Dwords(ws[1..])
  }

  /** Where the packets of a dword stream begin and what they are: the CP's own reading. */
  function Headers(ds: seq<nat>): Option<seq<Header>>
    requires forall k | 0 <= k < |ds| :: ds[k] < 0x1_0000_0000
    decreases |ds|
  {
    if ds == [] then Some([])
    else
      var h := Decode(ds[0]);
      if h.Some? && h.value.count < |ds| then
        var rest := Headers(ds[h.value.count + 1..]);
        if rest.Some? then Some([h.value] + rest.value) else None
      else None
  }

  function HeadersOf(ps: seq<Packet>): seq<Header> {
    seq(|ps|, i requires 0 <= i < |ps| => ps[i].h)
  }

  lemma DwordsFrom(ws: seq<Word>, n: nat)
    requires n <= |ws| && forall k | 0 <= k < |ws| :: WordOk(ws[k])
    ensures Dwords(ws)[n..] == Dwords(ws[n..])
  {}

  lemma FirstHeader(ws: seq<Word>)
    requires Parse(ws).Some? && ws != []
    ensures ws[0].Head? && ws[0].h.count < |ws| && Parse(ws[ws[0].h.count + 1..]).Some?
    ensures HeadersOf(Parse(ws).value) == [ws[0].h] + HeadersOf(Parse(ws[ws[0].h.count + 1..]).value)
  {
    hide Parse, HeadersOf;
    FirstPacket(ws);
    var n := ws[0].h.count + 1;
    HeadersOfCons(Packet(ws[0].h, ws[1..n]), Parse(ws[n..]).value);
  }

  lemma HeadersOfCons(p: Packet, rest: seq<Packet>)
    ensures HeadersOf([p] + rest) == [p.h] + HeadersOf(rest)
  {}

  predicate AllOk(ws: seq<Word>) {
    forall k | 0 <= k < |ws| :: WordOk(ws[k])
  }

  lemma FirstDword(ws: seq<Word>, h: Header)
    requires AllOk(ws) && ws != [] && ws[0] == Head(h) && h.count < |ws|
    ensures Encodable(h) && Dwords(ws)[0] == Encode(h)
    ensures Dwords(ws)[h.count + 1..] == Dwords(ws[h.count + 1..])
  {
    assert WordOk(ws[0]);
    DwordsFrom(ws, h.count + 1);
  }

  /** Reading the encoded dwords finds the same packets as reading the words. */
  lemma {:induction false} DwordsParse(ws: seq<Word>)
    requires AllOk(ws) && Parse(ws).Some?
    ensures Headers(Dwords(ws)) == Some(HeadersOf(Parse(ws).value))
    decreases |ws|
  {
    if ws == [] {
      assert HeadersOf([]) == [];
    } else {
      FirstHeader(ws);
      var h := ws[0].h;
      hide Parse, HeadersOf, Decode, Encode, Dwords, Encodable;
      FirstDword(ws, h);
      DwordsParse(ws[h.count + 1..]);
      DecodeEncode(h);
    }
  }
}
