/** Streams that are well framed, and how they grow. */
module StreamBounds {
  import opened Wrappers
  import opened Pm4
  import opened CommandProcessor
  import opened Submissions

  /** A packet whose header says how long it is and whose words are 32-bit words. */
  predicate Sound(p: Packet) {
    Framed(p) && Encodable(p.h) && AllOk(p.payload)
  }

  predicate AllSound(ps: seq<Packet>) {
    forall k | 0 <= k < |ps| :: Sound(ps[k])
  }

  function Size(ps: seq<Packet>): nat {
    |Flatten(ps)|
  }

  lemma SizeIs(ps: seq<Packet>)
    ensures Size(ps) == |Flatten(ps)|
  {}

  /** The stream `after` extends `before` by sound packets of at most `most` dwords. */
  predicate Grows(before: seq<Packet>, after: seq<Packet>, most: nat) {
    && (AllSound(before) ==> AllSound(after))
    && Size(before) <= Size(after) <= Size(before) + most
  }

  lemma Snoc(ps: seq<Packet>, p: Packet, most: nat)
    requires Sound(p) && |p.payload| < most
    ensures Grows(ps, ps + [p], most) && Size(ps + [p]) == Size(ps) + 1 + |p.payload|
  {
    assert (ps + [p])[..|ps|] == ps;
  }

  lemma Chain(a: seq<Packet>, b: seq<Packet>, c: seq<Packet>, m: nat, n: nat)
    requires Grows(a, b, m) && Grows(b, c, n)
    ensures Grows(a, c, m + n)
  {}

  lemma MaybeSnoc(c: bool, ps: seq<Packet>, p: Packet, most: nat)
    requires c ==> Sound(p) && |p.payload| < most
    ensures Grows(ps, if c then ps + [p] else ps, most)
  {
    if c { Snoc(ps, p, most); }
  }

  lemma Same(ps: seq<Packet>, most: nat)
    ensures Grows(ps, ps, most)
  {}

  lemma FromNothing(ps: seq<Packet>, most: nat)
    requires Grows([], ps, most)
    ensures AllSound(ps) && Size(ps) <= most
  {}

  lemma SoundConcat(a: seq<Packet>, b: seq<Packet>)
    requires AllSound(a) && AllSound(b)
    ensures AllSound(a + b) && Size(a + b) == Size(a) + Size(b)
  {
    FlattenConcat(a, b);
  }

  lemma HalvesAreDwords(a: nat)
    requires U64(a)
    ensures U32(Lo(a)) && U32(Hi(a))
  {}

  // --------------------------------------------- what the CP reads back

  lemma {:induction false} SoundWords(ps: seq<Packet>)
    requires AllSound(ps)
    ensures AllFramed(ps) && AllOk(Flatten(ps))
  {
    if ps != [] {
      var init, p := ps[..|ps| - 1], ps[|ps| - 1];
      SoundWords(init);
      assert Sound(p) && WordOk(Head(p.h));
    }
  }

  /** Reading the dwords of a sound stream, the CP finds the packets that were meant, whatever their payload holds. */
  lemma StreamIsReadBack(ps: seq<Packet>)
    requires AllSound(ps)
    ensures AllOk(Flatten(ps))
    ensures Parse(Flatten(ps)) == Some(ps)
    ensures Headers(Dwords(Flatten(ps))) == Some(HeadersOf(ps))
  {
    SoundWords(ps);
    ParseFlatten(ps);
    DwordsParse(Flatten(ps));
  }
}
