/** Filling a buffer of dwords packet by packet, and the ring that such a buffer can be. */
module CommandBuffer {
  import opened Pm4
  import opened CommandProcessor
  import opened Submissions
  import opened StreamBounds

  // ------------------------------------------------- cmds[index++] = ...

  /** Of the buffer `was` only the dwords from `start` on have been overwritten, by exactly the packets `ps`. */
  predicate Wrote(was: seq<Word>, now: seq<Word>, start: nat, ps: seq<Packet>, index: nat) {
    && |now| == |was| && index == Size(ps) && start + index <= |now|
    && now[..start] == was[..start]
    && now[start..start + index] == Flatten(ps)
    && now[start + index..] == was[start + index..]
  }

  lemma WroteNothing(was: seq<Word>, start: nat)
    requires start <= |was|
    ensures Wrote(was, was, start, [], 0)
  {}

  lemma WroteMore(was: seq<Word>, mid: seq<Word>, now: seq<Word>, start: nat,
                  ps: seq<Packet>, qs: seq<Packet>, index: nat, next: nat)
    requires Wrote(was, mid, start, ps, index) && |now| == |mid| && start + next <= |now|
    requires next == index + Size(qs)
    requires now[..start + index] == mid[..start + index]
    requires now[start + index..start + next] == Flatten(qs)
    requires now[start + next..] == mid[start + next..]
    ensures Wrote(was, now, start, ps + qs, next)
  {
    FlattenConcat(ps, qs);
    hide Flatten;
    var at := start + index;
    SamePrefix(now, mid, start, at);
    SameSuffix(mid, was, at, start + next);
    JoinSlices(now, start, at, start + next);
  }

  lemma SamePrefix(a: seq<Word>, b: seq<Word>, from: nat, to: nat)
    requires from <= to <= |a| && to <= |b| && a[..to] == b[..to]
    ensures a[..from] == b[..from] && a[from..to] == b[from..to]
  {
    assert a[..from] == a[..to][..from] && b[..from] == b[..to][..from];
    assert a[from..to] == a[..to][from..] && b[from..to] == b[..to][from..];
  }

  lemma SameSuffix(a: seq<Word>, b: seq<Word>, from: nat, to: nat)
    requires from <= to <= |a| && |a| == |b| && a[from..] == b[from..]
    ensures a[to..] == b[to..]
  {
    assert a[to..] == a[from..][to - from..] && b[to..] == b[from..][to - from..];
  }

  lemma JoinSlices(a: seq<Word>, from: nat, at: nat, to: nat)
    requires from <= at <= to <= |a|
    ensures a[from..to] == a[from..at] + a[at..to]
  {}

  lemma WroteAll(was: seq<Word>, now: seq<Word>, ps: seq<Packet>, index: nat)
    requires Wrote(was, now, 0, ps, index)
    ensures index <= |now| && now[..index] == Flatten(ps)
  {
    assert now[..index] == now[0..0 + index];
  }

  /** Append one packet to what has been written. */
  method Emit(cmds: array<Word>, start: nat, index: nat, p: Packet, ghost was: seq<Word>, ghost ps: seq<Packet>)
    returns (next: nat)
    requires Wrote(was, cmds[..], start, ps, index)
    requires start + index + 1 + |p.payload| <= cmds.Length
    modifies cmds
    ensures Wrote(was, cmds[..], start, ps + [p], next)
    ensures next == index + 1 + |p.payload|
  {
    hide Wrote, Flatten;
    ghost var mid := cmds[..];
    cmds[start + index] := Head(p.h);
    var k := 0;
    while k < |p.payload|
      invariant 0 <= k <= |p.payload|
      invariant cmds[..start + index] == mid[..start + index]
      invariant cmds[start + index] == Head(p.h)
      invariant cmds[start + index + 1..start + index + 1 + k] == p.payload[..k]
      invariant cmds[start + index + 1 + k..] == mid[start + index + 1 + k..]
    {
      cmds[start + index + 1 + k] := p.payload[k];
      k := k + 1;
    }
    next := index + 1 + |p.payload|;
    FlattenOne(p);
    assert cmds[..][start + index..start + next] == [Head(p.h)] + cmds[start + index + 1..start + next];
    WroteMore(was, mid, cmds[..], start, ps, [p], index, next);
  }

  /** memcpy of `dwords` dwords that hold the packets `qs`. */
  method Copy(cmds: array<Word>, start: nat, index: nat, input: array<Word>, dwords: nat,
              ghost was: seq<Word>, ghost ps: seq<Packet>, ghost qs: seq<Packet>)
    returns (next: nat)
    requires Wrote(was, cmds[..], start, ps, index)
    requires input != cmds && dwords <= input.Length && start + index + dwords <= cmds.Length
    requires input[..dwords] == Flatten(qs)
    modifies cmds
    ensures Wrote(was, cmds[..], start, ps + qs, next)
    ensures next == index + dwords
  {
    ghost var mid := cmds[..];
    var k := 0;
    while k < dwords
      invariant 0 <= k <= dwords
      invariant cmds[..start + index] == mid[..start + index]
      invariant cmds[start + index..start + index + k] == input[..k]
      invariant cmds[start + index + k..] == mid[start + index + k..]
    {
      cmds[start + index + k] := input[k];
      k := k + 1;
    }
    next := index + dwords;
    WroteMore(was, mid, cmds[..], start, ps, qs, index, next);
  }

  lemma {:induction false} OneMore(most: nat, i: nat, n: nat)
    requires i < n
    ensures most * (i + 1) == most * i + most <= most * n
  {
    if i + 1 < n { OneMore(most, i, n - 1); }
  }

  /** The list of IBs, each at most `most` dwords. */
  method FillIbs(cmds: array<Word>, index: nat, flags: Flags, ibs: seq<Ib>, packet: (Ib, bool) -> Packet, most: nat,
                 ghost was: seq<Word>, ghost ps: seq<Packet>)
    returns (next: nat)
    requires Wrote(was, cmds[..], 0, ps, index) && index + most * |ibs| <= cmds.Length
    requires forall ib, skipped :: 1 + |packet(ib, skipped).payload| <= most
    modifies cmds
    ensures Wrote(was, cmds[..], 0, IbList(flags, ibs, ps, packet), next)
    ensures next <= index + most * |ibs|
  {
    hide Wrote;
    next := index;
    var i := 0;
    while i < |ibs|
      invariant 0 <= i <= |ibs| && next <= index + most * i
      invariant Wrote(was, cmds[..], 0, IbList(flags, ibs[..i], ps, packet), next)
    {
      ghost var before := IbList(flags, ibs[..i], ps, packet);
      assert ibs[..i + 1][..i] == ibs[..i];
      OneMore(most, i, |ibs|);
      next := Emit(cmds, 0, next, packet(ibs[i], Skipped(flags, ibs[i])), was, before);
      i := i + 1;
    }
    assert ibs[..i] == ibs;
  }

  // ---------------------------------------------------------- the ring

  /** KGSL_RB_DWORDS. */
  const RB_DWORDS := 8192

  /** The words between the read pointer and the write cursor, in the order the CP meets them. */
  function Live(b: seq<Word>, rptr: nat, cursor: nat): seq<Word>
    requires rptr <= |b| && cursor <= |b|
  {
    if rptr <= cursor then b[rptr..cursor] else b[rptr..] + b[..cursor]
  }

  /** What is between the two pointers and one of them give the other. */
  lemma CursorOf(b: seq<Word>, rptr: nat, cursor: nat)
    requires |b| == RB_DWORDS && rptr < RB_DWORDS && cursor < RB_DWORDS
    ensures cursor == (rptr + |Live(b, rptr, cursor)|) % RB_DWORDS
  {}

  predicate FitsAtEnd(rptr: nat, cursor: nat, n: nat) {
    rptr <= cursor && cursor + n <= RB_DWORDS - 2
  }

  predicate FitsAtFront(rptr: nat, cursor: nat, n: nat) {
    rptr <= cursor && !FitsAtEnd(rptr, cursor, n) && n < rptr
  }

  predicate FitsBetween(rptr: nat, cursor: nat, n: nat) {
    cursor + n < rptr
  }

  predicate Fits(rptr: nat, cursor: nat, n: nat) {
    FitsAtEnd(rptr, cursor, n) || FitsAtFront(rptr, cursor, n) || FitsBetween(rptr, cursor, n)
  }

  /** The most dwords that can be had in one piece; the last two of the buffer and one before the read pointer are never used. */
  function Room(rptr: nat, cursor: nat): int {
    if cursor < rptr then rptr - cursor - 1
    else if 8190 - cursor >= rptr - 1 then 8190 - cursor
    else rptr - 1
  }

  /** A request is refused exactly if it is for more than that. */
  lemma FitsExactly(rptr: nat, cursor: nat, n: nat)
    ensures Fits(rptr, cursor, n) <==> n <= Room(rptr, cursor)
  {}

  /** [pos, pos + n) holds nothing live, and filling it does not make the ring look empty. */
  predicate Free(rptr: nat, pos: nat, n: nat) {
    if rptr <= pos then pos + n <= RB_DWORDS - 2 else pos + n < rptr
  }

  /** Nothing, or one NOP packet that covers the words left over at the end of the buffer. */
  predicate IsGap(gap: seq<Word>) {
    || gap == []
    || (0 < |gap| <= 0x4000 && gap[0] == Head(Type7(CP_NOP, |gap| - 1)))
    || (1 < |gap| <= 0x4000 && gap[0] == Head(Type3(CP_NOP, |gap| - 1)))
  }

  /** The ring's contents grow by these packets, after a NOP if the buffer wrapped. */
  ghost predicate Adds(before: seq<Word>, after: seq<Word>, ps: seq<Packet>) {
    exists gap: seq<Word> :: IsGap(gap) && after == before + gap + Flatten(ps)
  }

  /** Writing into free space leaves the live words alone, and advancing the cursor over it appends it. */
  lemma FreeSpaceIsAppended(was: seq<Word>, now: seq<Word>, rptr: nat, pos: nat, n: nat, ps: seq<Packet>, index: nat)
    requires |was| == RB_DWORDS && rptr < RB_DWORDS && Free(rptr, pos, n) && index <= n
    requires Wrote(was, now, pos, ps, index)
    ensures Live(now, rptr, pos + index) == Live(was, rptr, pos) + Flatten(ps)
  {
    var at := pos + index;
    if rptr <= pos {
      assert now[rptr..at] == now[..pos][rptr..] + now[pos..at];
      assert was[rptr..pos] == was[..pos][rptr..];
    } else {
      assert now[rptr..] == now[at..][rptr - at..] && was[rptr..] == was[at..][rptr - at..];
      assert now[..at] == now[..pos] + now[pos..at];
    }
  }
}
