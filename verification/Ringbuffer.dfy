/** struct adreno_ringbuffer and the reservation of space in it. */
module Ringbuffers {
  import opened Wrappers
  import opened Pm4
  import opened CommandProcessor
  import opened Submissions
  import opened StreamBounds
  import opened CommandBuffer

  /** 0, -ENOENT, -EPROTO, -ENOSPC and -ENOMEM. */
  datatype Outcome = Done | NoEntry | Fault | NoSpace | NoMemory

  /** A u32 counter. */
  function Next(v: nat): (n: nat)
    ensures U32(n)
  {
    (v + 1) % 0x1_0000_0000
  }

  /** A counter that stood at v, n increments later. */
  function Counted(v: nat, n: nat): (w: nat) {
    if n == 0 then v else Next(Counted(v, n - 1))
  }

  lemma {:induction false} CountsUp(v: nat, n: nat)
    requires U32(v)
    ensures Counted(v, n) == (v + n) % 0x1_0000_0000
  {
    if n > 0 {
      CountsUp(v, n - 1);
      OneMore(v + n - 1);
    }
  }

  lemma OneMore(m: nat)
    ensures Next(m % 0x1_0000_0000) == (m + 1) % 0x1_0000_0000
  {
    var q, r := m / 0x1_0000_0000, m % 0x1_0000_0000;
    assert m + 1 == q * 0x1_0000_0000 + (r + 1);
  }

  /** Counted once for each submission, no value comes again within 2^32 submissions, and then the first one does. */
  lemma CountsAreDistinct(v: nat, a: nat, b: nat)
    requires U32(v) && a < b <= a + 0x1_0000_0000
    ensures Counted(v, a) == Counted(v, b) <==> b == a + 0x1_0000_0000
  {
    CountsUp(v, a);
    CountsUp(v, b);
    var q := (v + b) / 0x1_0000_0000 - (v + a) / 0x1_0000_0000;
    assert (v + a) % 0x1_0000_0000 == (v + b) % 0x1_0000_0000 ==> b - a == q * 0x1_0000_0000;
  }

  /** PAGE_SIZE in dwords. */
  const PAGE_DWORDS := 1024

  /** The parts of struct adreno_device and of the addcmds functions that all rings share. */
  class Gpu {
    const defaultTtbr0: nat
    var none: bool        // the preemption state is NONE
    var current: nat      // the id of cur_rb
    var wptrRegister: nat // A5XX_CP_RB_WPTR
    var sequence: nat     // the static u32 in addcmds

    constructor (defaultTtbr0: nat)
      ensures none && current == 0 && wptrRegister == 0 && sequence == 0
      ensures this.defaultTtbr0 == defaultTtbr0
    {
      this.defaultTtbr0 := defaultTtbr0;
      none, current, wptrRegister, sequence := true, 0, 0, 0;
    }
  }

  class Ringbuffer {
    const id: nat
    const addr: RingAddresses
    const legacy: bool             // type 3 packets
    const buffer: array<Word>
    const profile: array?<Word>    // null when profile_desc could not be allocated
    var rptr: nat                  // what the CP last reported
    var cursor: nat                // _wptr
    var wptr: nat
    var timestamp: nat
    var active: Option<Context>
    var profileIndex: nat

    ghost predicate Valid()
      reads this
    {
      && buffer.Length == RB_DWORDS
      && rptr < RB_DWORDS && cursor <= RB_DWORDS - 2 && wptr <= RB_DWORDS - 2
      && U32(timestamp) && profileIndex < PROFILE_IB_SLOTS
      && RingOk(addr) && (active.Some? ==> ContextOk(active.value))
      && (profile != null ==> profile.Length == PAGE_DWORDS && profile != buffer)
    }

    /** Everything between the read pointer and the write cursor. */
    ghost function Stream(): seq<Word>
      requires Valid()
      reads this, buffer
    {
      Live(buffer[..], rptr, cursor)
    }

    constructor (id: nat, addr: RingAddresses, legacy: bool, profiling: bool)
      requires RingOk(addr)
      ensures Valid() && Stream() == [] && timestamp == 0 && active == None
      ensures this.id == id && this.addr == addr && this.legacy == legacy
      ensures fresh(buffer) && (profile != null ==> fresh(profile)) && (profile != null <==> profiling)
    {
      this.id, this.addr, this.legacy := id, addr, legacy;
      buffer := new Word[RB_DWORDS](_ => Data(0));
      if profiling {
        profile := new Word[PAGE_DWORDS](_ => Data(0));
      } else {
        profile := null;
      }
      rptr, cursor, wptr, timestamp, active, profileIndex := 0, 0, 0, 0, None, 0;
    }

    /** The words the NOP at the end of the buffer covers, from the cursor on. */
    ghost function Gap(n: nat): (gap: seq<Word>)
      requires Valid() && Fits(rptr, cursor, n)
      reads this, buffer
      ensures IsGap(gap)
    {
      if FitsAtFront(rptr, cursor, n)
      then
        var count := RB_DWORDS - cursor - 1;
        [Head(if legacy then Type3(CP_NOP, count) else Type7(CP_NOP, count))] + buffer[cursor + 1..]
      else []
    }

    /**
     adreno_ringbuffer_allocspace. The caller gets contiguous dwords that hold
     nothing the CP has yet to read, and what it has yet to read grows at most
     by a NOP that covers the rest of the buffer.
     */
    method AllocSpace(n: nat) returns (pos: Option<nat>)
      requires Valid()
      modifies this`cursor, buffer
      ensures Valid()
      ensures pos.Some? <==> Fits(rptr, old(cursor), n)
      ensures pos.None? ==> cursor == old(cursor) && buffer[..] == old(buffer[..])
      ensures pos.Some? ==>
        && cursor == pos.value + n
        && Free(rptr, pos.value, n)
        && Live(buffer[..], rptr, pos.value) == old(Stream()) + old(Gap(n))
    {
      hide RingOk, ContextOk;
      if rptr <= cursor {
        if cursor + n <= RB_DWORDS - 2 {
          var ret := cursor;
          cursor := (cursor + n) % RB_DWORDS;
          return Some(ret);
        }
        if n < rptr {
          ghost var was, gap := buffer[..], Gap(n);
          var count := RB_DWORDS - cursor - 1;
          buffer[cursor] := Head(if legacy then Type3(CP_NOP, count) else Type7(CP_NOP, count));
          GapClosesBuffer(was, buffer[..], rptr, cursor, gap);
          cursor := n;
          return Some(0);
        }
      }
      if cursor + n < rptr {
        var ret := cursor;
        cursor := (cursor + n) % RB_DWORDS;
        return Some(ret);
      }
      return None;
    }
  }

  lemma GapClosesBuffer(was: seq<Word>, now: seq<Word>, rptr: nat, cursor: nat, gap: seq<Word>)
    requires 0 < rptr <= cursor < |was| && gap != []
    requires now == was[cursor := gap[0]] && gap[1..] == was[cursor + 1..]
    ensures Live(now, rptr, 0) == Live(was, rptr, cursor) + gap
  {
    assert gap == [gap[0]] + gap[1..];
    assert now[rptr..] == was[rptr..cursor] + gap;
  }

  /** A gap is one packet without effect, so it may stand between any two submissions. */
  lemma GapIsOnePacket(gap: seq<Word>) returns (ps: seq<Packet>)
    requires IsGap(gap)
    ensures AllFramed(ps) && Flatten(ps) == gap
    ensures forall st :: Run(st, ps) == st
  {
    if gap == [] {
      ps := [];
    } else {
      var p := Packet(gap[0].h, gap[1..]);
      ps := [p];
      FlattenOne(p);
      assert gap == [gap[0]] + gap[1..];
      forall st ensures Run(st, ps) == st {
        RunSnoc(st, [], p);
        assert [] + [p] == [p];
        NopIsSilent(st, p);
      }
    }
  }

  lemma NopIsSilent(st: State, p: Packet)
    requires (p.h.Type7? || p.h.Type3?) && p.h.op == CP_NOP
    ensures Exec(st, p) == st
  {}

  /**
   What a ring holds stays a sequence of whole packets, and adding to it means
   doing what the added packets mean after what was there before.
   */
  lemma AddingStaysReadable(before: seq<Word>, after: seq<Word>, ps: seq<Packet>, st: State)
    requires Parse(before).Some? && AllFramed(ps) && Adds(before, after, ps)
    ensures Parse(after).Some?
    ensures Run(st, Parse(after).value) == Run(Run(st, Parse(before).value), ps)
  {
    var gap: seq<Word> :| IsGap(gap) && after == before + gap + Flatten(ps);
    var first := Parse(before).value;
    var nop := GapIsOnePacket(gap);
    FlattenParse(before);
    FlattenConcat(first, nop);
    FlattenConcat(first + nop, ps);
    ParseFlatten(first + nop + ps);
    RunConcat(st, first + nop, ps);
    RunConcat(st, first, nop);
  }

  // ------------------------------------------------ the ring over time

  /** What happens to the contents of a ring: a submission is added, or the CP reads some whole packets. */
  datatype Change = Add(ps: seq<Packet>) | Consume(n: nat)

  ghost predicate Changes(before: seq<Word>, c: Change, after: seq<Word>) {
    match c
    case Add(ps) => AllFramed(ps) && Adds(before, after, ps)
    case Consume(n) =>
      Parse(before).Some? && n <= |Parse(before).value| && after == Flatten(Parse(before).value[n..])
  }

  /** The contents of a ring from the start on, one more than there are changes. */
  ghost predicate History(contents: seq<seq<Word>>, changes: seq<Change>) {
    && |contents| == |changes| + 1 && contents[0] == []
    && forall k | 0 <= k < |changes| :: Changes(contents[k], changes[k], contents[k + 1])
  }

  function Added(changes: seq<Change>): seq<Packet> {
    if changes == [] then []
    else
      var init, c := changes[..|changes| - 1], changes[|changes| - 1];
      if c.Add? then Added(init) + c.ps else Added(init)
  }

  /** What the CP has read, NOPs that fill the end of the buffer included. */
  function Consumed(contents: seq<seq<Word>>, changes: seq<Change>): seq<Packet>
    requires |contents| == |changes| + 1
  {
    if changes == [] then []
    else
      var n := |changes| - 1;
      var before := Consumed(contents[..n + 1], changes[..n]);
      if changes[n].Consume? && Parse(contents[n]).Some? && changes[n].n <= |Parse(contents[n]).value|
      then before + Parse(contents[n]).value[..changes[n].n]
      else before
  }

  /** One more submission. */
  lemma AddStaysReadable(before: seq<Word>, after: seq<Word>, ps: seq<Packet>, read: seq<Packet>, added: seq<Packet>, st: State)
    requires Changes(before, Add(ps), after) && Parse(before).Some?
    requires Run(Run(st, read), Parse(before).value) == Run(st, added)
    ensures Parse(after).Some? && Run(Run(st, read), Parse(after).value) == Run(st, added + ps)
  {
    hide Run, Parse, Adds, AllFramed;
    AddingStaysReadable(before, after, ps, Run(st, read));
    RunConcat(st, added, ps);
  }

  /** Some more whole packets read. */
  lemma ConsumeStaysReadable(before: seq<Word>, after: seq<Word>, k: nat, read: seq<Packet>, st: State)
    requires Changes(before, Consume(k), after)
    ensures Parse(after).Some?
    ensures var held := Parse(before).value;
      Run(Run(st, read + held[..k]), Parse(after).value) == Run(Run(st, read), held)
  {
    hide Run, Parse, Flatten;
    var held := Parse(before).value;
    FlattenParse(before);
    ParseFlatten(held[k..]);
    assert held == held[..k] + held[k..];
    RunConcat(Run(st, read), held[..k], held[k..]);
    RunConcat(st, read, held[..k]);
  }

  lemma NothingHeld(st: State)
    ensures Parse([]) == Some([]) && Run(st, []) == st
  {}

  /**
   However submissions and the CP alternate, a ring that started empty always
   holds whole packets, and what the CP has read followed by what it has still to
   read means what the submissions mean one after the other.
   */
  lemma {:induction false} RingStaysReadable(contents: seq<seq<Word>>, changes: seq<Change>, st: State)
    requires History(contents, changes)
    ensures var last := contents[|changes|];
      && Parse(last).Some?
      && Run(Run(st, Consumed(contents, changes)), Parse(last).value) == Run(st, Added(changes))
    decreases |changes|
  {
    hide Run, Parse, Flatten, Adds, AllFramed;
    if changes == [] {
      NothingHeld(st);
    } else {
      var n := |changes| - 1;
      RingStaysReadable(contents[..n + 1], changes[..n], st);
      assert Changes(contents[n], changes[n], contents[n + 1]);
      var read := Consumed(contents[..n + 1], changes[..n]);
      match changes[n]
      case Add(ps) => AddStaysReadable(contents[n], contents[n + 1], ps, read, Added(changes[..n]), st);
      case Consume(k) => ConsumeStaysReadable(contents[n], contents[n + 1], k, read, st);
    }
  }

  /** The read pointer after k more dwords. */
  function Advanced(rptr: nat, k: nat): nat {
    (rptr + k) % RB_DWORDS
  }

  lemma DroppingFromLive(b: seq<Word>, rptr: nat, cursor: nat, k: nat)
    requires |b| == RB_DWORDS && rptr < RB_DWORDS && cursor < RB_DWORDS && k <= |Live(b, rptr, cursor)|
    ensures Advanced(rptr, k) <= |b| && Live(b, Advanced(rptr, k), cursor) == Live(b, rptr, cursor)[k..]
  {
    if rptr <= cursor || rptr + k < RB_DWORDS {
      assert Advanced(rptr, k) == rptr + k;
    } else {
      assert Advanced(rptr, k) == rptr + k - RB_DWORDS;
    }
  }

  /** Reading whole packets is moving the read pointer by their size: the buffer itself stays as it is. */
  lemma ReadingMovesRptr(b: seq<Word>, rptr: nat, cursor: nat, n: nat)
    requires |b| == RB_DWORDS && rptr < RB_DWORDS && cursor < RB_DWORDS
    requires Parse(Live(b, rptr, cursor)).Some? && n <= |Parse(Live(b, rptr, cursor)).value|
    ensures var ps := Parse(Live(b, rptr, cursor)).value;
      var to := Advanced(rptr, Size(ps[..n]));
      to < RB_DWORDS && Changes(Live(b, rptr, cursor), Consume(n), Live(b, to, cursor))
  {
    hide Parse, Flatten, Live;
    var live := Live(b, rptr, cursor);
    var ps := Parse(live).value;
    FlattenParse(live);
    assert ps == ps[..n] + ps[n..];
    FlattenConcat(ps[..n], ps[n..]);
    DroppingFromLive(b, rptr, cursor, Size(ps[..n]));
  }
}
