/** Loading the GPMU microcode: the checks on the file and the command stream that copies it to the instruction RAM. */
module GpmuLoader {
  import opened Pm4
  import opened CommandProcessor
  import opened StreamBounds
  import opened StreamMeaning
  import opened A5xxStream
  import opened A5xxMeaning
  import opened CommandBuffer
  import opened SequenceFile

  const INST_RAM_BASE := 0x8800
  const INST_RAM_SIZE := 0xFFF

  /** TYPE4_MAX_PAYLOAD. */
  const MAX_PAYLOAD := 127

  // ---------------------------------------------------------- the stream

  function DataWords(vs: seq<nat>): seq<Word> {
    seq(|vs|, i requires 0 <= i < |vs| => Data(vs[i]))
  }

  /** One packet that writes ucode[from..to] to where it belongs. */
  function Chunk(ucode: seq<nat>, from: nat, to: nat): Packet
    requires from <= to <= |ucode|
  {
    Packet(Type4(INST_RAM_BASE + from, to - from), DataWords(ucode[from..to]))
  }

  /** Where the packet begins that ends at word n: packets are full but for the last. */
  function ChunkStart(n: nat, max: nat): (from: nat)
    requires n > 0 && max > 0
    ensures from < n && n - from <= max
  {
    if n % max == 0 then LastWhole(n, max); n - max else n - n % max
  }

  lemma LastWhole(n: nat, max: nat)
    requires n > 0 && max > 0 && n % max == 0
    ensures n >= max
  {}

  /** The first n words of the microcode in packets of at most `max` words. */
  function Chunks(ucode: seq<nat>, n: nat, max: nat, ps: seq<Packet>): seq<Packet>
    requires max > 0 && n <= |ucode|
  {
    if n == 0 then ps
    else Chunks(ucode, ChunkStart(n, max), max, ps) + [Chunk(ucode, ChunkStart(n, max), n)]
  }

  lemma WholeAndRest(n: nat, max: nat)
    requires max > 0
    ensures n == n / max * max + n % max
  {}

  /** Packets begin at multiples of `max`. */
  lemma ChunkStarts(n: nat, max: nat)
    requires n > 0 && max > 0
    ensures var from := ChunkStart(n, max);
      from % max == 0 && from / max == n / max - (if n % max == 0 then 1 else 0)
  {
    var from, q, r := ChunkStart(n, max), n / max, n % max;
    WholeAndRest(n, max);
    if r == 0 {
      assert q >= 1;
      assert (q - 1) * max == q * max - max;
      DivIs(from, max, q - 1, 0);
    } else {
      DivIs(from, max, q, 0);
    }
  }

  /** What one round of the loop adds. */
  lemma OneMoreChunk(ucode: seq<nat>, from: nat, to: nat, max: nat, ps: seq<Packet>)
    requires max > 0 && from < to <= |ucode| && to - from <= max && from % max == 0
    ensures Chunks(ucode, to, max, ps) == Chunks(ucode, from, max, ps) + [Chunk(ucode, from, to)]
    ensures to - from == max ==> to % max == 0
  {
    var q := from / max;
    WholeAndRest(from, max);
    if to - from == max {
      assert (q + 1) * max == q * max + max;
      DivIs(to, max, q + 1, 0);
    } else {
      DivIs(to, max, q, to - from);
    }
  }

  /** The stream of _gpmu_create_load_cmds. */
  function LoadStream(ucode: seq<nat>, max: nat): seq<Packet>
    requires max > 0
  {
    Chunks(ucode, |ucode|, max, [ProtectedMode(0)]) + [ProtectedMode(1)]
  }

  // ---------------------------------------------------------------- size

  lemma SizeOfOneMore(ps: seq<Packet>, p: Packet)
    ensures Size(ps + [p]) == Size(ps) + 1 + |p.payload|
  {
    assert (ps + [p])[..|ps|] == ps;
  }

  lemma {:induction false} ChunksSize(ucode: seq<nat>, n: nat, max: nat, ps: seq<Packet>)
    requires max > 0 && n <= |ucode|
    ensures Size(Chunks(ucode, n, max, ps)) == Size(ps) + n + n / max + (if n % max == 0 then 0 else 1)
  {
    if n == 0 {
      DivIs(0, max, 0, 0);
    } else {
      var from := ChunkStart(n, max);
      ChunkStarts(n, max);
      ChunksSize(ucode, from, max, ps);
      ChunkSize(ucode, from, n);
      SizeOfOneMore(Chunks(ucode, from, max, ps), Chunk(ucode, from, n));
    }
  }

  /** For any microcode and any packet limit the stream fits the buffer that is allocated for it. */
  lemma LoadStreamSize(ucode: seq<nat>, max: nat)
    requires max > 0
    ensures Size(LoadStream(ucode, max)) == |ucode| + |ucode| / max + (if |ucode| % max == 0 then 0 else 1) + 4
    ensures Size(LoadStream(ucode, max)) <= |ucode| + (|ucode| / max + 1) + 4
  {
    var ps := [ProtectedMode(0)];
    FlattenOne(ProtectedMode(0));
    ChunksSize(ucode, |ucode|, max, ps);
    SizeOfOneMore(Chunks(ucode, |ucode|, max, ps), ProtectedMode(1));
  }

  lemma ChunkIsSound(ucode: seq<nat>, from: nat, to: nat)
    requires from <= to <= |ucode| <= INST_RAM_SIZE && to - from < 0x80
    requires forall k | 0 <= k < |ucode| :: ucode[k] < 0x1_0000_0000
    ensures Sound(Chunk(ucode, from, to))
  {}

  lemma {:induction false} ChunksAreSound(ucode: seq<nat>, n: nat, max: nat, ps: seq<Packet>)
    requires n <= |ucode| <= INST_RAM_SIZE && 0 < max < 0x80 && AllSound(ps)
    requires forall k | 0 <= k < |ucode| :: ucode[k] < 0x1_0000_0000
    ensures AllSound(Chunks(ucode, n, max, ps))
  {
    hide Sound;
    if n > 0 {
      ChunksAreSound(ucode, ChunkStart(n, max), max, ps);
      ChunkIsSound(ucode, ChunkStart(n, max), n);
    }
  }

  /** Microcode that fits the RAM is sent in packets that the CP cuts where the driver did. */
  lemma LoadStreamIsSound(ucode: seq<nat>)
    requires |ucode| <= INST_RAM_SIZE
    requires forall k | 0 <= k < |ucode| :: ucode[k] < 0x1_0000_0000
    ensures AllSound(LoadStream(ucode, MAX_PAYLOAD))
  {
    ChunksAreSound(ucode, |ucode|, MAX_PAYLOAD, [ProtectedMode(0)]);
  }

  // ------------------------------------------------------------- meaning

  /** The register writes of a list of events, one by one. */
  function Image(es: seq<Event>): seq<(nat, nat)> {
    if es == [] then []
    else
      var e := es[|es| - 1];
      Image(es[..|es| - 1])
        + if e.WriteRegisters? then seq(|e.values|, i requires 0 <= i < |e.values| => (e.reg + i, e.values[i])) else []
  }

  function Copied(ucode: seq<nat>, n: nat): seq<(nat, nat)>
    requires n <= |ucode|
  {
    seq(n, i requires 0 <= i < n => (INST_RAM_BASE + i, ucode[i]))
  }

  predicate OnlyWrites(es: seq<Event>) {
    forall e | e in es :: e.WriteRegisters?
  }

  /** Up to word n the microcode has been written, with protection off, and nothing else has happened. */
  ghost predicate CopiedSoFar(st: State, now: State, ucode: seq<nat>, n: nat) {
    && n <= |ucode| && st.events <= now.events
    && now == st.(events := now.events, guarded := false)
    && var new_ := now.events[|st.events|..];
      OnlyWrites(new_) && Image(new_) == Copied(ucode, n)
  }

  lemma ChunkMeaning(st: State, now: State, ucode: seq<nat>, from: nat, to: nat)
    requires CopiedSoFar(st, now, ucode, from) && from < to <= |ucode|
    ensures CopiedSoFar(st, Exec(now, Chunk(ucode, from, to)), ucode, to)
  {
    var p := Chunk(ucode, from, to);
    var v := Values(p.payload);
    assert v == ucode[from..to];
    var e := WriteRegisters(INST_RAM_BASE + from, v);
    assert Exec(now, p) == Note(now, e);
    var old_, new_ := now.events[|st.events|..], Note(now, e).events[|st.events|..];
    assert new_ == old_ + [e];
    assert new_[..|new_| - 1] == old_;
    assert Copied(ucode, to) == Copied(ucode, from)
        + seq(|v|, i requires 0 <= i < |v| => (e.reg + i, v[i]));
  }

  lemma {:induction false} ChunksMeaning(ucode: seq<nat>, n: nat, max: nat, ps: seq<Packet>, st: State)
    requires max > 0 && n <= |ucode| && Run(st, ps) == st.(guarded := false)
    ensures CopiedSoFar(st, Run(st, Chunks(ucode, n, max, ps)), ucode, n)
  {
    if n == 0 {
      assert st.events[|st.events|..] == [];
    } else {
      hide Run, Exec, CopiedSoFar, Chunk, ChunkStart;
      var from := ChunkStart(n, max);
      ChunksMeaning(ucode, from, max, ps, st);
      var before := Chunks(ucode, from, max, ps);
      RunSnoc(st, before, Chunk(ucode, from, n));
      ChunkMeaning(st, Run(st, before), ucode, from, n);
    }
  }

  /**
   Loading by chunks is one copy: word i of the microcode goes to register
   INST_RAM_BASE + i, every word once and in order, nothing else is written,
   and protection is on again at the end.
   */
  lemma LoadingCopies(ucode: seq<nat>, max: nat, st: State)
    requires max > 0
    ensures var now := Run(st, LoadStream(ucode, max));
      && st.events <= now.events
      && now == st.(events := now.events, guarded := true)
      && OnlyWrites(now.events[|st.events|..])
      && Image(now.events[|st.events|..]) == Copied(ucode, |ucode|)
  {
    assert Run(st, []) == st && [] + [ProtectedMode(0)] == [ProtectedMode(0)];
    hide Run, Exec, Chunks, Image, Copied, OnlyWrites;
    RunProtectedMode(st, [], 0);
    ChunksMeaning(ucode, |ucode|, max, [ProtectedMode(0)], st);
    RunProtectedMode(st, Chunks(ucode, |ucode|, max, [ProtectedMode(0)]), 1);
  }

  // ------------------------------------------------------------- loading

  datatype Status = Zero | Invalid | NoMemory | NotFetched

  /** The length of the block is in the file, with room for the type and the header length. */
  predicate SizeOk(data: seq<nat>) {
    data != [] && 2 <= data[0] < |data|
  }

  predicate IdOk(data: seq<nat>) {
    SizeOk(data) && data[1] == GPMU_FIRMWARE_ID
  }

  predicate GpmuHeaderOk(data: seq<nat>, major: nat)
    requires SizeOk(data)
  {
    HeaderOk(data[2..], data[0] - 2, GPMU_FIRMWARE_ID, major)
  }

  /** The microcode: what follows the header in the block. */
  function Ucode(data: seq<nat>, major: nat): seq<nat>
    requires SizeOk(data) && GpmuHeaderOk(data, major)
  {
    data[data[2] + 3..data[0] + 1]
  }

  /** The microcode starts right behind the header and ends where its block ends. */
  lemma UcodeFollowsItsHeader(data: seq<nat>, major: nat)
    requires SizeOk(data) && GpmuHeaderOk(data, major)
    ensures data[2] + 2 <= data[0] < |data|
    ensures |Ucode(data, major)| == data[0] - data[2] - 2
    ensures forall k | 0 <= k < |Ucode(data, major)| :: Ucode(data, major)[k] == data[data[2] + 3 + k]
  {
    assert data[2..][0] == data[2];
  }

  /** Which files are taken for GPMU firmware, and which of those have a header that can be used, in numbers. */
  lemma FilesAreJudged(data: seq<nat>, major: nat)
    ensures IdOk(data) <==> |data| >= 1 && 2 <= data[0] <= |data| - 1 && data[1] == 2
    ensures IdOk(data) ==>
      (GpmuHeaderOk(data, major) <==>
        && data[2] in {2, 4, 6, 8, 10} && data[2] + 2 < data[0]
        && forall k | 1 <= k < data[2] && k % 2 == 1 :: !(data[2 + k] == 1 && 0 < data[3 + k] < major))
  {
    if IdOk(data) {
      var header := data[2..];
      AcceptedHeaders(header, data[0] - 2, 2, major);
      hide HeaderOk;
      assert header[0] == data[2];
      if data[2] + 2 < data[0] {
        forall k | 1 <= k < data[2] && k % 2 == 1
          ensures TooOld(header, k, major) <==> data[2 + k] == 1 && 0 < data[3 + k] < major
        {
          assert header[k] == data[2 + k] && header[k + 1] == data[3 + k];
        }
      }
    }
  }

  /** The register writes that the block of a file asks for. */
  function FileImage(data: seq<nat>): seq<(nat, nat)>
    requires SizeOk(data) && |data| > 2 && data[2] + 2 <= data[0]
  {
    seq(data[0] - data[2] - 2, k requires 0 <= k < data[0] - data[2] - 2 => (INST_RAM_BASE + k, data[data[2] + 3 + k]))
  }

  lemma CopiedIsTheFile(data: seq<nat>, major: nat)
    requires SizeOk(data) && GpmuHeaderOk(data, major)
    ensures data[2] + 2 <= data[0] && Copied(Ucode(data, major), |Ucode(data, major)|) == FileImage(data)
  {
    UcodeFollowsItsHeader(data, major);
    hide GpmuHeaderOk, Ucode;
  }

  /**
   From the file to the RAM: executing the stream that is made of a file writes
   its word data[2] + 3 + k to register INST_RAM_BASE + k, for all k up to the
   end of the block, once, in order and nothing else.
   */
  lemma FileWordsAreLoaded(data: seq<nat>, major: nat, st: State)
    requires SizeOk(data) && GpmuHeaderOk(data, major)
    ensures data[2] + 2 <= data[0] < |data|
    ensures var now := Run(st, LoadStream(Ucode(data, major), MAX_PAYLOAD));
      && st.events <= now.events
      && now == st.(events := now.events, guarded := true)
      && OnlyWrites(now.events[|st.events|..])
      && Image(now.events[|st.events|..]) == FileImage(data)
  {
    hide Run, LoadStream, Image, OnlyWrites, GpmuHeaderOk, Ucode, Copied, FileImage;
    CopiedIsTheFile(data, major);
    LoadingCopies(Ucode(data, major), MAX_PAYLOAD, st);
  }

  class Gpmu {
    var cmds: array?<Word>
    var cmdsSize: nat

    ghost predicate Valid()
      reads this, cmds
    {
      if cmds == null then cmdsSize == 0 else 0 < cmdsSize <= cmds.Length
    }

    constructor ()
      ensures Valid() && cmds == null
    {
      cmds, cmdsSize := null, 0;
    }

    /** _gpmu_create_load_cmds. */
    method CreateLoadCmds(ucode: seq<nat>, memory: bool) returns (ret: Status)
      requires Valid()
      modifies this
      ensures Valid()
      ensures ret == if old(cmds) == null && !memory then NoMemory else Zero
      ensures old(cmds) != null || !memory ==> unchanged(this)
      ensures old(cmds) == null && memory ==>
        && cmds != null && fresh(cmds)
        && cmds[..cmdsSize] == Flatten(LoadStream(ucode, MAX_PAYLOAD))
        && cmds.Length == |ucode| + |ucode| / MAX_PAYLOAD + 1 + 4
    {
      if cmds != null {
        return Zero;
      }
      if !memory {
        return NoMemory;
      }
      var size := |ucode|;
      var cmdsLength := size + size / MAX_PAYLOAD + 1 + 4;
      var buffer := new Word[cmdsLength](_ => Data(0));
      var index := FillLoadCmds(ucode, buffer);
      cmds := buffer;
      cmdsSize := index;
      return Zero;
    }

    /** _load_gpmu_firmware; `fetched` says whether request_firmware succeeded. */
    method LoadGpmuFirmware(hasGpmu: bool, named: bool, fetched: bool, data: seq<nat>, major: nat, memory: bool)
      returns (ret: Status)
      requires Valid() && (fetched ==> data != [])
      modifies this
      ensures Valid()
      ensures !hasGpmu || old(cmds) != null || !named ==> ret.Zero? && unchanged(this)
      ensures hasGpmu && old(cmds) == null && named ==>
        && (ret.NotFetched? <==> !fetched)
        && (ret.Invalid? <==> fetched && IdOk(data) && !GpmuHeaderOk(data, major))
        && (cmds != null <==>
              fetched && IdOk(data) && GpmuHeaderOk(data, major) && |Ucode(data, major)| <= INST_RAM_SIZE && memory)
        && (cmds != null ==> cmds[..cmdsSize] == Flatten(LoadStream(Ucode(data, major), MAX_PAYLOAD)))
        && (ret.Zero? && cmds == null <==>
              fetched && (!IdOk(data) || (GpmuHeaderOk(data, major) && |Ucode(data, major)| > INST_RAM_SIZE)))
    {
      if !hasGpmu || cmdsSize != 0 || !named {
        return Zero;
      }
      if !fetched {
        return NotFetched;
      }
      if data[0] >= |data| || data[0] < 2 {
        return Zero;
      }
      if data[1] != GPMU_FIRMWARE_ID {
        return Zero;
      }
      var ok := ReadBlockHeader(data[2..], data[0] - 2, GPMU_FIRMWARE_ID, major);
      if !ok {
        return Invalid;
      }
      var from, size := data[2] + 3, data[0] - data[2] - 2;
      assert data[2..][0] == data[2];
      if size > INST_RAM_SIZE {
        return Zero;
      }
      assert data[from..from + size] == Ucode(data, major);
      ret := CreateLoadCmds(data[from..from + size], memory);
    }
  }

  /** One round of the loop. */
  method FillChunk(ucode: seq<nat>, offset: nat, tmpSize: nat, cmds: array<Word>, index: nat,
                   ghost was: seq<Word>, ghost ps: seq<Packet>, ghost k: nat) returns (next: nat)
    requires 0 < tmpSize <= MAX_PAYLOAD && offset + tmpSize <= |ucode| && offset == MAX_PAYLOAD * k
    requires Wrote(was, cmds[..], 0, Chunks(ucode, offset, MAX_PAYLOAD, ps), index)
    requires index + 1 + tmpSize <= cmds.Length
    modifies cmds
    ensures Wrote(was, cmds[..], 0, Chunks(ucode, offset + tmpSize, MAX_PAYLOAD, ps), next)
    ensures next == index + 1 + tmpSize
  {
    DivIs(offset, MAX_PAYLOAD, k, 0);
    hide Wrote, Flatten, Chunk, Chunks;
    ChunkSize(ucode, offset, offset + tmpSize);
    next := Emit(cmds, 0, index, Chunk(ucode, offset, offset + tmpSize), was, Chunks(ucode, offset, MAX_PAYLOAD, ps));
    OneMoreChunk(ucode, offset, offset + tmpSize, MAX_PAYLOAD, ps);
  }

  /** The commands of _gpmu_create_load_cmds. */
  method FillLoadCmds(ucode: seq<nat>, cmds: array<Word>) returns (index: nat)
    requires cmds.Length == |ucode| + |ucode| / MAX_PAYLOAD + 1 + 4
    modifies cmds
    ensures 0 < index <= cmds.Length
    ensures cmds[..index] == Flatten(LoadStream(ucode, MAX_PAYLOAD))
  {
    ghost var was := cmds[..];
    WroteNothing(was, 0);
    hide Wrote;
    index := Emit(cmds, 0, 0, ProtectedMode(0), was, []);
    ghost var ps := [ProtectedMode(0)];
    assert [] + ps == ps;
    ChunksOfNothing(ucode, MAX_PAYLOAD, ps);
    hide Chunk, Chunks, Flatten;
    index := FillChunks(ucode, cmds, index, was, ps);
    index := Emit(cmds, 0, index, ProtectedMode(1), was, Chunks(ucode, |ucode|, MAX_PAYLOAD, ps));
    WroteAll(was, cmds[..], LoadStream(ucode, MAX_PAYLOAD), index);
  }

  /** The loop that cuts the microcode into packets. */
  method FillChunks(ucode: seq<nat>, cmds: array<Word>, start: nat, ghost was: seq<Word>, ghost ps: seq<Packet>)
    returns (index: nat)
    requires cmds.Length == |ucode| + |ucode| / MAX_PAYLOAD + 1 + 4 && start == 2
    requires Wrote(was, cmds[..], 0, Chunks(ucode, 0, MAX_PAYLOAD, ps), start)
    modifies cmds
    ensures Wrote(was, cmds[..], 0, Chunks(ucode, |ucode|, MAX_PAYLOAD, ps), index)
    ensures 2 <= index <= cmds.Length - 2
  {
    hide Wrote, Chunk, Chunks, Flatten;
    var offset, size := 0, |ucode|;
    ghost var k := 0;
    index := start;
    while size > 0
      invariant 0 <= offset && 0 <= size && offset + size == |ucode|
      invariant size == 0 || offset == MAX_PAYLOAD * k
      invariant Wrote(was, cmds[..], 0, Chunks(ucode, offset, MAX_PAYLOAD, ps), index)
      invariant index == 2 + offset + k && MAX_PAYLOAD * k <= offset + MAX_PAYLOAD - 1
    {
      var tmpSize := size;
      if size >= MAX_PAYLOAD {
        tmpSize := MAX_PAYLOAD;
      }
      PacketsFit(|ucode|, k + 1);
      index := FillChunk(ucode, offset, tmpSize, cmds, index, was, ps, k);
      offset := offset + tmpSize;
      size := size - tmpSize;
      k := k + 1;
    }
    PacketsFit(|ucode|, k);
  }

  lemma ChunksOfNothing(ucode: seq<nat>, max: nat, ps: seq<Packet>)
    requires max > 0
    ensures Chunks(ucode, 0, max, ps) == ps
  {}

  lemma PacketsFit(n: nat, k: nat)
    requires MAX_PAYLOAD * k <= n + MAX_PAYLOAD - 1
    ensures k <= n / MAX_PAYLOAD + 1
  {}

  lemma ChunkSize(ucode: seq<nat>, from: nat, to: nat)
    requires from <= to <= |ucode|
    ensures |Chunk(ucode, from, to).payload| == to - from
  {}
}
