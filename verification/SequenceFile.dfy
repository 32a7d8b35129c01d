/** The register sequence file: block headers, the walk over its blocks, and the slice it leaves for the LM code. */
module SequenceFile {
  import opened Wrappers
  import opened RegSequence

  const GPMU_SEQUENCE_ID := 3
  const GPMU_FIRMWARE_ID := 2
  const HEADER_MAJOR := 1
  const HEADER_MINOR := 2
  const HEADER_SEQUENCE := 5
  const MAX_HEADER_SIZE := 10
  const LM_SEQUENCE_ID := 1
  const MAX_SEQUENCE_ID := 3

  // ------------------------------------------------------------ headers

  /** Where the fields of a header begin: a sequence has its own first field. */
  function FieldsFrom(id: nat): nat {
    if id == GPMU_SEQUENCE_ID then 3 else 1
  }

  /** Every major version field from word i on is 0 or at least `major`. */
  predicate MajorsOk(header: seq<nat>, i: nat, major: nat)
    requires header != []
  {
    forall k | i <= k < header[0] && k + 1 < |header| && k % 2 == 1 ::
      header[k] == HEADER_MAJOR ==> header[k + 1] == 0 || major <= header[k + 1]
  }

  /** A header that fits into the `remain` words of its block and is of the right kind. */
  predicate HeaderOk(header: seq<nat>, remain: nat, id: nat, major: nat)
    requires header != [] && remain <= |header|
  {
    && 0 < header[0] <= MAX_HEADER_SIZE && header[0] < remain && header[0] % 2 == 0
    && (id == GPMU_SEQUENCE_ID ==> header[1] == HEADER_SEQUENCE && header[2] < MAX_SEQUENCE_ID)
    && MajorsOk(header, FieldsFrom(id), major)
  }

  /** _read_fw2_block_header, which may look at the `remain` words of the block (and always at the first). */
  method ReadBlockHeader(header: seq<nat>, remain: nat, id: nat, major: nat) returns (ok: bool)
    requires header != [] && remain <= |header|
    ensures ok <==> HeaderOk(header, remain, id, major)
  {
    var headerSize := header[0];
    if headerSize > MAX_HEADER_SIZE || headerSize >= remain || headerSize % 2 != 0 || headerSize == 0 {
      return false;
    }
    var i := 1;
    if id == GPMU_SEQUENCE_ID {
      if header[i] != HEADER_SEQUENCE || header[i + 1] >= MAX_SEQUENCE_ID {
        return false;
      }
      i := i + 2;
    }
    while i < headerSize
      invariant FieldsFrom(id) <= i <= headerSize + 1 && i % 2 == 1
      invariant forall k | FieldsFrom(id) <= k < i && k % 2 == 1 ::
        header[k] == HEADER_MAJOR ==> header[k + 1] == 0 || major <= header[k + 1]
    {
      if header[i] == HEADER_MAJOR {
        if major > header[i + 1] && header[i + 1] != 0 {
          return false;
        }
      }
      i := i + 2;
    }
    return true;
  }

  /** A field of the header that names a version older than the one that is asked for; 0 stands for any version. */
  predicate TooOld(header: seq<nat>, k: nat, major: nat)
    requires k + 1 < |header|
  {
    header[k] == 1 && 0 < header[k + 1] < major
  }

  /**
   Which headers are accepted, in numbers: an even length of at most ten words
   that ends before the block does, for a sequence the two words that say so,
   and no version that is too old. Nothing else is a reason to refuse one.
   */
  lemma AcceptedHeaders(header: seq<nat>, remain: nat, id: nat, major: nat)
    requires header != [] && remain <= |header|
    ensures HeaderOk(header, remain, id, major) <==>
      && header[0] in {2, 4, 6, 8, 10} && header[0] < remain
      && (id == 3 ==> header[1] == 5 && header[2] <= 2)
      && forall k | (if id == 3 then 3 else 1) <= k < header[0] && k % 2 == 1 :: !TooOld(header, k, major)
  {
    if HeaderOk(header, remain, id, major) {
      forall k | (if id == 3 then 3 else 1) <= k < header[0] && k % 2 == 1 ensures !TooOld(header, k, major) {
        assert header[k] == HEADER_MAJOR ==> header[k + 1] == 0 || major <= header[k + 1];
      }
    } else if header[0] in {2, 4, 6, 8, 10} && header[0] < remain && (id == 3 ==> header[1] == 5 && header[2] <= 2) {
      var k :| FieldsFrom(id) <= k < header[0] && k + 1 < |header| && k % 2 == 1
        && header[k] == HEADER_MAJOR && header[k + 1] != 0 && header[k + 1] < major;
      assert TooOld(header, k, major);
    }
  }

  // ------------------------------------------------------------- blocks

  /** A block: its length without the length word, its type, and for an LM sequence a valid header. */
  predicate BlockOk(b: seq<nat>, major: nat) {
    && |b| >= 6 && b[0] + 1 == |b| && b[1] == GPMU_SEQUENCE_ID
    && (b[4] == LM_SEQUENCE_ID ==> HeaderOk(b[2..], b[0] - 2, GPMU_SEQUENCE_ID, major))
  }

  function Concat(blocks: seq<seq<nat>>): seq<nat> {
    if blocks == [] then [] else blocks[0] + Concat(blocks[1..])
  }

  /** The block that starts at word `at`. */
  predicate StartsBlock(fw: seq<nat>, at: nat, major: nat) {
    && at < |fw| && at + fw[at] < |fw|
    && BlockOk(fw[at..at + fw[at] + 1], major)
  }

  /** The blocks from word `at` on, and whether they reach the end of the file. */
  function Walk(fw: seq<nat>, at: nat, major: nat): (seq<seq<nat>>, bool)
    requires at <= |fw|
    decreases |fw| - at
  {
    if at == |fw| then ([], true)
    else if !StartsBlock(fw, at, major) then ([], false)
    else
      var next := at + fw[at] + 1;
      var (blocks, ok) := Walk(fw, next, major);
      ([fw[at..next]] + blocks, ok)
  }

  /** The blocks the walk accepts lie side by side from `at` on; if it succeeds they are the rest of the file. */
  lemma {:induction false} BlocksTile(fw: seq<nat>, at: nat, major: nat)
    requires at <= |fw|
    ensures var (blocks, ok) := Walk(fw, at, major);
      && (forall k | 0 <= k < |blocks| :: BlockOk(blocks[k], major))
      && at + |Concat(blocks)| <= |fw|
      && Concat(blocks) == fw[at..at + |Concat(blocks)|]
      && (ok <==> at + |Concat(blocks)| == |fw|)
      && (!ok ==> !StartsBlock(fw, at + |Concat(blocks)|, major))
    decreases |fw| - at
  {
    if at < |fw| && StartsBlock(fw, at, major) {
      var next := at + fw[at] + 1;
      BlocksTile(fw, next, major);
      var rest := Walk(fw, next, major).0;
      assert ([fw[at..next]] + rest)[1..] == rest;
      assert fw[at..next] + fw[next..next + |Concat(rest)|] == fw[at..next + |Concat(rest)|];
    }
  }

  /** Conversely any blocks put side by side are found again. */
  lemma {:induction false} ConcatIsWalked(fw: seq<nat>, at: nat, blocks: seq<seq<nat>>, major: nat)
    requires at <= |fw| && fw[at..] == Concat(blocks)
    requires forall k | 0 <= k < |blocks| :: BlockOk(blocks[k], major)
    ensures Walk(fw, at, major) == (blocks, true)
    decreases |blocks|
  {
    if blocks != [] {
      var b, rest := blocks[0], blocks[1..];
      assert BlockOk(b, major);
      assert fw[at] == fw[at..][0] == b[0];
      var next := at + |b|;
      assert fw[at..next] == fw[at..][..|b|] == b;
      assert fw[next..] == fw[at..][|b|..] == Concat(rest);
      ConcatIsWalked(fw, next, rest, major);
      assert [b] + rest == blocks;
    }
  }

  /** A file is accepted exactly if it is a row of valid blocks. */
  lemma AcceptedExactly(fw: seq<nat>, major: nat)
    ensures Walk(fw, 0, major).1 <==>
      exists blocks: seq<seq<nat>> ::
        (forall k | 0 <= k < |blocks| :: BlockOk(blocks[k], major)) && Concat(blocks) == fw
  {
    BlocksTile(fw, 0, major);
    assert fw[0..|fw|] == fw && fw[0..] == fw;
    forall blocks: seq<seq<nat>> | (forall k | 0 <= k < |blocks| :: BlockOk(blocks[k], major)) && Concat(blocks) == fw
      ensures Walk(fw, 0, major).1
    {
      ConcatIsWalked(fw, 0, blocks, major);
    }
  }

  // ------------------------------------------------------ the LM slice

  /** lm_sequence as a position in the file, and lm_size. */
  datatype Slice = Slice(offset: nat, size: nat)

  /** The slice of the LM block that starts at word `at`: what follows its header. */
  function SliceOf(fw: seq<nat>, at: nat): Slice
    requires at + 2 < |fw| && fw[at + 2] + 2 <= fw[at]
  {
    Slice(at + fw[at + 2] + 3, fw[at] - fw[at + 2] - 2)
  }

  /** The start of the last LM block among the accepted blocks. */
  function LastLm(fw: seq<nat>, at: nat, major: nat): (r: Option<nat>)
    requires at <= |fw|
    decreases |fw| - at
    ensures r.Some? ==> at <= r.value && StartsBlock(fw, r.value, major) && fw[r.value + 4] == LM_SEQUENCE_ID
  {
    if at == |fw| || !StartsBlock(fw, at, major) then None
    else
      var later := LastLm(fw, at + fw[at] + 1, major);
      if later.Some? then later
      else if fw[at + 4] == LM_SEQUENCE_ID then Some(at)
      else None
  }

  predicate NoLm(blocks: seq<seq<nat>>) {
    forall k | 0 <= k < |blocks| :: |blocks[k]| >= 6 && blocks[k][4] != LM_SEQUENCE_ID
  }

  lemma NoLmCons(b: seq<nat>, rest: seq<seq<nat>>)
    requires |b| >= 6 && b[4] != LM_SEQUENCE_ID && NoLm(rest)
    ensures NoLm([b] + rest)
  {}

  /** The last LM block is an accepted one, and no accepted block after it is one. */
  lemma {:induction false} LastLmIsLast(fw: seq<nat>, at: nat, major: nat)
    requires at <= |fw|
    ensures match LastLm(fw, at, major)
      case None => NoLm(Walk(fw, at, major).0)
      case Some(lm) =>
        && lm + fw[lm] + 1 <= |fw|
        && fw[lm..lm + fw[lm] + 1] in Walk(fw, at, major).0
        && NoLm(Walk(fw, lm + fw[lm] + 1, major).0)
    decreases |fw| - at
  {
    if at < |fw| && StartsBlock(fw, at, major) {
      var next := at + fw[at] + 1;
      LastLmIsLast(fw, next, major);
      var b, rest := fw[at..next], Walk(fw, next, major).0;
      assert Walk(fw, at, major).0 == [b] + rest && b[4] == fw[at + 4];
      hide Walk, BlockOk;
      if LastLm(fw, next, major).None? && fw[at + 4] != LM_SEQUENCE_ID { NoLmCons(b, rest); }
    }
  }

  /** A slice starts right behind the header of its block, is not empty and ends where the block ends. */
  lemma SliceStaysInItsBlock(fw: seq<nat>, at: nat, major: nat)
    requires StartsBlock(fw, at, major) && fw[at + 4] == LM_SEQUENCE_ID
    ensures fw[at + 2] + 2 <= fw[at]
    ensures var s := SliceOf(fw, at);
      && s.offset == at + 2 + fw[at + 2] + 1
      && s.offset + s.size == at + fw[at] + 1 <= |fw|
      && 0 < s.size
  {
    var b := fw[at..at + fw[at] + 1];
    assert b[2] == fw[at + 2] && b[4] == fw[at + 4];
    assert b[2..][0] == b[2];
  }

  lemma SliceIs(fw: seq<nat>, at: nat, major: nat)
    requires StartsBlock(fw, at, major) && fw[at + 4] == LM_SEQUENCE_ID
    ensures at + 2 < |fw| && fw[at + 2] + 2 <= fw[at]
    ensures SliceOf(fw, at) == Slice(at + fw[at + 2] + 3, fw[at] - fw[at + 2] - 2)
  {
    SliceStaysInItsBlock(fw, at, major);
  }

  /** The checks of the walk, one by one, say whether a block starts here. */
  lemma StartsExactly(fw: seq<nat>, at: nat, major: nat)
    requires at < |fw|
    ensures StartsBlock(fw, at, major) <==>
      && at + fw[at] < |fw| && fw[at] >= 5 && fw[at + 1] == GPMU_SEQUENCE_ID
      && (fw[at + 4] == LM_SEQUENCE_ID ==>
            HeaderOk(fw[at + 2..at + fw[at] + 1], fw[at] - 2, GPMU_SEQUENCE_ID, major))
  {
    if at + fw[at] < |fw| && fw[at] >= 5 {
      var b := fw[at..at + fw[at] + 1];
      assert b[0] == fw[at] && b[1] == fw[at + 1] && b[4] == fw[at + 4];
      assert b[2..] == fw[at + 2..at + fw[at] + 1];
    }
  }

  /** The slice that the blocks of a file leave behind. */
  function SliceLeft(fw: seq<nat>, major: nat, was: Option<Slice>): Option<Slice> {
    match LastLm(fw, 0, major)
    case None => was
    case Some(at) =>
      SliceStaysInItsBlock(fw, at, major);
      Some(SliceOf(fw, at))
  }

  /** The walk has come to word `at`, and `lm` is the slice of the last LM block before it. */
  ghost predicate Scanned(fw: seq<nat>, at: nat, major: nat, was: Option<Slice>, lm: Option<Slice>) {
    && at <= |fw|
    && Walk(fw, 0, major).1 == Walk(fw, at, major).1
    && match LastLm(fw, at, major)
       case Some(later) => LastLm(fw, 0, major) == Some(later)
       case None => lm == SliceLeft(fw, major, was)
  }

  lemma ScanStarts(fw: seq<nat>, major: nat, was: Option<Slice>)
    ensures Scanned(fw, 0, major, was, was)
  {}

  lemma ScanGoesOn(fw: seq<nat>, at: nat, major: nat, was: Option<Slice>, lm: Option<Slice>)
    requires Scanned(fw, at, major, was, lm) && at < |fw| && StartsBlock(fw, at, major)
    ensures fw[at + 4] == LM_SEQUENCE_ID ==> Scanned(fw, at + fw[at] + 1, major, was, Some(SliceOf(fw, at)))
    ensures fw[at + 4] != LM_SEQUENCE_ID ==> Scanned(fw, at + fw[at] + 1, major, was, lm)
  {
    hide HeaderOk;
  }

  lemma ScanEnds(fw: seq<nat>, at: nat, major: nat, was: Option<Slice>, lm: Option<Slice>)
    requires Scanned(fw, at, major, was, lm) && (at == |fw| || !StartsBlock(fw, at, major))
    ensures lm == SliceLeft(fw, major, was) && (Walk(fw, 0, major).1 <==> at == |fw|)
  {
    hide StartsBlock;
  }

  // ----------------------------------------------------------- loading

  /** What _load_regfile checks of a block before it uses it. */
  method CheckBlock(fw: seq<nat>, at: nat, blockSize: nat, major: nat) returns (ok: bool)
    requires at < |fw| && blockSize == fw[at]
    ensures ok <==> StartsBlock(fw, at, major)
    ensures ok ==> at + blockSize < |fw| && blockSize >= 5
  {
    StartsExactly(fw, at, major);
    hide HeaderOk, StartsBlock;
    if at + blockSize >= |fw| || blockSize < 5 || fw[at + 1] != GPMU_SEQUENCE_ID {
      return false;
    }
    if fw[at + 4] == LM_SEQUENCE_ID {
      ok := ReadBlockHeader(fw[at + 2..at + blockSize + 1], blockSize - 2, GPMU_SEQUENCE_ID, major);
      return;
    }
    return true;
  }

  class Limits {
    var lm: Option<Slice>

    constructor ()
      ensures lm == None
    {
      lm := None;
    }

    /**
     _load_regfile after the file has been obtained. A file that turns bad
     half way keeps what the blocks before it have set.
     */
    method LoadRegfile(fw: seq<nat>, major: nat) returns (loaded: bool)
      modifies this
      ensures |fw| < 6 ==> !loaded && lm == old(lm)
      ensures |fw| >= 6 ==>
        && lm == SliceLeft(fw, major, old(lm))
        && (loaded <==> Walk(fw, 0, major).1 && lm.Some?)
    {
      var fwSize := |fw|;
      if fwSize < 6 {
        return false;
      }
      ScanStarts(fw, major, lm);
      hide HeaderOk, StartsBlock, Scanned, Walk, SliceLeft, LastLm, BlockOk, SliceOf;
      var blockTotal := 0;
      while blockTotal < fwSize
        invariant 0 <= blockTotal <= fwSize && Scanned(fw, blockTotal, major, old(lm), lm)
      {
        var blockSize := fw[blockTotal];
        var ok := CheckBlock(fw, blockTotal, blockSize, major);
        if !ok {
          ScanEnds(fw, blockTotal, major, old(lm), lm);
          return false;
        }
        ghost var before := lm;
        if fw[blockTotal + 4] == LM_SEQUENCE_ID {
          SliceIs(fw, blockTotal, major);
          lm := Some(Slice(blockTotal + fw[blockTotal + 2] + 3, blockSize - fw[blockTotal + 2] - 2));
        }
        ScanGoesOn(fw, blockTotal, major, old(lm), before);
        blockTotal := blockTotal + (blockSize + 1);
      }
      ScanEnds(fw, blockTotal, major, old(lm), lm);
      return lm.Some?;
    }

    /** The start of a530_lm_init: run the sequence, and forget it if it is invalid. */
    method LmInit(fw: seq<nat>, hw: Hardware) returns (run: bool)
      requires lm.Some? ==> lm.value.offset + lm.value.size <= |fw|
      modifies this, hw
      ensures old(lm).None? ==> !run && hw.log == old(hw.log) && lm == None
      ensures old(lm).Some? ==>
        var slice := old(lm).value;
        var ops := Decode(fw[slice.offset..slice.offset + slice.size]);
        && hw.log == old(hw.log) + Effects(ops.0)
        && run == ops.1
        && lm == if run then old(lm) else None
    {
      if lm.None? {
        return false;
      }
      run := hw.ExecuteRegSequence(fw[lm.value.offset..lm.value.offset + lm.value.size]);
      if !run {
        lm := None;
      }
    }
  }
}
