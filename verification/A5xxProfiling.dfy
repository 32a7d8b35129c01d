/** User profiling slots, and the lengths of the IBs that reach the CP. */
module A5xxProfiling {
  import opened Pm4
  import opened Submissions
  import opened StreamBounds
  import opened StreamMeaning
  import opened A5xxStream
  import opened Ringbuffers
  import opened A5xxRingbuffer

  // ------------------------------------------------------------ slots

  /** The slot that is used k draws after slot i. */
  function SlotAt(i: nat, k: nat): nat {
    (i + k) % PROFILE_IB_SLOTS
  }

  /** Any PROFILE_IB_SLOTS consecutive slots are distinct, and their dwords do not overlap or leave the page. */
  lemma SlotsDoNotMeet(ring: RingAddresses, i: nat, j: nat, k: nat)
    requires j < k < j + PROFILE_IB_SLOTS
    ensures SlotAt(i, j) != SlotAt(i, k)
    ensures var a, b := ProfileSlot(ring, SlotAt(i, j)), ProfileSlot(ring, SlotAt(i, k));
      && (a.addr + 4 * a.dwords <= b.addr || b.addr + 4 * b.dwords <= a.addr)
      && ring.profile <= a.addr && a.addr + 4 * a.dwords <= ring.profile + 4 * PAGE_DWORDS
  {
    var d := k - j;
    var q1, q2 := (i + j) / PROFILE_IB_SLOTS, (i + k) / PROFILE_IB_SLOTS;
    assert SlotAt(i, j) == SlotAt(i, k) ==> d == PROFILE_IB_SLOTS * (q2 - q1);
  }

  /** The page after several profiling IBs in a row. */
  function PageAfterAll(page: seq<Word>, i: nat, t: Target, addrs: seq<nat>): (r: seq<Word>)
    requires |page| == PAGE_DWORDS
    ensures |r| == PAGE_DWORDS
  {
    if addrs == [] then page
    else
      var n := |addrs| - 1;
      PageAfter(PageAfterAll(page, i, t, addrs[..n]), SlotAt(i, n), t, addrs[n])
  }

  /** What the CP finds in a slot. */
  function SlotOf(page: seq<Word>, i: nat): seq<Word>
    requires |page| == PAGE_DWORDS && i < PROFILE_IB_SLOTS
  {
    page[PROFILE_IB_DWORDS * i..PROFILE_IB_DWORDS * (i + 1)]
  }

  lemma SlotIsWritten(page: seq<Word>, i: nat, t: Target, addr: nat, j: nat)
    requires |page| == PAGE_DWORDS && i < PROFILE_IB_SLOTS && j < PROFILE_IB_SLOTS
    ensures |PageAfter(page, i, t, addr)| == PAGE_DWORDS
    ensures SlotOf(PageAfter(page, i, t, addr), j)
         == if j == i then Words(ReadCounter(t, addr)) else SlotOf(page, j)
  {}

  /** As long as no more than PROFILE_IB_SLOTS have been handed out, each still reads the counter for its own draw. */
  lemma {:induction false} SlotsSurvive(page: seq<Word>, i: nat, t: Target, addrs: seq<nat>, k: nat)
    requires |page| == PAGE_DWORDS && k < |addrs| <= PROFILE_IB_SLOTS
    ensures SlotOf(PageAfterAll(page, i, t, addrs), SlotAt(i, k)) == Words(ReadCounter(t, addrs[k]))
  {
    var n := |addrs| - 1;
    SlotIsWritten(PageAfterAll(page, i, t, addrs[..n]), SlotAt(i, n), t, addrs[n], SlotAt(i, k));
    if k < n {
      SlotsSurvive(page, i, t, addrs[..n], k);
      SlotsDoNotMeet(RingAddresses(0, 0, 0, 0, 0, 0, 0, 0, 0), i, k, n);
    }
  }

  /** The IB that names a slot is the dwords of that slot. */
  lemma SlotIsItsIb(ring: RingAddresses, page: seq<Word>, i: nat)
    requires |page| == PAGE_DWORDS && i < PROFILE_IB_SLOTS
    ensures ProfileSlot(ring, i).addr - ring.profile == 4 * (4 * i) && ProfileSlot(ring, i).dwords == 4
    ensures SlotOf(page, i) == page[4 * i..4 * i + 4]
  {}

  /** A draw that is profiled leaves two slots behind: the first reads the counter for its start, the second for its end. */
  lemma DrawFillsTwoSlots(page: seq<Word>, i: nat, t: Target, obj: DrawObj)
    requires |page| == PAGE_DWORDS && i < PROFILE_IB_SLOTS
    ensures |PagesAfter(page, i, t, obj)| == PAGE_DWORDS
    ensures var after, last := PagesAfter(page, i, t, obj), if i == 255 then 0 else i + 1;
      && SlotOf(after, i) == Words(ReadCounter(t, obj.userSubmitted))
      && SlotOf(after, last) == Words(ReadCounter(t, obj.userRetired))
      && forall j: nat | j < PROFILE_IB_SLOTS && j != i && j != last :: SlotOf(after, j) == SlotOf(page, j)
  {
    hide PageAfter, SlotOf, Words, ReadCounter;
    var after, last := PageAfter(page, i, t, obj.userSubmitted), NextSlot(i);
    SlotIsWritten(page, i, t, obj.userSubmitted, i);
    SlotIsWritten(after, last, t, obj.userRetired, i);
    forall j: nat | j < PROFILE_IB_SLOTS
      ensures |after| == PAGE_DWORDS && |PageAfter(after, last, t, obj.userRetired)| == PAGE_DWORDS
      ensures SlotOf(PageAfter(after, last, t, obj.userRetired), j)
           == if j == last then Words(ReadCounter(t, obj.userRetired))
              else if j == i then Words(ReadCounter(t, obj.userSubmitted)) else SlotOf(page, j)
    {
      SlotIsWritten(page, i, t, obj.userSubmitted, j);
      SlotIsWritten(after, last, t, obj.userRetired, j);
    }
  }

  // ------------------------------------------------------- verified IBs

  /** One entry of the array that adreno_verify_cmdobj checks. */
  datatype CmdObj = CmdObj(isCmd: bool, ibs: seq<Ib>, profiling: bool)

  datatype Verdict = Accepted | Invalid | Unsupported

  /** _verify_ib; `inRange` stands for the address ranges of the process. */
  predicate VerifyIb(inRange: (nat, nat) -> bool, ib: Ib) {
    ib.size != 0 && ib.size / 4 <= 0xF_FFFF && inRange(ib.gpuaddr, ib.size) && ib.gpuaddr % 4 == 0
  }

  /** The limits and the alignment that an IB has to meet, in bytes. */
  lemma VerifiedExactly(inRange: (nat, nat) -> bool, ib: Ib)
    ensures VerifyIb(inRange, ib)
       <==> 1 <= ib.size <= 0x3F_FFFF && (exists w: nat :: ib.gpuaddr == 4 * w) && inRange(ib.gpuaddr, ib.size)
  {
    assert ib.gpuaddr % 4 == 0 ==> ib.gpuaddr == 4 * (ib.gpuaddr / 4);
  }

  predicate AllVerified(inRange: (nat, nat) -> bool, ibs: seq<Ib>) {
    forall k | 0 <= k < |ibs| :: VerifyIb(inRange, ibs[k])
  }

  predicate BadIbs(inRange: (nat, nat) -> bool, obj: CmdObj) {
    obj.isCmd && !AllVerified(inRange, obj.ibs)
  }

  predicate Refused(inRange: (nat, nat) -> bool, a3xx: bool, obj: CmdObj) {
    BadIbs(inRange, obj) || (a3xx && obj.profiling)
  }

  /** Object i is the first that is refused. */
  predicate FirstRefused(inRange: (nat, nat) -> bool, a3xx: bool, objs: seq<CmdObj>, i: nat)
    requires i < |objs|
  {
    Refused(inRange, a3xx, objs[i]) && forall k | 0 <= k < i :: !Refused(inRange, a3xx, objs[k])
  }

  /** adreno_verify_cmdobj: the first object that is refused decides, and in it the IBs before the profiling. */
  method VerifyCmdobj(inRange: (nat, nat) -> bool, a3xx: bool, objs: seq<CmdObj>) returns (v: Verdict)
    ensures v.Accepted? <==> forall i | 0 <= i < |objs| :: !Refused(inRange, a3xx, objs[i])
    ensures v.Invalid? <==> exists i | 0 <= i < |objs| :: FirstRefused(inRange, a3xx, objs, i) && BadIbs(inRange, objs[i])
    ensures v.Unsupported? <==> exists i | 0 <= i < |objs| :: FirstRefused(inRange, a3xx, objs, i) && !BadIbs(inRange, objs[i])
  {
    var i := 0;
    while i < |objs|
      invariant 0 <= i <= |objs|
      invariant forall k | 0 <= k < i :: !Refused(inRange, a3xx, objs[k])
    {
      if objs[i].isCmd {
        var n := 0;
        while n < |objs[i].ibs|
          invariant 0 <= n <= |objs[i].ibs|
          invariant forall k | 0 <= k < n :: VerifyIb(inRange, objs[i].ibs[k])
        {
          if !VerifyIb(inRange, objs[i].ibs[n]) {
            assert FirstRefused(inRange, a3xx, objs, i);
            return Invalid;
          }
          n := n + 1;
        }
      }
      if a3xx && objs[i].profiling {
        assert FirstRefused(inRange, a3xx, objs, i);
        return Unsupported;
      }
      i := i + 1;
    }
    return Accepted;
  }

  /**
   For a verified IB the 20-bit length in the packet is the size in whole
   dwords. The packet covers all of the IB exactly if the size is a multiple
   of four; a verified IB of fewer than four bytes is run with length 0.
   */
  lemma LengthsAreExact(inRange: (nat, nat) -> bool, ib: Ib)
    requires VerifyIb(inRange, ib)
    ensures IbRefOf(ib).dwords == ib.size / 4 < 0x10_0000
    ensures 4 * IbRefOf(ib).dwords == ib.size <==> ib.size % 4 == 0
    ensures IbRefOf(ib).dwords == 0 <==> ib.size < 4
  {
    assert ib.size / 4 % 0x10_0000 == ib.size / 4;
  }

  /** Without verification the mask can turn a long IB into another one. */
  lemma UnverifiedLengthsAreNot(ib: Ib)
    ensures IbRefOf(ib).dwords == ib.size / 4 <==> ib.size / 4 <= 0xF_FFFF
  {
    if ib.size / 4 <= 0xF_FFFF {
      assert ib.size / 4 % 0x10_0000 == ib.size / 4;
    }
  }
}
