/** What the ring buffer code is given to work with. */
module Submissions {
  import opened Pm4

  const CMD_IDENTIFIER := 0x2EEDFACE
  const CMD_INTERNAL_IDENTIFIER := 0x2EEDD00D
  const CONTEXT_TO_MEM_IDENTIFIER := 0x2EADBEEF
  const START_IB_IDENTIFIER := 0x2EADEABE
  const END_IB_IDENTIFIER := 0x2ABEDEAD

  /** A page of user profiling IBs. */
  const PROFILE_IB_DWORDS := 4
  const PROFILE_IB_SLOTS := 256

  /** KGSL_CONTEXT_SECURE, the preempt style bits, and where the context's timestamps live. */
  datatype Context = Context(id: nat, ttbr0: nat, secure: bool, style: nat, sopAddr: nat, eopAddr: nat)

  datatype Flags = Flags(
    notProtected: bool, wfi: bool, pwronFixup: bool, secure: bool,
    skip: bool, userProfile: bool, kernelProfile: bool, preamble: bool
  )

  const NoFlags := Flags(false, false, false, false, false, false, false, false)

  /** GPU addresses that belong to one ring, and the global ones. */
  datatype RingAddresses = RingAddresses(
    desc: nat, sop: nat, eop: nat, currentContext: nat, scratchTtbr0: nat, scratchRptr: nat,
    refWaitTs: nat, globalCurrentContext: nat, profile: nat
  )

  datatype IbRef = IbRef(addr: nat, dwords: nat)

  /** An IB on the command list of a draw object. */
  datatype Ib = Ib(gpuaddr: nat, size: nat, skip: bool, preamble: bool)

  /** A draw object: its IBs and where its profiling results go. */
  datatype DrawObj = DrawObj(
    ctx: Context, ibs: seq<Ib>, timestamp: nat,
    kernelStarted: nat, kernelRetired: nat, userSubmitted: nat, userRetired: nat
  )

  predicate Skipped(flags: Flags, ib: Ib) {
    ib.skip || (ib.preamble && !flags.preamble)
  }

  /** The IBs of a draw object that are to run. */
  function Kept(flags: Flags, ibs: seq<Ib>): seq<Ib> {
    if ibs == [] then []
    else
      var kept := Kept(flags, ibs[..|ibs| - 1]);
      if Skipped(flags, ibs[|ibs| - 1]) then kept else kept + [ibs[|ibs| - 1]]
  }

  /** Positions in a list, in order. */
  predicate InListOrder(runs: seq<nat>, n: nat) {
    && (forall j | 0 <= j < |runs| :: runs[j] < n)
    && (forall j, k | 0 <= j < k < |runs| :: runs[j] < runs[k])
  }

  /** By its marks alone: an IB with the skip bit never runs, a preamble only if asked for, any other always. */
  predicate RunsByItsMarks(flags: Flags, ib: Ib, runs: bool) {
    && (ib.skip ==> !runs)
    && (!ib.skip && !ib.preamble ==> runs)
    && (!ib.skip && ib.preamble ==> (runs <==> flags.preamble))
  }

  lemma MarksDecide(flags: Flags, ib: Ib)
    ensures RunsByItsMarks(flags, ib, !Skipped(flags, ib))
  {}

  predicate RunByMarks(flags: Flags, ibs: seq<Ib>, runs: seq<nat>) {
    forall i | 0 <= i < |ibs| :: RunsByItsMarks(flags, ibs[i], i in runs)
  }

  lemma OneMoreIb(flags: Flags, init: seq<Ib>, ib: Ib, before: seq<nat>)
    requires InListOrder(before, |init|) && RunByMarks(flags, init, before)
    ensures var runs := if Skipped(flags, ib) then before else before + [|init|];
      InListOrder(runs, |init| + 1) && RunByMarks(flags, init + [ib], runs)
  {
    var n, skipped := |init|, Skipped(flags, ib);
    var runs := if skipped then before else before + [n];
    MarksDecide(flags, ib);
    hide Skipped, RunsByItsMarks;
    assert n !in before;
    forall i | 0 <= i < n + 1 ensures RunsByItsMarks(flags, (init + [ib])[i], i in runs) {
      if i < n { assert i in runs <==> i in before; }
    }
  }

  /** `picked` are the IBs at these positions. */
  predicate PicksOut(ibs: seq<Ib>, runs: seq<nat>, picked: seq<Ib>) {
    InListOrder(runs, |ibs|) && |picked| == |runs| && forall j | 0 <= j < |runs| :: picked[j] == ibs[runs[j]]
  }

  lemma PickOneMore(init: seq<Ib>, ib: Ib, runs: seq<nat>, picked: seq<Ib>)
    requires PicksOut(init, runs, picked)
    ensures PicksOut(init + [ib], runs, picked) && PicksOut(init + [ib], runs + [|init|], picked + [ib])
  {
    var ibs, more, kept := init + [ib], runs + [|init|], picked + [ib];
    forall j | 0 <= j < |runs| ensures ibs[runs[j]] == init[runs[j]] {}
    forall j | 0 <= j < |more| ensures kept[j] == ibs[more[j]] {
      if j < |runs| { assert more[j] == runs[j]; }
    }
  }

  /** Which IBs are kept, by position. */
  lemma {:induction false} KeptExactly(flags: Flags, ibs: seq<Ib>) returns (runs: seq<nat>)
    ensures InListOrder(runs, |ibs|) && RunByMarks(flags, ibs, runs)
    ensures PicksOut(ibs, runs, Kept(flags, ibs))
  {
    if ibs == [] {
      runs := [];
    } else {
      var init, ib := ibs[..|ibs| - 1], ibs[|ibs| - 1];
      var before := KeptExactly(flags, init);
      assert init + [ib] == ibs;
      hide Skipped, RunByMarks, PicksOut, InListOrder;
      PicksInOrder(init, before, Kept(flags, init));
      OneMoreIb(flags, init, ib, before);
      PickOneMore(init, ib, before, Kept(flags, init));
      runs := if Skipped(flags, ib) then before else before + [|init|];
    }
  }

  lemma PicksInOrder(ibs: seq<Ib>, runs: seq<nat>, picked: seq<Ib>)
    requires PicksOut(ibs, runs, picked)
    ensures InListOrder(runs, |ibs|)
  {}

  /** The IBs of a draw object as packets, where `packet` is the one for an IB that runs or (true) is skipped. */
  function IbList(flags: Flags, ibs: seq<Ib>, ps: seq<Packet>, packet: (Ib, bool) -> Packet): seq<Packet> {
    if ibs == [] then ps
    else
      var ib := ibs[|ibs| - 1];
      IbList(flags, ibs[..|ibs| - 1], ps, packet) + [packet(ib, Skipped(flags, ib))]
  }

  // -------------------------------------------------- machine integers

  predicate U32(v: nat) { v < 0x1_0000_0000 }
  predicate U64(v: nat) { v < 0x1_0000_0000_0000_0000 }

  predicate RingOk(r: RingAddresses) {
    && U64(r.desc) && U64(r.sop) && U64(r.eop) && U64(r.currentContext) && U64(r.scratchTtbr0)
    && U64(r.scratchRptr) && U64(r.refWaitTs) && U64(r.globalCurrentContext) && U64(r.profile + 0x1000)
  }

  predicate ContextOk(c: Context) {
    U32(c.id) && U64(c.ttbr0) && U64(c.sopAddr) && U64(c.eopAddr)
  }

  predicate IbRefOk(ib: IbRef) {
    U64(ib.addr) && U32(ib.dwords)
  }

  predicate DrawObjOk(o: DrawObj) {
    && ContextOk(o.ctx) && U32(o.timestamp)
    && U64(o.kernelStarted) && U64(o.kernelRetired) && U64(o.userSubmitted) && U64(o.userRetired)
    && forall k | 0 <= k < |o.ibs| :: U64(o.ibs[k].gpuaddr)
  }
}
