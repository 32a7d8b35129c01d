/** The interrupt loop, and the detection of interrupt storms. */
module Interrupts {

  // ---------------------------------------------------------- the loop

  /** A 32-bit word as the set of its one bits. */
  type Bits = set<nat>

  /** What a handler does to irq_mask, given its bit. */
  type Effect = (nat, Bits) -> Bits

  /** fls(status) - 1. */
  function Highest(status: Bits): (i: nat)
    requires status != {}
    ensures i in status && forall j | j in status :: j <= i
  {
    HasHighest(status);
    var i :| i in status && forall j | j in status :: j <= i;
    i
  }

  lemma {:induction false} HasHighest(status: Bits)
    requires status != {}
    ensures exists i :: i in status && forall j | j in status :: j <= i
    decreases |status|
  {
    var i :| i in status;
    var rest := status - {i};
    assert forall j | j in status :: j == i || j in rest;
    if rest != {} {
      HasHighest(rest);
      var m :| m in rest && forall j | j in rest :: j <= m;
      var top := if m < i then i else m;
      assert top in status && forall j | j in status :: j <= top;
    }
  }

  /** The bits in the order in which the loop meets them. */
  function Order(status: Bits): (order: seq<nat>)
    decreases |status|
  {
    if status == {} then [] else [Highest(status)] + Order(status - {Highest(status)})
  }

  /** Every set bit is met exactly once, from high to low. */
  lemma {:induction false} OrderIsDescending(status: Bits)
    ensures forall j | 0 <= j < |Order(status)| :: Order(status)[j] in status
    ensures forall i | i in status :: i in Order(status)
    ensures forall j, k | 0 <= j < k < |Order(status)| :: Order(status)[k] < Order(status)[j]
    decreases |status|
  {
    if status != {} {
      var top, rest := Highest(status), status - {Highest(status)};
      OrderIsDescending(rest);
      assert Order(status) == [top] + Order(rest);
    }
  }

  /** irq_mask after the given bits have been served. */
  function MaskAfter(bits: seq<nat>, funcs: Bits, effect: Effect, mask: Bits): Bits {
    if bits == [] then mask
    else
      var i := bits[|bits| - 1];
      var before := MaskAfter(bits[..|bits| - 1], funcs, effect, mask);
      if i in funcs && i in before then effect(i, before) else before
  }

  /** The handlers that are called, in order. */
  function Calls(bits: seq<nat>, funcs: Bits, effect: Effect, mask: Bits): seq<nat> {
    if bits == [] then []
    else
      var init, i := bits[..|bits| - 1], bits[|bits| - 1];
      Calls(init, funcs, effect, mask) + if i in funcs && i in MaskAfter(init, funcs, effect, mask) then [i] else []
  }

  class Dispatcher {
    var irqMask: Bits
    var calls: seq<nat>    // the handlers called so far

    constructor (mask: Bits)
      ensures irqMask == mask && calls == []
    {
      irqMask, calls := mask, [];
    }

    method Call(i: nat, effect: Effect)
      modifies this
      ensures calls == old(calls) + [i] && irqMask == effect(i, old(irqMask))
    {
      calls := calls + [i];
      irqMask := effect(i, irqMask);
    }

    /** adreno_irq_callbacks; `funcs` are the bits that have a handler. */
    method IrqCallbacks(funcs: Bits, effect: Effect, status: Bits) returns (handled: bool)
      modifies this
      ensures handled <==> status != {}
      ensures calls == old(calls) + Calls(Order(status), funcs, effect, old(irqMask))
      ensures irqMask == MaskAfter(Order(status), funcs, effect, old(irqMask))
    {
      handled := false;
      var left := status;
      ghost var seen: seq<nat> := [];
      while left != {}
        invariant Order(status) == seen + Order(left)
        invariant handled <==> left != status
        invariant left <= status
        invariant calls == old(calls) + Calls(seen, funcs, effect, old(irqMask))
        invariant irqMask == MaskAfter(seen, funcs, effect, old(irqMask))
        decreases |left|
      {
        var i := Highest(left);
        assert (seen + [i])[..|seen|] == seen;
        if i in funcs {
          if i in irqMask {
            Call(i, effect);
          }
        }
        handled := true;
        assert Order(left) == [i] + Order(left - {i});
        seen := seen + [i];
        left := left - {i};
      }
      assert seen + [] == seen;
    }
  }

  /** A handler is called exactly if it exists and its bit is in irq_mask when its turn comes. */
  lemma {:induction false} CalledExactly(bits: seq<nat>, funcs: Bits, effect: Effect, mask: Bits, k: nat)
    requires k < |bits| && forall i, j | 0 <= i < j < |bits| :: bits[i] != bits[j]
    ensures bits[k] in Calls(bits, funcs, effect, mask)
       <==> bits[k] in funcs && bits[k] in MaskAfter(bits[..k], funcs, effect, mask)
  {
    var init, last := bits[..|bits| - 1], bits[|bits| - 1];
    if k < |bits| - 1 {
      CalledExactly(init, funcs, effect, mask, k);
      assert init[..k] == bits[..k];
    } else {
      CallsAreBits(init, funcs, effect, mask);
      assert bits[..k] == init;
    }
  }

  lemma {:induction false} CallsAreBits(bits: seq<nat>, funcs: Bits, effect: Effect, mask: Bits)
    ensures forall i | i in Calls(bits, funcs, effect, mask) :: i in bits
  {
    if bits != [] { CallsAreBits(bits[..|bits| - 1], funcs, effect, mask); }
  }
}
