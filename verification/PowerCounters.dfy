/** The GPMU power counters: six counters that share two select registers, a byte lane each. */
module PowerCounters {
  const COUNTERS := 6

  /** Which select register a counter has, and by how much its lane is shifted. */
  function Register(counter: nat): nat
    requires counter < COUNTERS
  {
    if counter < 4 then 0 else 1
  }

  function LaneOf(counter: nat): nat {
    counter * 8 % 32 / 8
  }

  /** v << (8 * lane) in 32 bits. */
  function Shifted(v: bv32, lane: nat): bv32
    requires lane < 4
  {
    match lane case 0 => v case 1 => v << 8 case 2 => v << 16 case _ => v << 24
  }

  /** The byte of v in a lane. */
  function Lane(v: bv32, lane: nat): bv32
    requires lane < 4
  {
    (match lane case 0 => v case 1 => v >> 8 case 2 => v >> 16 case _ => v >> 24) & 0xFF
  }

  /** kgsl_regrmw as a5xx_counter_pwr_gpmu_enable uses it. */
  function Modified(v: bv32, lane: nat, countable: bv32): bv32
    requires lane < 4
  {
    Both(Cleared(v, lane), Shifted(countable, lane))
  }

  function Both(a: bv32, b: bv32): bv32 { a | b }

  function Cleared(v: bv32, lane: nat): bv32
    requires lane < 4
  {
    v & !Shifted(0xFF, lane)
  }

  /** Shifted into its lane, the countable has no bit outside it. */
  predicate Stays(countable: bv32, lane: nat)
    requires lane < 4
  {
    Shifted(countable, lane) & !Shifted(0xFF, lane) == 0
  }

  lemma OwnLane(v: bv32, lane: nat, countable: bv32)
    requires lane < 4
    ensures Lane(Modified(v, lane, countable), lane) == countable & 0xFF
  {
    match lane case 0 => case 1 => case 2 => case _ =>
  }

  lemma LaneOr0(a: bv32, b: bv32)
    ensures Lane(Both(a, b), 0) == Both(Lane(a, 0), Lane(b, 0))
  {}

  lemma LaneOr1(a: bv32, b: bv32)
    ensures Lane(Both(a, b), 1) == Both(Lane(a, 1), Lane(b, 1))
  {}

  lemma LaneOr2(a: bv32, b: bv32)
    ensures Lane(Both(a, b), 2) == Both(Lane(a, 2), Lane(b, 2))
  {}

  lemma LaneOr3(a: bv32, b: bv32)
    ensures Lane(Both(a, b), 3) == Both(Lane(a, 3), Lane(b, 3))
  {}

  lemma LaneOr(a: bv32, b: bv32, lane: nat)
    requires lane < 4
    ensures Lane(Both(a, b), lane) == Both(Lane(a, lane), Lane(b, lane))
  {
    hide Lane, Both;
    match lane
    case 0 => LaneOr0(a, b);
    case 1 => LaneOr1(a, b);
    case 2 => LaneOr2(a, b);
    case _ => LaneOr3(a, b);
  }

  lemma MaskedOut0(v: bv32)
    ensures var m := Cleared(v, 0); Lane(m, 1) == Lane(v, 1) && Lane(m, 2) == Lane(v, 2) && Lane(m, 3) == Lane(v, 3)
  {}

  lemma MaskedOut1(v: bv32)
    ensures var m := Cleared(v, 1); Lane(m, 0) == Lane(v, 0) && Lane(m, 2) == Lane(v, 2) && Lane(m, 3) == Lane(v, 3)
  {}

  lemma MaskedOut2(v: bv32)
    ensures var m := Cleared(v, 2); Lane(m, 0) == Lane(v, 0) && Lane(m, 1) == Lane(v, 1) && Lane(m, 3) == Lane(v, 3)
  {}

  lemma MaskedOut3(v: bv32)
    ensures var m := Cleared(v, 3); Lane(m, 0) == Lane(v, 0) && Lane(m, 1) == Lane(v, 1) && Lane(m, 2) == Lane(v, 2)
  {}

  lemma OtherLanes0(v: bv32, countable: bv32)
    ensures var m, w := Modified(v, 0, countable), Shifted(countable, 0);
      Lane(m, 1) == Both(Lane(v, 1), Lane(w, 1)) && Lane(m, 2) == Both(Lane(v, 2), Lane(w, 2)) && Lane(m, 3) == Both(Lane(v, 3), Lane(w, 3))
  {
    hide Lane, Shifted, Cleared, Both;
    MaskedOut0(v);
    var c, w := Cleared(v, 0), Shifted(countable, 0);
    LaneOr(c, w, 1);
    LaneOr(c, w, 2);
    LaneOr(c, w, 3);
  }

  lemma OtherLanes1(v: bv32, countable: bv32)
    ensures var m, w := Modified(v, 1, countable), Shifted(countable, 1);
      Lane(m, 0) == Both(Lane(v, 0), Lane(w, 0)) && Lane(m, 2) == Both(Lane(v, 2), Lane(w, 2)) && Lane(m, 3) == Both(Lane(v, 3), Lane(w, 3))
  {
    hide Lane, Shifted, Cleared, Both;
    MaskedOut1(v);
    var c, w := Cleared(v, 1), Shifted(countable, 1);
    LaneOr(c, w, 0);
    LaneOr(c, w, 2);
    LaneOr(c, w, 3);
  }

  lemma OtherLanes2(v: bv32, countable: bv32)
    ensures var m, w := Modified(v, 2, countable), Shifted(countable, 2);
      Lane(m, 0) == Both(Lane(v, 0), Lane(w, 0)) && Lane(m, 1) == Both(Lane(v, 1), Lane(w, 1)) && Lane(m, 3) == Both(Lane(v, 3), Lane(w, 3))
  {
    hide Lane, Shifted, Cleared, Both;
    MaskedOut2(v);
    var c, w := Cleared(v, 2), Shifted(countable, 2);
    LaneOr(c, w, 0);
    LaneOr(c, w, 1);
    LaneOr(c, w, 3);
  }

  lemma OtherLanes3(v: bv32, countable: bv32)
    ensures var m, w := Modified(v, 3, countable), Shifted(countable, 3);
      Lane(m, 0) == Both(Lane(v, 0), Lane(w, 0)) && Lane(m, 1) == Both(Lane(v, 1), Lane(w, 1)) && Lane(m, 2) == Both(Lane(v, 2), Lane(w, 2))
  {
    hide Lane, Shifted, Cleared, Both;
    MaskedOut3(v);
    var c, w := Cleared(v, 3), Shifted(countable, 3);
    LaneOr(c, w, 0);
    LaneOr(c, w, 1);
    LaneOr(c, w, 2);
  }

  /** Any other lane keeps its bits and gains those that spill into it. */
  lemma OtherLanes(v: bv32, lane: nat, countable: bv32, other: nat)
    requires lane < 4 && other < 4 && other != lane
    ensures Lane(Modified(v, lane, countable), other) == Both(Lane(v, other), Lane(Shifted(countable, lane), other))
  {
    hide Lane, Shifted, Modified, Both;
    match lane
    case 0 => OtherLanes0(v, countable);
    case 1 => OtherLanes1(v, countable);
    case 2 => OtherLanes2(v, countable);
    case _ => OtherLanes3(v, countable);
  }

  lemma Spill0(countable: bv32)
    requires !Stays(countable, 0)
    ensures var w := Shifted(countable, 0); Lane(w, 1) != 0 || Lane(w, 2) != 0 || Lane(w, 3) != 0
  {}

  lemma Spill1(countable: bv32)
    requires !Stays(countable, 1)
    ensures var w := Shifted(countable, 1); Lane(w, 2) != 0 || Lane(w, 3) != 0
  {}

  lemma Spill2(countable: bv32)
    requires !Stays(countable, 2)
    ensures Lane(Shifted(countable, 2), 3) != 0
  {}

  lemma ModifiedZero(lane: nat, countable: bv32)
    requires lane < 4
    ensures Modified(0, lane, countable) == Shifted(countable, lane)
  {}

  /** What spills over: a byte above the lane that is not empty is or-ed into another lane. */
  lemma SomeLaneSpills(lane: nat, countable: bv32) returns (other: nat)
    requires lane < 3 && !Stays(countable, lane)
    ensures other < 4 && other != lane && Lane(Modified(0, lane, countable), other) != 0
  {
    ModifiedZero(lane, countable);
    hide Lane, Shifted, Modified, Stays;
    var w := Shifted(countable, lane);
    if lane == 0 {
      Spill0(countable);
      other := if Lane(w, 1) != 0 then 1 else if Lane(w, 2) != 0 then 2 else 3;
    } else if lane == 1 {
      Spill1(countable);
      other := if Lane(w, 2) != 0 then 2 else 3;
    } else {
      Spill2(countable);
      other := 3;
    }
  }

  ghost predicate KeepsOthers(lane: nat, countable: bv32)
    requires lane < 4
  {
    forall v: bv32, other: nat | other < 4 && other != lane ::
      Lane(Modified(v, lane, countable), other) == Lane(v, other)
  }

  /** A countable leaves the other lanes alone exactly if none of its bits above the lowest byte stay in the register. */
  lemma LanesAreIndependentExactly(lane: nat, countable: bv32)
    requires lane < 4
    ensures KeepsOthers(lane, countable) <==> Stays(countable, lane)
  {
    if Stays(countable, lane) {
      forall v: bv32, other: nat | other < 4 && other != lane
        ensures Lane(Modified(v, lane, countable), other) == Lane(v, other)
      {
        NothingSpills(v, lane, countable, other);
      }
    } else {
      TopLaneHoldsNoMore(countable);
      var other := SomeLaneSpills(lane, countable);
      assert Lane(0, other) == 0;
    }
  }

  lemma TopLaneHoldsNoMore(countable: bv32)
    ensures Stays(countable, 3)
  {}

  lemma SmallCountablesStay(lane: nat, countable: bv32)
    requires lane < 4 && countable < 256
    ensures Stays(countable, lane)
  {
    match lane case 0 => case 1 => case 2 => case _ =>
  }

  lemma NothingSpills(v: bv32, lane: nat, countable: bv32, other: nat)
    requires lane < 4 && other < 4 && other != lane && Stays(countable, lane)
    ensures Lane(Modified(v, lane, countable), other) == Lane(v, other)
  {
    hide Lane, Shifted, Modified, Stays;
    match lane
    case 0 => KeepsLanes0(v, countable);
    case 1 => KeepsLanes1(v, countable);
    case 2 => KeepsLanes2(v, countable);
    case _ => KeepsLanes3(v, countable);
  }

  lemma KeepsLanes0(v: bv32, countable: bv32)
    requires Stays(countable, 0)
    ensures var m := Modified(v, 0, countable);
      Lane(m, 1) == Lane(v, 1) && Lane(m, 2) == Lane(v, 2) && Lane(m, 3) == Lane(v, 3)
  {}

  lemma KeepsLanes1(v: bv32, countable: bv32)
    requires Stays(countable, 1)
    ensures var m := Modified(v, 1, countable);
      Lane(m, 0) == Lane(v, 0) && Lane(m, 2) == Lane(v, 2) && Lane(m, 3) == Lane(v, 3)
  {}

  lemma KeepsLanes2(v: bv32, countable: bv32)
    requires Stays(countable, 2)
    ensures var m := Modified(v, 2, countable);
      Lane(m, 0) == Lane(v, 0) && Lane(m, 1) == Lane(v, 1) && Lane(m, 3) == Lane(v, 3)
  {}

  lemma KeepsLanes3(v: bv32, countable: bv32)
    requires Stays(countable, 3)
    ensures var m := Modified(v, 3, countable);
      Lane(m, 0) == Lane(v, 0) && Lane(m, 1) == Lane(v, 1) && Lane(m, 2) == Lane(v, 2)
  {}

  // ---------------------------------------------------------- enabling

  /** A request that a5xx_counter_pwr_gpmu_enable accepts. */
  datatype Request = Request(counter: nat, countable: bv32)

  datatype Chip = A530 | A540 | Other

  /** The countables that a chip accepts; other chips accept any. */
  predicate Accepted(chip: Chip, countable: bv32) {
    match chip
    case A530 => countable <= 43
    case A540 => countable <= 47
    case Other => true
  }

  function Select(sel: seq<bv32>, r: Request): (sel': seq<bv32>)
    requires |sel| == 2 && r.counter < COUNTERS
    ensures |sel'| == 2
  {
    var i := Register(r.counter);
    sel[i := Modified(sel[i], LaneOf(r.counter), r.countable)]
  }

  class Group {
    var select: seq<bv32>     // the two select registers
    var value: seq<nat>       // reg->value
    var enabled: bool         // A5XX_GPMU_POWER_COUNTER_ENABLE

    ghost predicate Valid()
      reads this
    {
      |select| == 2 && |value| == COUNTERS
    }

    constructor (s0: bv32, s1: bv32)
      ensures Valid() && select == [s0, s1]
    {
      select, value, enabled := [s0, s1], seq(COUNTERS, _ => 0), false;
    }

    /** a5xx_counter_pwr_gpmu_enable. */
    method Enable(chip: Chip, counter: nat, countable: bv32) returns (ok: bool)
      requires Valid() && counter < COUNTERS
      modifies this
      ensures Valid()
      ensures ok <==> Accepted(chip, countable)
      ensures !ok ==> unchanged(this)
      ensures ok ==>
        && select == Select(old(select), Request(counter, countable))
        && value == old(value)[counter := 0] && enabled
    {
      if chip == A530 {
        if countable > 43 {
          return false;
        }
      } else if chip == A540 {
        if countable > 47 {
          return false;
        }
      }
      var i := Register(counter);
      select := select[i := Modified(select[i], LaneOf(counter), countable)];
      enabled := true;
      value := value[counter := 0];
      return true;
    }
  }

  predicate RequestsOk(rs: seq<Request>) {
    forall k | 0 <= k < |rs| :: rs[k].counter < COUNTERS
  }

  function SelectAll(sel: seq<bv32>, rs: seq<Request>): (sel': seq<bv32>)
    requires |sel| == 2 && RequestsOk(rs)
    ensures |sel'| == 2
  {
    if rs == [] then sel else Select(SelectAll(sel, rs[..|rs| - 1]), rs[|rs| - 1])
  }

  /** The lane of a counter. */
  function Chosen(sel: seq<bv32>, counter: nat): bv32
    requires |sel| == 2 && counter < COUNTERS
  {
    Lane(sel[Register(counter)], LaneOf(counter))
  }

  /** The low byte of the last countable given to a counter, or what its lane held before. */
  function LastGiven(rs: seq<Request>, counter: nat, before: bv32): bv32 {
    if rs == [] then before
    else if rs[|rs| - 1].counter == counter then rs[|rs| - 1].countable & 0xFF
    else LastGiven(rs[..|rs| - 1], counter, before)
  }

  /** The bits of a request that fall into the lane of another counter. */
  function Spill(r: Request, counter: nat): bv32
    requires r.counter < COUNTERS && counter < COUNTERS
  {
    if Register(r.counter) == Register(counter) then Lane(Shifted(r.countable, LaneOf(r.counter)), LaneOf(counter)) else 0
  }

  /** All that has spilled into the lane of a counter since it was last enabled. */
  function SpillSince(rs: seq<Request>, counter: nat): bv32
    requires RequestsOk(rs) && counter < COUNTERS
  {
    if rs == [] then 0
    else
      var r := rs[|rs| - 1];
      if r.counter == counter then 0 else Both(SpillSince(rs[..|rs| - 1], counter), Spill(r, counter))
  }

  lemma CountersHaveTheirOwnLane(a: nat, b: nat)
    requires a < COUNTERS && b < COUNTERS && a != b
    ensures Register(a) != Register(b) || LaneOf(a) != LaneOf(b)
  {}

  /** One enable: the counter gets the low byte, every other one keeps what it has and what spills over. */
  lemma SelectMeaning(sel: seq<bv32>, r: Request, counter: nat)
    requires |sel| == 2 && r.counter < COUNTERS && counter < COUNTERS
    ensures Chosen(Select(sel, r), counter)
         == if r.counter == counter then r.countable & 0xFF else Both(Chosen(sel, counter), Spill(r, counter))
  {
    hide Lane, Shifted, Modified, Both;
    var v := sel[Register(r.counter)];
    if r.counter == counter {
      OwnLane(v, LaneOf(counter), r.countable);
    } else if Register(counter) == Register(r.counter) {
      CountersHaveTheirOwnLane(counter, r.counter);
      OtherLanes(v, LaneOf(r.counter), r.countable, LaneOf(counter));
    } else {
      NothingAdded(Chosen(sel, counter));
    }
  }

  lemma NothingAdded(v: bv32)
    ensures Both(v, 0) == v
  {}

  lemma AddedTwice(a: bv32, b: bv32, c: bv32)
    ensures Both(Both(a, b), c) == Both(a, Both(b, c))
  {}

  /** Every bit of b is one of a's. */
  predicate Within(b: bv32, a: bv32) { b & !a == 0 }

  lemma AddedUnseen(a: bv32, b: bv32)
    ensures Both(a, b) == a <==> Within(b, a)
  {}

  lemma {:induction false} LaneAfter(sel: seq<bv32>, rs: seq<Request>, counter: nat)
    requires |sel| == 2 && RequestsOk(rs) && counter < COUNTERS
    ensures Chosen(SelectAll(sel, rs), counter) == Both(LastGiven(rs, counter, Chosen(sel, counter)), SpillSince(rs, counter))
  {
    hide Chosen, Select, Spill, Both;
    var before := Chosen(sel, counter);
    if rs == [] {
      NothingAdded(before);
    } else {
      var init, r := rs[..|rs| - 1], rs[|rs| - 1];
      LaneAfter(sel, init, counter);
      SelectMeaning(SelectAll(sel, init), r, counter);
      if r.counter == counter {
        NothingAdded(r.countable & 0xFF);
      } else {
        AddedTwice(LastGiven(init, counter, before), SpillSince(init, counter), Spill(r, counter));
      }
    }
  }

  /**
   After any sequence of enables with any countables, a counter's lane holds the
   low byte last given to it and everything that has spilled over since. So it
   counts what it was given if and only if nothing has spilled over but bits it
   had anyway.
   */
  lemma CountersDoNotInterfere(sel: seq<bv32>, rs: seq<Request>, counter: nat)
    requires |sel| == 2 && RequestsOk(rs) && counter < COUNTERS
    ensures var given, spilt := LastGiven(rs, counter, Chosen(sel, counter)), SpillSince(rs, counter);
      && Chosen(SelectAll(sel, rs), counter) == Both(given, spilt)
      && (Chosen(SelectAll(sel, rs), counter) == given <==> Within(spilt, given))
  {
    hide Chosen, SelectAll, LastGiven, SpillSince, Both, Within;
    LaneAfter(sel, rs, counter);
    AddedUnseen(LastGiven(rs, counter, Chosen(sel, counter)), SpillSince(rs, counter));
  }

  /** Counters 0 to 3 are the four bytes of the first select register, 4 and 5 the two low bytes of the second. */
  lemma CountersShareSelectors(sel: seq<bv32>, rs: seq<Request>, counter: nat)
    requires |sel| == 2 && RequestsOk(rs) && counter < COUNTERS
    ensures Lane(SelectAll(sel, rs)[if counter < 4 then 0 else 1], counter % 4)
         == Both(LastGiven(rs, counter, Lane(sel[if counter < 4 then 0 else 1], counter % 4)), SpillSince(rs, counter))
  {
    hide Lane, SelectAll, LastGiven, SpillSince, Both;
    CountersDoNotInterfere(sel, rs, counter);
  }

  /** Enabling a counter leaves the select register it has no lane in alone. */
  lemma OtherSelectorStays(sel: seq<bv32>, r: Request)
    requires |sel| == 2 && r.counter < COUNTERS
    ensures Select(sel, r)[if r.counter < 4 then 1 else 0] == sel[if r.counter < 4 then 1 else 0]
  {}

  lemma SmallSpillNothing(r: Request, counter: nat)
    requires r.counter < COUNTERS && counter < COUNTERS && counter != r.counter && r.countable < 256
    ensures Spill(r, counter) == 0
  {
    if Register(r.counter) == Register(counter) {
      CountersHaveTheirOwnLane(counter, r.counter);
      SmallStays(r.countable, LaneOf(r.counter), LaneOf(counter));
    }
  }

  lemma SmallStays(countable: bv32, lane: nat, other: nat)
    requires lane < 4 && other < 4 && lane != other && countable < 256
    ensures Lane(Shifted(countable, lane), other) == 0
  {
    match lane case 0 => case 1 => case 2 => case _ =>
  }

  /** Countables of one byte, as the two checked chips accept them, never interfere. */
  lemma {:induction false} SmallCountablesDoNotInterfere(sel: seq<bv32>, rs: seq<Request>, counter: nat)
    requires |sel| == 2 && RequestsOk(rs) && counter < COUNTERS
    requires forall k | 0 <= k < |rs| :: rs[k].countable < 256
    ensures SpillSince(rs, counter) == 0
    ensures Chosen(SelectAll(sel, rs), counter) == LastGiven(rs, counter, Chosen(sel, counter))
  {
    CountersDoNotInterfere(sel, rs, counter);
    NothingAdded(LastGiven(rs, counter, Chosen(sel, counter)));
    if rs != [] {
      SmallCountablesDoNotInterfere(sel, rs[..|rs| - 1], counter);
      var r := rs[|rs| - 1];
      if r.counter != counter { SmallSpillNothing(r, counter); }
      NothingAdded(0);
    }
    hide Chosen, Select, Spill, Both;
  }

  /** The two chips that check their countables only accept ones that fit a lane. */
  lemma CheckedCountablesFit(chip: Chip, countable: bv32)
    requires !chip.Other? && Accepted(chip, countable)
    ensures countable < 256
  {}
}
