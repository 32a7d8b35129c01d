/** Handing secure buffers to the kernel before hibernation and back afterwards. */
module Hibernation {

  datatype Owner = Secure | Hlos

  /** A kgsl_memdesc: its flags, and who the hypervisor says owns its pages. */
  datatype Mem = Mem(secured: bool, ion: bool, hlos: bool, owner: Owner)

  /** Buffers of processes that are handed over: secured, not from ION, not yet with the kernel. */
  predicate ToFree(m: Mem) { m.secured && !m.ion && !m.hlos }
  predicate ToTake(m: Mem) { m.secured && !m.ion && m.hlos }

  /** Globals have no ION flag. */
  predicate GlobalToFree(m: Mem) { m.secured && !m.hlos }
  predicate GlobalToTake(m: Mem) { m.secured && m.hlos }

  /** kgsl_unlock_sgt and the flag: the flag is set even if a process buffer could not be unlocked. */
  function Freed(m: Mem, ok: bool): Mem {
    if ToFree(m) then m.(hlos := true, owner := if ok then Hlos else m.owner) else m
  }

  function Taken(m: Mem): Mem {
    if ToTake(m) then m.(hlos := false, owner := Secure) else m
  }

  function GlobalFreed(m: Mem): Mem {
    if GlobalToFree(m) then m.(hlos := true, owner := Hlos) else m
  }

  /** The rollback ignores whether kgsl_lock_sgt worked. */
  function GlobalRolledBack(m: Mem, ok: bool): Mem {
    if GlobalToTake(m) then m.(hlos := false, owner := if ok then Secure else m.owner) else m
  }

  function GlobalTaken(m: Mem): Mem {
    if GlobalToTake(m) then m.(hlos := false, owner := Secure) else m
  }

  /** The outcomes of the hypervisor calls, one for each position in a list. */
  type Outcomes = nat -> bool

  function FreedAll(ms: seq<Mem>, ok: Outcomes): (r: seq<Mem>)
    ensures |r| == |ms|
  {
    seq(|ms|, i requires 0 <= i < |ms| => Freed(ms[i], ok(i)))
  }

  function TakenAll(ms: seq<Mem>): (r: seq<Mem>)
    ensures |r| == |ms|
  {
    seq(|ms|, i requires 0 <= i < |ms| => Taken(ms[i]))
  }

  function GlobalsFreed(ms: seq<Mem>, n: nat): (r: seq<Mem>)
    requires n <= |ms|
    ensures |r| == |ms|
  {
    seq(|ms|, i requires 0 <= i < |ms| => if i < n then GlobalFreed(ms[i]) else ms[i])
  }

  function GlobalsRolledBack(ms: seq<Mem>, ok: Outcomes): (r: seq<Mem>)
    ensures |r| == |ms|
  {
    seq(|ms|, i requires 0 <= i < |ms| => GlobalRolledBack(ms[i], ok(i)))
  }

  function GlobalsTaken(ms: seq<Mem>): (r: seq<Mem>)
    ensures |r| == |ms|
  {
    seq(|ms|, i requires 0 <= i < |ms| => GlobalTaken(ms[i]))
  }

  /** The first global that cannot be unlocked, or the number of globals. */
  function FirstStuck(ms: seq<Mem>, ok: Outcomes, i: nat): (n: nat)
    requires i <= |ms|
    ensures i <= n <= |ms|
    ensures n < |ms| ==> GlobalToFree(ms[n]) && !ok(n)
    ensures forall k | i <= k < n :: GlobalToFree(ms[k]) ==> ok(k)
    decreases |ms| - i
  {
    if i == |ms| || (GlobalToFree(ms[i]) && !ok(i)) then i else FirstStuck(ms, ok, i + 1)
  }

  class SecurePagetable {
    var entries: seq<Mem>   // the buffers of all processes, in the order of the walk
    var globals: seq<Mem>

    constructor (entries: seq<Mem>, globals: seq<Mem>)
      ensures this.entries == entries && this.globals == globals
    {
      this.entries, this.globals := entries, globals;
    }

    /** adreno_secure_pt_hibernate; false stands for -EBUSY. */
    method Hibernate(unlockEntry: Outcomes, unlockGlobal: Outcomes, lockGlobal: Outcomes) returns (done: bool)
      modifies this
      ensures entries == FreedAll(old(entries), unlockEntry)
      ensures var n := FirstStuck(old(globals), unlockGlobal, 0);
        && (done <==> n == |old(globals)|)
        && globals == if done then GlobalsFreed(old(globals), n)
                      else GlobalsRolledBack(GlobalsFreed(old(globals), n), lockGlobal)
    {
      var i := 0;
      ghost var first := entries;
      while i < |entries|
        invariant 0 <= i <= |entries| == |first| && globals == old(globals)
        invariant forall k | 0 <= k < i :: entries[k] == Freed(first[k], unlockEntry(k))
        invariant forall k | i <= k < |first| :: entries[k] == first[k]
      {
        if ToFree(entries[i]) {
          if unlockEntry(i) {
            entries := entries[i := entries[i].(owner := Hlos)];
          }
          entries := entries[i := entries[i].(hlos := true)];
        }
        i := i + 1;
      }
      assert entries == FreedAll(first, unlockEntry);
      i := 0;
      while i < |globals|
        invariant 0 <= i <= |globals| == |old(globals)| && entries == FreedAll(first, unlockEntry)
        invariant forall k | 0 <= k < i :: globals[k] == GlobalFreed(old(globals)[k])
        invariant forall k | i <= k < |globals| :: globals[k] == old(globals)[k]
        invariant FirstStuck(old(globals), unlockGlobal, 0) == FirstStuck(old(globals), unlockGlobal, i)
      {
        if GlobalToFree(globals[i]) {
          if !unlockGlobal(i) {
            assert globals == GlobalsFreed(old(globals), i);
            Rollback(lockGlobal);
            return false;
          }
          globals := globals[i := globals[i].(owner := Hlos, hlos := true)];
        }
        i := i + 1;
      }
      assert globals == GlobalsFreed(old(globals), i);
      return true;
    }

    /** The fail label. */
    method Rollback(lockGlobal: Outcomes)
      modifies this`globals
      ensures globals == GlobalsRolledBack(old(globals), lockGlobal)
    {
      var i := 0;
      while i < |globals|
        invariant 0 <= i <= |globals| == |old(globals)|
        invariant forall k | 0 <= k < i :: globals[k] == GlobalRolledBack(old(globals)[k], lockGlobal(k))
        invariant forall k | i <= k < |globals| :: globals[k] == old(globals)[k]
      {
        if GlobalToTake(globals[i]) {
          if lockGlobal(i) {
            globals := globals[i := globals[i].(owner := Secure)];
          }
          globals := globals[i := globals[i].(hlos := false)];
        }
        i := i + 1;
      }
      assert globals == GlobalsRolledBack(old(globals), lockGlobal);
    }

    /** adreno_secure_pt_restore, which gives up at the first buffer that cannot be locked. */
    method Restore(lockGlobal: Outcomes, lockEntry: Outcomes) returns (done: bool)
      modifies this
      ensures |entries| == |old(entries)| && |globals| == |old(globals)|
      ensures done <==>
        && (forall k | 0 <= k < |old(globals)| :: GlobalToTake(old(globals)[k]) ==> lockGlobal(k))
        && (forall k | 0 <= k < |old(entries)| :: ToTake(old(entries)[k]) ==> lockEntry(k))
      ensures done ==> globals == GlobalsTaken(old(globals)) && entries == TakenAll(old(entries))
      ensures forall k | 0 <= k < |globals| :: globals[k] in {old(globals)[k], GlobalTaken(old(globals)[k])}
      ensures forall k | 0 <= k < |entries| :: entries[k] in {old(entries)[k], Taken(old(entries)[k])}
    {
      var i := 0;
      while i < |globals|
        invariant 0 <= i <= |globals| == |old(globals)| && entries == old(entries)
        invariant forall k | 0 <= k < i :: globals[k] == GlobalTaken(old(globals)[k])
        invariant forall k | i <= k < |globals| :: globals[k] == old(globals)[k]
        invariant forall k | 0 <= k < i :: GlobalToTake(old(globals)[k]) ==> lockGlobal(k)
      {
        if GlobalToTake(globals[i]) {
          if !lockGlobal(i) {
            return false;
          }
          globals := globals[i := globals[i].(owner := Secure, hlos := false)];
        }
        i := i + 1;
      }
      assert globals == GlobalsTaken(old(globals));
      i := 0;
      while i < |entries|
        invariant 0 <= i <= |entries| == |old(entries)| && globals == GlobalsTaken(old(globals))
        invariant forall k | 0 <= k < i :: entries[k] == Taken(old(entries)[k])
        invariant forall k | i <= k < |entries| :: entries[k] == old(entries)[k]
        invariant forall k | 0 <= k < i :: ToTake(old(entries)[k]) ==> lockEntry(k)
      {
        if ToTake(entries[i]) {
          if !lockEntry(i) {
            return false;
          }
          entries := entries[i := entries[i].(owner := Secure, hlos := false)];
        }
        i := i + 1;
      }
      assert entries == TakenAll(old(entries));
      return true;
    }
  }

  // ------------------------------------------------------------- lemmas

  /** A secured buffer that is not from ION and not yet with the kernel goes there if it can be unlocked; no other is touched. */
  predicate HandedOver(before: Mem, after: Mem, unlocked: bool) {
    if before.secured && !before.ion && !before.hlos
    then after.secured && !after.ion && after.hlos && after.owner == (if unlocked then Hlos else before.owner)
    else after == before
  }

  /** The way back; ION does not matter for globals. */
  predicate TakenBack(before: Mem, after: Mem, global: bool) {
    if before.secured && before.hlos && (global || !before.ion)
    then after.secured && after.ion == before.ion && !after.hlos && after.owner == Secure
    else after == before
  }

  predicate GlobalHandedOver(before: Mem, after: Mem) {
    if before.secured && !before.hlos
    then after.secured && after.ion == before.ion && after.hlos && after.owner == Hlos
    else after == before
  }

  /** Who has which buffer after a successful hibernate, and when it succeeds. */
  lemma HibernateHandsOver(entries: seq<Mem>, globals: seq<Mem>, unlockEntry: Outcomes, unlockGlobal: Outcomes)
    ensures forall k | 0 <= k < |entries| :: HandedOver(entries[k], FreedAll(entries, unlockEntry)[k], unlockEntry(k))
    ensures forall k | 0 <= k < |globals| :: GlobalHandedOver(globals[k], GlobalsFreed(globals, |globals|)[k])
    ensures FirstStuck(globals, unlockGlobal, 0) == |globals|
       <==> forall k | 0 <= k < |globals| && globals[k].secured && !globals[k].hlos :: unlockGlobal(k)
  {}

  /** Who has which buffer after a successful restore, and what has to be locked for it. */
  lemma RestoreTakesBack(entries: seq<Mem>, globals: seq<Mem>)
    ensures forall k | 0 <= k < |entries| :: TakenBack(entries[k], TakenAll(entries)[k], false)
    ensures forall k | 0 <= k < |globals| :: TakenBack(globals[k], GlobalsTaken(globals)[k], true)
    ensures forall m: Mem :: (ToTake(m) <==> m.secured && !m.ion && m.hlos) && (GlobalToTake(m) <==> m.secured && m.hlos)
  {}

  /** A buffer whose flag tells the truth about its owner. */
  predicate Truthful(m: Mem) {
    m.secured ==> (m.hlos <==> m.owner.Hlos?)
  }

  predicate AllTruthful(ms: seq<Mem>) {
    forall k | 0 <= k < |ms| :: Truthful(ms[k])
  }

  /** All or nothing: after a failure no secured global is flagged, and all are secure again if they could be locked. */
  lemma FailureUndoesGlobals(globals: seq<Mem>, unlock: Outcomes, lock: Outcomes)
    requires AllTruthful(globals)
    ensures var n := FirstStuck(globals, unlock, 0);
      var after := GlobalsRolledBack(GlobalsFreed(globals, n), lock);
      && (forall k | 0 <= k < |globals| && globals[k].secured :: !after[k].hlos)
      && (forall k | 0 <= k < |globals| && !globals[k].secured :: after[k] == globals[k])
      && (forall k | 0 <= k < |globals| && globals[k].secured :: lock(k) ==> after[k].owner == Secure)
  {
    var n := FirstStuck(globals, unlock, 0);
    var after := GlobalsRolledBack(GlobalsFreed(globals, n), lock);
    forall k | 0 <= k < |globals|
      ensures if globals[k].secured then !after[k].hlos && (lock(k) ==> after[k].owner == Secure) else after[k] == globals[k]
    {
      assert Truthful(globals[k]);
      assert after[k] == GlobalRolledBack(GlobalsFreed(globals, n)[k], lock(k));
    }
  }

  /** If none was with the kernel before, a failure whose rollback succeeds leaves every global as it was. */
  lemma FailureIsNeutral(globals: seq<Mem>, unlock: Outcomes, lock: Outcomes)
    requires AllTruthful(globals) && forall k | 0 <= k < |globals| :: lock(k)
    ensures var n := FirstStuck(globals, unlock, 0);
      GlobalsRolledBack(GlobalsFreed(globals, n), lock) == globals
      <==> forall k | 0 <= k < |globals| :: !(globals[k].secured && globals[k].hlos)
  {
    var n := FirstStuck(globals, unlock, 0);
    var after := GlobalsRolledBack(GlobalsFreed(globals, n), lock);
    if k :| 0 <= k < |globals| && globals[k].secured && globals[k].hlos {
      assert after[k] != globals[k];
    } else {
      assert forall k | 0 <= k < |globals| :: after[k] == globals[k];
    }
  }

  /** What a successful hibernate and a successful restore leave of one list of process buffers. */
  function RoundTrip(ms: seq<Mem>, unlock: Outcomes): seq<Mem> {
    TakenAll(FreedAll(ms, unlock))
  }

  function GlobalRoundTrip(ms: seq<Mem>): seq<Mem> {
    GlobalsTaken(GlobalsFreed(ms, |ms|))
  }

  predicate NoneWithKernel(entries: seq<Mem>, globals: seq<Mem>) {
    && (forall k | 0 <= k < |entries| :: !ToTake(entries[k]))
    && (forall k | 0 <= k < |globals| :: !GlobalToTake(globals[k]))
  }

  /**
   Hibernate and restore, both successful, bring every buffer back to its
   owner and flag exactly if no secured buffer was with the kernel to begin
   with: such a buffer is not handed over, but it is taken back.
   */
  lemma RestoreUndoesHibernate(entries: seq<Mem>, globals: seq<Mem>, unlock: Outcomes)
    requires AllTruthful(entries) && AllTruthful(globals)
    ensures RoundTrip(entries, unlock) == entries && GlobalRoundTrip(globals) == globals
      <==> NoneWithKernel(entries, globals)
  {
    if k :| 0 <= k < |entries| && ToTake(entries[k]) {
      assert RoundTrip(entries, unlock)[k] != entries[k];
    } else if k :| 0 <= k < |globals| && GlobalToTake(globals[k]) {
      assert GlobalRoundTrip(globals)[k] != globals[k];
    } else {
      forall k | 0 <= k < |entries| ensures RoundTrip(entries, unlock)[k] == entries[k] {
        assert Truthful(entries[k]) && !ToTake(entries[k]);
        assert RoundTrip(entries, unlock)[k] == Taken(Freed(entries[k], unlock(k)));
      }
      forall k | 0 <= k < |globals| ensures GlobalRoundTrip(globals)[k] == globals[k] {
        assert Truthful(globals[k]);
      }
    }
  }

  /** After a successful hibernate flags are true if and only if every process buffer that was to be unlocked was. */
  lemma FlagsTellTheTruthExactly(entries: seq<Mem>, unlock: Outcomes)
    requires AllTruthful(entries)
    ensures AllTruthful(FreedAll(entries, unlock))
       <==> forall k | 0 <= k < |entries| :: ToFree(entries[k]) ==> unlock(k)
  {
    var after := FreedAll(entries, unlock);
    if k :| 0 <= k < |entries| && ToFree(entries[k]) && !unlock(k) {
      assert !Truthful(after[k]);
    } else {
      forall k | 0 <= k < |entries| ensures Truthful(after[k]) {
        assert Truthful(entries[k]) && (ToFree(entries[k]) ==> unlock(k));
        assert after[k] == Freed(entries[k], unlock(k));
      }
    }
  }
}
