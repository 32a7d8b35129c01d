/** Running streams packet by packet. */
module StreamMeaning {
  import opened Pm4
  import opened CommandProcessor
  import opened Submissions

  function IbEvent(st: State, ib: IbRef): Event {
    RunIb(ib.addr, ib.dwords, st.secure, st.guarded)
  }

  function Extend(st: State, es: seq<Event>): State {
    st.(events := st.events + es)
  }

  function Maybe(c: bool, e: Event): seq<Event> {
    if c then [e] else []
  }

  lemma ExtendTwice(st: State, a: seq<Event>, b: seq<Event>)
    ensures Extend(Extend(st, a), b) == Extend(st, a + b)
  {
    assert st.events + a + b == st.events + (a + b);
  }

  lemma ExtendNothing(st: State)
    ensures Extend(st, []) == st
  {
    assert st.events + [] == st.events;
  }

  /** Packets that do nothing. */
  predicate Silent(p: Packet) {
    (p.h.Type7? || p.h.Type3?) && p.h.op == CP_NOP
  }

  /** Packets that are only noted. */
  predicate IsControl(p: Packet) {
    && (p.h.Type7? || p.h.Type3?)
    && (|| p.h.op == CP_WAIT_MEM_WRITES || p.h.op == CP_WAIT_FOR_ME || p.h.op == CP_WAIT_FOR_IDLE
        || p.h.op == CP_YIELD_ENABLE || p.h.op == CP_SET_RENDER_MODE
        || p.h.op == CP_SET_CONSTANT || p.h.op == CP_INVALIDATE_STATE)
  }

  function ControlEvent(p: Packet): Event
    requires IsControl(p)
  {
    Control(p.h.op, Values(p.payload))
  }

  lemma ExecControl(st: State, p: Packet)
    requires IsControl(p)
    ensures Exec(st, p) == Note(st, ControlEvent(p))
  {}

  lemma RunControl(st: State, ps: seq<Packet>, p: Packet)
    requires IsControl(p)
    ensures Run(st, ps + [p]) == Note(Run(st, ps), ControlEvent(p))
  {
    RunSnoc(st, ps, p);
    ExecControl(Run(st, ps), p);
  }

  lemma MaybeControl(st: State, ps: seq<Packet>, c: bool, p: Packet)
    requires IsControl(p)
    ensures Run(st, if c then ps + [p] else ps) == Extend(Run(st, ps), Maybe(c, ControlEvent(p)))
  {
    if c { RunControl(st, ps, p); }
  }

  lemma RunSilent(st: State, ps: seq<Packet>, p: Packet)
    requires Silent(p)
    ensures Run(st, ps + [p]) == Run(st, ps)
  {
    RunSnoc(st, ps, p);
    ExecSilent(Run(st, ps), p);
  }

  lemma ExecSilent(st: State, p: Packet)
    requires Silent(p)
    ensures Exec(st, p) == st
  {}

  lemma RunFirst(st: State, p: Packet)
    requires Silent(p)
    ensures Run(st, [p]) == st
  {
    RunSilent(st, [], p);
    assert [] + [p] == [p];
  }

  // ----------------------------------------------------- lists of IBs

  function EventsOf(st: State, ibs: seq<Ib>, event: (State, Ib) -> Event): seq<Event> {
    seq(|ibs|, i requires 0 <= i < |ibs| => event(st, ibs[i]))
  }

  /** A skipped IB does nothing, any other is what `event` says, whatever came before it. */
  ghost predicate IbMeans(packet: (Ib, bool) -> Packet, event: (State, Ib) -> Event) {
    && (forall st: State, ib: Ib :: Exec(st, packet(ib, true)) == st)
    && (forall st: State, ib: Ib :: Exec(st, packet(ib, false)) == st.(events := st.events + [event(st, ib)]))
    && (forall st: State, es: seq<Event>, ib: Ib :: event(st.(events := es), ib) == event(st, ib))
  }

  /** A list of IBs runs exactly those that are not to be skipped, in list order. */
  lemma {:induction false} IbListMeaning(flags: Flags, ibs: seq<Ib>, ps: seq<Packet>, st: State,
                                         packet: (Ib, bool) -> Packet, event: (State, Ib) -> Event)
    requires IbMeans(packet, event)
    ensures Run(st, IbList(flags, ibs, ps, packet))
         == Extend(Run(st, ps), EventsOf(Run(st, ps), Kept(flags, ibs), event))
  {
    var st1 := Run(st, ps);
    if ibs == [] {
      assert EventsOf(st1, Kept(flags, ibs), event) == [];
    } else {
      var init, ib := ibs[..|ibs| - 1], ibs[|ibs| - 1];
      IbListMeaning(flags, init, ps, st, packet, event);
      var before, kept := IbList(flags, init, ps, packet), Kept(flags, init);
      hide Exec, Run;
      RunSnoc(st, before, packet(ib, Skipped(flags, ib)));
      assert event(Run(st, before), ib) == event(st1, ib);
      assert EventsOf(st1, kept + [ib], event) == EventsOf(st1, kept, event) + [event(st1, ib)];
      ExtendTwice(st1, EventsOf(st1, kept, event), [event(st1, ib)]);
    }
  }
}
