/** A whole ring buffer, from the empty one on, is a ring of the preemption model. */
module A5xxHistory {
  import opened Wrappers
  import opened Pm4
  import opened CommandProcessor
  import opened Submissions
  import opened StreamMeaning
  import opened A5xxStream
  import opened A5xxMeaning
  import opened A5xxBridge
  import opened Ringbuffers
  import R = A5xxRingbuffer
  import M = PreemptModel

  // ------------------------------------------------ the third submitter

  /** The payload of a5xx_counter_inline_enable. */
  function CounterPayload(select: nat, countable: nat): seq<Packet> {
    [WaitForIdle(), Reg(select, countable)]
  }

  function CounterCmds(t: Target, ring: RingAddresses, select: nat, countable: nat, ts: nat, sequence: nat): seq<Packet> {
    var s := Submission(ring, None, NoFlags.(notProtected := true), 0, ts, sequence, None, None);
    AddCmds(t, s, CounterPayload(select, countable)) + R.Report(t, ring)
  }

  /** A select register is none of those that the CP itself obeys. */
  predicate IsSelect(reg: nat) {
    && reg != A5XX_CP_CNTL
    && reg != A5XX_CP_CONTEXT_SWITCH_SAVE_ADDR_LO && reg != A5XX_CP_CONTEXT_SWITCH_SAVE_ADDR_HI
  }

  function CounterTrace(select: nat, countable: nat): seq<Event> {
    [IdleWait, WriteRegisters(select, [countable])]
  }

  lemma CounterPayloadMeaning(select: nat, countable: nat, st: State)
    requires !st.guarded && IsSelect(select)
    ensures Run(st, CounterPayload(select, countable)) == Extend(st, CounterTrace(select, countable))
  {
    ControlEvents(0);
    var ps := [WaitForIdle()];
    assert [] + ps == ps && Run(st, []) == st;
    RunControl(st, [], WaitForIdle());
    assert CounterPayload(select, countable) == ps + [Reg(select, countable)];
    RunSnoc(st, ps, Reg(select, countable));
    assert Values(Reg(select, countable).payload) == [countable];
  }

  lemma OpenedUnguarded(t: Target, s: Submission, st: State)
    requires AtRest(st) && s.flags.notProtected
    ensures !Opened(t, s, st).guarded
  {
    OpenedTrace(t, s, st);
    hide Run, Opened, OpeningTrace;
  }

  /** Enabling a counter on ring i is an entry that saves to record i and leaves the table alone. */
  lemma CounterRealisesEntry(t: Target, rings: seq<RingAddresses>, i: nat, select: nat, countable: nat,
                             ts: nat, sequence: nat, st: State)
    requires t.preemption && i < |rings| && AtRest(st) && IsSelect(select)
    ensures var fin := Run(st, CounterCmds(t, rings[i], select, countable, ts, sequence));
      AtRest(fin) && Realises(M.Entry(i, None, i, M.EnableCounter), rings, st, fin)
  {
    var s := Submission(rings[i], None, NoFlags.(notProtected := true), 0, ts, sequence, None, None);
    var payload, trace := CounterPayload(select, countable), CounterTrace(select, countable);
    OpenedUnguarded(t, s, st);
    hide Run, AddCmds, Opened, OpeningTrace, ClosingTrace, R.Report, Realises, AtRest, CounterPayload;
    CounterPayloadMeaning(select, countable, Opened(t, s, st));
    ReportIsSilent(t, rings[i], st, AddCmds(t, s, payload));
    SubmissionMeaning(t, s, payload, trace, st);
    NoTableEvents(trace);
    SubmissionRealises(t, s, rings, i, M.Entry(i, None, i, M.EnableCounter), trace, st,
      Run(st, CounterCmds(t, rings[i], select, countable, ts, sequence)));
  }

  // ------------------------------------------------------------ orders

  /** What is asked of a ring, with the counters and addresses that the code supplies; `ok` is whether a switch is accepted. */
  datatype Order =
    | SwitchTo(ctx: Context, ok: bool, ts: nat, sequence: nat)
    | DrawOf(obj: DrawObj, flags: Flags, slots: bool, slot: nat, ts: nat, sequence: nat, pre: Option<IbRef>, post: Option<IbRef>)
    | CounterOf(select: nat, countable: nat, ts: nat, sequence: nat)

  function Known(ctx: Context): M.Context {
    M.Context(ctx.id, ctx.ttbr0)
  }

  /** A draw follows the switch to its context; counters go to ring 0. */
  predicate InOrder(d: M.Device, i: nat, o: Order)
    requires i < |d.rings|
  {
    match o
    case SwitchTo(_, _, _, _) => true
    case DrawOf(obj, _, _, _, _, _, _, _) => d.rings[i].active == Some(Known(obj.ctx))
    case CounterOf(select, _, _, _) => i == 0 && IsSelect(select)
  }

  /** The preemption model's side of an order. */
  function Modelled(d: M.Device, i: nat, o: Order): (d': M.Device)
    requires i < |d.rings| && InOrder(d, i, o)
    ensures |d'.rings| == |d.rings|
  {
    match o
    case SwitchTo(ctx, ok, _, _) => M.DrawctxtSwitch(d, i, Known(ctx), ok)
    case DrawOf(obj, _, _, _, _, _, _, _) => M.AddDraw(d, i, Known(obj.ctx))
    case CounterOf(_, _, _, _) => M.AddCounter(d)
  }

  /** The ring buffer's side of it: the packets it adds, if any. */
  function Emitted(t: Target, ring: RingAddresses, d: M.Device, i: nat, o: Order): seq<seq<Packet>>
    requires i < |d.rings|
  {
    match o
    case SwitchTo(ctx, ok, ts, sequence) =>
      if !ok || d.rings[i].active == Some(Known(ctx)) then []
      else [R.SwitchCmds(t, ring, ctx, M.TableUpdate(d, i, Known(ctx)).Some?, ts, sequence)]
    case DrawOf(obj, flags, slots, slot, ts, sequence, pre, post) =>
      [R.DrawCmds(t, ring, obj, flags, slots, slot, ts, sequence, pre, post)]
    case CounterOf(select, countable, ts, sequence) => [CounterCmds(t, ring, select, countable, ts, sequence)]
  }

  predicate AllInOrder(d: M.Device, i: nat, os: seq<Order>)
    requires i < |d.rings|
    decreases |os|
  {
    os == [] || (InOrder(d, i, os[0]) && AllInOrder(Modelled(d, i, os[0]), i, os[1..]))
  }

  function AllModelled(d: M.Device, i: nat, os: seq<Order>): (d': M.Device)
    requires i < |d.rings| && AllInOrder(d, i, os)
    ensures |d'.rings| == |d.rings|
    decreases |os|
  {
    if os == [] then d else AllModelled(Modelled(d, i, os[0]), i, os[1..])
  }

  function AllEmitted(t: Target, ring: RingAddresses, d: M.Device, i: nat, os: seq<Order>): seq<seq<Packet>>
    requires i < |d.rings| && AllInOrder(d, i, os)
    decreases |os|
  {
    if os == [] then []
    else Emitted(t, ring, d, i, os[0]) + AllEmitted(t, ring, Modelled(d, i, os[0]), i, os[1..])
  }

  // -------------------------------------------------------- order by order

  /** `states` leads from the first to the last by what the entries stand for, one after the other. */
  ghost predicate Traces(mem: seq<M.Entry>, rings: seq<RingAddresses>, states: seq<State>) {
    && |states| == |mem| + 1
    && forall k | 0 <= k < |mem| :: AtRest(states[k]) && Realises(mem[k], rings, states[k], states[k + 1])
  }

  function RunAll(st: State, pss: seq<seq<Packet>>): State
    decreases |pss|
  {
    if pss == [] then st else RunAll(Run(st, pss[0]), pss[1..])
  }

  lemma SwitchOrder(t: Target, rings: seq<RingAddresses>, d: M.Device, i: nat, ctx: Context, ts: nat, sequence: nat, st: State)
    requires t.preemption && i < |rings| && i < |d.rings| && AtRest(st)
    ensures var c := Known(ctx);
      var fin := Run(st, R.SwitchCmds(t, rings[i], ctx, M.TableUpdate(d, i, c).Some?, ts, sequence));
      AtRest(fin) && Realises(M.Entry(i, M.TableUpdate(d, i, c), i, M.SwitchTo(c)), rings, st, fin)
  {
    var active := match d.rings[i].active
      case None => None
      case Some(a) => Some(Context(a.id, a.ttbr0, false, 0, 0, 0));
    SwitchRealisesEntry(t, rings, i, active, ctx, d.defaultTtbr0, ts, sequence, d, st);
    hide R.SwitchCmds, Realises, Run, AtRest;
    assert R.NewTable(active, ctx, d.defaultTtbr0) == M.TableUpdate(d, i, Known(ctx)).Some?;
  }

  /** Nothing emitted, nothing appended; or one stream and the entry that it realises. */
  lemma OneOrder(t: Target, rings: seq<RingAddresses>, d: M.Device, i: nat, o: Order, st: State)
    requires t.preemption && i < |rings| && i < |d.rings| && AtRest(st) && InOrder(d, i, o)
    ensures var mem, mem1, pss := d.rings[i].mem, Modelled(d, i, o).rings[i].mem, Emitted(t, rings[i], d, i, o);
      if pss == [] then mem1 == mem
      else
        && |pss| == 1 && |mem1| == |mem| + 1 && mem1[..|mem|] == mem
        && AtRest(Run(st, pss[0])) && Realises(mem1[|mem|], rings, st, Run(st, pss[0]))
  {
    hide Realises, Run, AtRest, R.SwitchCmds, R.DrawCmds, CounterCmds;
    match o
    case SwitchTo(ctx, ok, ts, sequence) =>
      SwitchOrder(t, rings, d, i, ctx, ts, sequence, st);
    case DrawOf(obj, flags, slots, slot, ts, sequence, pre, post) =>
      DrawRealisesEntry(t, rings, i, obj, flags, slots, slot, ts, sequence, pre, post, st);
    case CounterOf(select, countable, ts, sequence) =>
      CounterRealisesEntry(t, rings, i, select, countable, ts, sequence, st);
  }

  lemma TracesOneMore(mem: seq<M.Entry>, e: M.Entry, rings: seq<RingAddresses>, states: seq<State>, st: State)
    requires Traces(mem, rings, states) && AtRest(states[|mem|]) && Realises(e, rings, states[|mem|], st)
    ensures Traces(mem + [e], rings, states + [st])
  {
    hide AtRest, Realises;
    var mem1, states1 := mem + [e], states + [st];
    forall k | 0 <= k < |mem1| ensures AtRest(states1[k]) && Realises(mem1[k], rings, states1[k], states1[k + 1]) {
      if k < |mem| {
        assert mem1[k] == mem[k] && states1[k] == states[k] && states1[k + 1] == states[k + 1];
      }
    }
  }

  /** The trace goes on over what one order appends. */
  lemma OrderIsTraced(t: Target, rings: seq<RingAddresses>, d: M.Device, i: nat, o: Order, before: seq<State>)
    returns (states: seq<State>)
    requires t.preemption && i < |rings| && i < |d.rings| && InOrder(d, i, o)
    requires Traces(d.rings[i].mem, rings, before) && AtRest(before[|before| - 1])
    ensures Traces(Modelled(d, i, o).rings[i].mem, rings, states) && states[0] == before[0]
    ensures AtRest(states[|states| - 1])
    ensures states[|states| - 1] == RunAll(before[|before| - 1], Emitted(t, rings[i], d, i, o))
  {
    var last, pss := before[|before| - 1], Emitted(t, rings[i], d, i, o);
    var mem, mem1 := d.rings[i].mem, Modelled(d, i, o).rings[i].mem;
    OneOrder(t, rings, d, i, o, last);
    hide Realises, AtRest, Modelled, Emitted, InOrder, Run;
    if pss == [] {
      states := before;
    } else {
      TracesOneMore(mem, mem1[|mem|], rings, before, Run(last, pss[0]));
      assert mem + [mem1[|mem|]] == mem1 && pss[1..] == [];
      states := before + [Run(last, pss[0])];
    }
  }

  lemma {:induction false} RunAllConcat(st: State, a: seq<seq<Packet>>, b: seq<seq<Packet>>)
    ensures RunAll(st, a + b) == RunAll(RunAll(st, a), b)
    decreases |a|
  {
    hide Run;
    if a == [] {
      assert a + b == b;
    } else {
      assert (a + b)[1..] == a[1..] + b;
      RunAllConcat(Run(st, a[0]), a[1..], b);
    }
  }

  /** Running what is emitted for a list of orders passes through what the model appends for it. */
  lemma {:induction false} OrdersAreTraced(t: Target, rings: seq<RingAddresses>, d: M.Device, i: nat, os: seq<Order>,
                                           before: seq<State>) returns (states: seq<State>)
    requires t.preemption && i < |rings| && i < |d.rings| && AllInOrder(d, i, os)
    requires Traces(d.rings[i].mem, rings, before) && AtRest(before[|before| - 1])
    ensures Traces(AllModelled(d, i, os).rings[i].mem, rings, states) && states[0] == before[0]
    ensures states[|states| - 1] == RunAll(before[|before| - 1], AllEmitted(t, rings[i], d, i, os))
    decreases |os|
  {
    hide Realises, AtRest, Modelled, Emitted, InOrder, Run;
    if os == [] {
      states := before;
    } else {
      var d1, last := Modelled(d, i, os[0]), before[|before| - 1];
      var mid := OrderIsTraced(t, rings, d, i, os[0], before);
      states := OrdersAreTraced(t, rings, d1, i, os[1..], mid);
      RunAllConcat(last, Emitted(t, rings[i], d, i, os[0]), AllEmitted(t, rings[i], d1, i, os[1..]));
    }
  }

  // ------------------------------------------------------ the buffer's side

  /** The streams that were added, in order. */
  function AddsOf(changes: seq<Change>): seq<seq<Packet>> {
    if changes == [] then []
    else
      var init, c := changes[..|changes| - 1], changes[|changes| - 1];
      if c.Add? then AddsOf(init) + [c.ps] else AddsOf(init)
  }

  lemma RunAllOne(st: State, ps: seq<Packet>)
    ensures RunAll(st, [ps]) == Run(st, ps)
  {
    assert [ps][1..] == [];
  }

  lemma {:induction false} AddedIsRunAll(st: State, changes: seq<Change>)
    ensures Run(st, Added(changes)) == RunAll(st, AddsOf(changes))
  {
    if changes != [] {
      var init, c := changes[..|changes| - 1], changes[|changes| - 1];
      AddedIsRunAll(st, init);
      hide Run;
      if c.Add? {
        RunConcat(st, Added(init), c.ps);
        RunAllConcat(st, AddsOf(init), [c.ps]);
        RunAllOne(RunAll(st, AddsOf(init)), c.ps);
      }
    }
  }

  /**
   The ring buffer is the ring of the model. However submissions and the CP
   alternate on a buffer that started empty: if the streams added to it are those
   for a list of orders, then what the CP has read followed by what it has still
   to read passes, from one rest state to the next, through exactly the entries
   that the preemption model has appended to its ring for the same orders.
   */
  lemma BufferIsModelRing(t: Target, rings: seq<RingAddresses>, d: M.Device, i: nat, os: seq<Order>,
                          contents: seq<seq<Word>>, changes: seq<Change>, st: State)
    returns (states: seq<State>)
    requires t.preemption && i < |rings| && i < |d.rings| && d.rings[i].mem == [] && AllInOrder(d, i, os)
    requires History(contents, changes) && AddsOf(changes) == AllEmitted(t, rings[i], d, i, os)
    requires AtRest(st)
    ensures Parse(contents[|changes|]).Some?
    ensures Traces(AllModelled(d, i, os).rings[i].mem, rings, states) && states[0] == st
    ensures states[|states| - 1] == Run(Run(st, Consumed(contents, changes)), Parse(contents[|changes|]).value)
  {
    hide Realises, AtRest, Run, Parse, Modelled, Emitted, InOrder;
    RingStaysReadable(contents, changes, st);
    AddedIsRunAll(st, changes);
    states := OrdersAreTraced(t, rings, d, i, os, [st]);
  }

  // -------------------------------------------------------- the register

  /**
   The WPTR register is that of the model. `at` says at which dword of ring i a
   position of the model lies; what a5xx_ringbuffer_submit leaves in the
   register and in rb->wptr is then where the model's publication leaves them.
   */
  lemma SubmitIsPublish(d: M.Device, i: nat, at: nat -> nat, was: nat, now: nat, wptr: nat)
    requires i < |d.rings| && was == at(d.cp.wptr) && wptr == at(|d.rings[i].mem|)
    requires d.state == M.NONE && d.cur == i ==> now == wptr
    requires d.state != M.NONE || d.cur != i ==> now == was
    ensures now == at(M.Publish(d, i).cp.wptr) && wptr == at(M.Publish(d, i).rings[i].wptr)
  {}

  /** a5xx_ringbuffer_submit with preemption, on a ring whose written part ends where the model's does. */
  method SubmitAsModelled(gpu: Gpu, rb: Ringbuffer, ghost d: M.Device, ghost at: nat -> nat) returns (ret: Outcome)
    requires rb.Valid() && rb.id < |d.rings|
    requires gpu.none == (d.state == M.NONE) && gpu.current == d.cur
    requires gpu.wptrRegister == at(d.cp.wptr) && rb.cursor == at(|d.rings[rb.id].mem|)
    modifies rb`cursor, rb`wptr, rb.buffer, gpu`wptrRegister
    ensures rb.Valid() && ret.Done?
    ensures gpu.wptrRegister == at(M.Publish(d, rb.id).cp.wptr) && rb.wptr == at(M.Publish(d, rb.id).rings[rb.id].wptr)
    ensures rb.Stream() == old(rb.Stream())
  {
    ghost var was, cursor := gpu.wptrRegister, rb.cursor;
    ret := R.Submit(gpu, rb, false);
    SubmitIsPublish(d, rb.id, at, was, gpu.wptrRegister, rb.wptr);
  }
}
