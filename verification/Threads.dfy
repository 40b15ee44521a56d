/** The write-ahead discipline under concurrency: one indexer thread (`process_event`) and one
    price-feed thread (`ingest_tick`), each logging before it applies, interleaved freely. */
module Threads {
  import opened Collections
  import opened Types
  import opened PositionStore
  import opened MarketStore
  import opened Engine
  import opened Recovery

  /** The shared state, the log so far, and each thread's logged but not yet applied work. */
  datatype Sys = Sys(state: State, wal: seq<WalEntry>, event: Option<IndexedEvent>, tick: Option<WalEntry>)

  datatype Step =
    | LogEvent(ie: IndexedEvent)
    | ApplyEvent
    | LogTick(ns: nat, market: nat, price: real)
    | ApplyTick

  function Start(): Sys {
    Sys(Empty(), [], None, None)
  }

  ghost predicate Next(s: Sys, step: Step, t: Sys) {
    match step
    case LogEvent(ie) =>
      s.event.None? && t == s.(wal := s.wal + [EventEntry(ie)], event := Some(ie))
    case ApplyEvent =>
      s.event.Some? && t == s.(state := LiveStep(s.state, s.event.value), event := None)
    case LogTick(ns, market, price) =>
      s.tick.None? && t == s.(wal := s.wal + [TickEntry(ns, market, price)], tick := Some(TickEntry(ns, market, price)))
    case ApplyTick =>
      s.tick.Some? && s.tick.value.TickEntry? && t == s.(state := Ticked(s.state, s.tick.value), tick := None)
  }

  function Ticked(s: State, tick: WalEntry): State
    requires tick.TickEntry?
  {
    s.(markets := WithPrice(s.markets, tick.market, tick.price, tick.timestampNs))
  }

  lemma PriceCommutes(ms: Markets, t: Positions, ie: IndexedEvent, m: nat, price: real, ns: nat)
    ensures NextMarkets(WithPrice(ms, m, price, ns), t, ie) == WithPrice(NextMarkets(ms, t, ie), m, price, ns)
  {
    var x, y := NextMarkets(WithPrice(ms, m, price, ns), t, ie), WithPrice(NextMarkets(ms, t, ie), m, price, ns);
    assert |x| == |y|;
    forall i | 0 <= i < |x|
      ensures x[i] == y[i]
    {
    }
  }

  /** Applying an event and applying a tick commute: they write different fields. */
  lemma StepsCommute(s: State, ie: IndexedEvent, tick: WalEntry)
    requires tick.TickEntry?
    ensures LiveStep(Ticked(s, tick), ie) == Ticked(LiveStep(s, ie), tick)
  {
    hide LiveApply, NextPositions, NextOrders, NextBalances, NextUsers, NextTraders, NextDaily, NextMarkets;
    StoreByStore(s, ie);
    StoreByStore(Ticked(s, tick), ie);
    PriceCommutes(s.markets, s.positions, ie, tick.market, tick.price, tick.timestampNs);
  }

  /** The state once both threads have finished what they logged. */
  function Finished(s: Sys): State
    requires s.tick.Some? ==> s.tick.value.TickEntry?
  {
    var e := if s.event.Some? then LiveStep(s.state, s.event.value) else s.state;
    if s.tick.Some? then Ticked(e, s.tick.value) else e
  }

  /** Finishing the work in flight gives the live run of the log, in logged order. */
  ghost predicate Inv(s: Sys) {
    && AllWritten(s.wal)
    && (s.event.Some? ==> EventEntry(s.event.value) in s.wal)
    && (s.tick.Some? ==> s.tick.value.TickEntry? && s.tick.value in s.wal)
    && Finished(s) == LiveRun(Empty(), s.wal)
  }

  lemma LoggedOnce(wal: seq<WalEntry>, entry: WalEntry)
    requires AllWritten(wal) && Written(entry)
    ensures AllWritten(wal + [entry]) && entry in wal + [entry] && forall x :: x in wal ==> x in wal + [entry]
    ensures LiveRun(Empty(), wal + [entry]) == LiveEntry(LiveRun(Empty(), wal), entry)
  {
    hide LiveEntry;
    assert (wal + [entry])[..|wal|] == wal;
  }

  lemma InvNext(s: Sys, step: Step, t: Sys)
    requires Inv(s) && Next(s, step, t)
    ensures Inv(t)
  {
    hide LiveStep, LiveRun;
    match step {
      case LogEvent(ie) =>
        LoggedOnce(s.wal, EventEntry(ie));
        if s.tick.Some? {
          StepsCommute(s.state, ie, s.tick.value);
        }
      case LogTick(ns, market, price) =>
        LoggedOnce(s.wal, TickEntry(ns, market, price));
      case ApplyEvent =>
      case ApplyTick =>
        if s.event.Some? {
          StepsCommute(s.state, s.event.value, s.tick.value);
        }
    }
  }

  /** A run: the states it passes through and the steps between them. */
  ghost predicate IsRun(states: seq<Sys>, steps: seq<Step>) {
    && |states| == |steps| + 1 && states[0] == Start()
    && forall i :: 0 <= i < |steps| ==> Next(states[i], steps[i], states[i + 1])
  }

  lemma {:induction false} InvAlongRun(states: seq<Sys>, steps: seq<Step>, i: nat)
    requires IsRun(states, steps) && i < |states|
    ensures Inv(states[i])
  {
    if i == 0 {
      assert Finished(Start()) == LiveRun(Empty(), []);
    } else {
      InvAlongRun(states, steps, i - 1);
      InvNext(states[i - 1], steps[i - 1], states[i]);
    }
  }

  /** In every interleaving, what is applied was logged first: at each moment the log replays to
      the state reached by finishing the work in flight.  A crash there loses nothing applied. */
  lemma CrashDuringRun(states: seq<Sys>, steps: seq<Step>, i: nat)
    requires IsRun(states, steps) && i < |states| && BlocksAbove(states[i].wal, 0)
    ensures Inv(states[i])
    ensures Agree(Finished(states[i]), ReplayRun(Empty(), 0, states[i].wal), Dirty(states[i].wal), true)
  {
    InvAlongRun(states, steps, i);
    WalRecoveryIff(states[i].wal);
  }

  /** At quiescence the live state, latest prices included, is what replaying the log rebuilds. */
  lemma QuiescentRun(states: seq<Sys>, steps: seq<Step>)
    requires IsRun(states, steps)
    requires var end := states[|steps|]; end.event.None? && end.tick.None? && BlocksAbove(end.wal, 0)
    ensures var end := states[|steps|];
            && Agree(end.state, ReplayRun(Empty(), 0, end.wal), Dirty(end.wal), true)
            && |end.state.markets| == |ReplayRun(Empty(), 0, end.wal).markets|
            && forall m :: 0 <= m < |end.state.markets| ==>
                 end.state.markets[m].price == ReplayRun(Empty(), 0, end.wal).markets[m].price
  {
    CrashDuringRun(states, steps, |steps|);
    var end := states[|steps|];
    var rec := ReplayRun(Empty(), 0, end.wal);
    forall m | 0 <= m < |end.state.markets|
      ensures end.state.markets[m].price == rec.markets[m].price
    {
      assert WithoutOi(end.state.markets[m]) == WithoutOi(rec.markets[m]);
    }
  }
}
