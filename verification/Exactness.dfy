/** When is recovery exact?  The documentation promises that an acknowledged write survives a
    crash; replay keeps all of it only for the events characterised here. */
module Exactness {
  import opened Collections
  import opened Types
  import opened PositionStore
  import opened MarketStore
  import opened Engine
  import opened Recovery

  /** The position already carries this event's closing transaction, block and time. */
  predicate AlreadyStamped(p: Position, ie: IndexedEvent) {
    p.closeTx == Some(ie.txHash) && p.closeBlock == Some(ie.blockNumber) && p.closedAt == Some(ie.blockTimestamp)
  }

  /** The event, met in state `s`, leaves nothing that replay would not redo. */
  predicate Faithful(s: State, ie: IndexedEvent) {
    var e, rows := ie.event, s.positions.rows;
    && ie.blockNumber > 0
    && (e.PositionOpened? ==> e.entryPrice == 0 && (e.sizeUsd == 0 || e.market >= |s.markets|))
    && (e.PositionClosed? && e.positionId in rows ==>
          AlreadyStamped(rows[e.positionId], ie) && (e.closedSizeUsd == 0 || e.market >= |s.markets|))
    && (e.Liquidation? && e.positionId in rows ==> AlreadyStamped(rows[e.positionId], ie))
    && (e.PositionModified? && e.positionId in rows ==> rows[e.positionId] == Modified(e, rows[e.positionId]))
  }

  lemma AddOiIff(ms: Markets, m: nat, isLong: bool, delta: Fixed)
    ensures AddOi(ms, m, isLong, delta) == ms <==> delta == 0 || m >= |ms|
  {
    if m < |ms| {
      var after := AddOi(ms, m, isLong, delta);
      assert Oi(after[m], isLong) == Oi(ms[m], isLong) + delta;
      if delta == 0 {
        assert after[m] == ms[m];
        assert after == ms;
      }
    }
  }

  lemma UpdateIff(t: Positions, id: Hash, f: Position -> Position, g: Position -> Position)
    ensures t.Update(id, f) == t.Update(id, g) <==> (id in t.rows ==> f(t.rows[id]) == g(t.rows[id]))
  {
    if id in t.rows {
      assert t.Update(id, f).rows[id] == f(t.rows[id]) && t.Update(id, g).rows[id] == g(t.rows[id]);
    }
  }

  lemma OpenedIff(s: State, ie: IndexedEvent)
    requires ie.event.PositionOpened?
    ensures LiveOpened(s, ie) == ReplayOpened(s, ie) <==>
              ie.event.entryPrice == 0 && (ie.event.sizeUsd == 0 || ie.event.market >= |s.markets|)
  {
    var e := ie.event;
    AddOiIff(s.markets, e.market, e.isLong, e.sizeUsd);
    assert LiveOpened(s, ie).positions.rows[e.positionId].entryPrice == e.entryPrice;
    assert ReplayOpened(s, ie).positions.rows[e.positionId].entryPrice == 0;
    assert LiveOpened(s, ie).markets == AddOi(s.markets, e.market, e.isLong, e.sizeUsd);
  }

  lemma ClosedIff(s: State, ie: IndexedEvent)
    requires ie.event.PositionClosed?
    ensures LiveClosed(s, ie) == ReplayClosed(s, ie) <==>
              (ie.event.positionId in s.positions.rows ==>
                 AlreadyStamped(s.positions.rows[ie.event.positionId], ie)
                 && (ie.event.closedSizeUsd == 0 || ie.event.market >= |s.markets|))
  {
    var e := ie.event;
    UpdateIff(s.positions, e.positionId, p => CloseLive(ie, p), p => CloseReplay(e, p));
    if e.positionId in s.positions.rows {
      var p := s.positions.rows[e.positionId];
      StampIff(ie, p);
      AddOiIff(s.markets, e.market, p.isLong, -e.closedSizeUsd);
    }
  }

  lemma StampIff(ie: IndexedEvent, p: Position)
    requires ie.event.PositionClosed?
    ensures CloseLive(ie, p) == CloseReplay(ie.event, p) <==> AlreadyStamped(p, ie)
  {
    assert CloseReplay(ie.event, p).closeTx == p.closeTx && CloseReplay(ie.event, p).closeBlock == p.closeBlock
           && CloseReplay(ie.event, p).closedAt == p.closedAt;
    assert CloseLive(ie, p).closeTx == Some(ie.txHash) && CloseLive(ie, p).closeBlock == Some(ie.blockNumber)
           && CloseLive(ie, p).closedAt == Some(ie.blockTimestamp);
  }

  lemma LiquidatedIff(s: State, ie: IndexedEvent)
    requires ie.event.Liquidation?
    ensures LiveLiquidated(s, ie) == ReplayLiquidated(s, ie) <==>
              (ie.event.positionId in s.positions.rows ==> AlreadyStamped(s.positions.rows[ie.event.positionId], ie))
  {
    var e := ie.event;
    UpdateIff(s.positions, e.positionId, p => LiquidateLive(ie, p), p => LiquidateReplay(e, p));
  }

  lemma ModifiedIff(s: State, e: Event)
    requires e.PositionModified?
    ensures LiveModified(s, e) == s <==>
              (e.positionId in s.positions.rows ==>
                 s.positions.rows[e.positionId] == Modified(e, s.positions.rows[e.positionId]))
  {
    UpdateIff(s.positions, e.positionId, p => Modified(e, p), p => p);
    assert s.positions.Update(e.positionId, p => p) == s.positions;
  }

  /** One event is replayed exactly, from any state, if and only if it is faithful there. */
  lemma StepExactIff(s: State, ie: IndexedEvent)
    ensures LiveStep(s, ie) == ReplayEntry(s, 0, EventEntry(ie)) <==> Faithful(s, ie)
  {
    hide LiveOpened, LiveClosed, LiveModified, LiveLiquidated, ReplayOpened, ReplayClosed, ReplayLiquidated;
    ApplyLeavesLog(s, ie);
    if ie.blockNumber > 0 {
      LoggedInjective(LiveApply(s, ie), ReplayApply(s, ie), ie);
      match ie.event {
        case PositionOpened(_, _, _, _, _, _, _, _, _) => OpenedIff(s, ie);
        case PositionClosed(_, _, _, _, _, _, _) => ClosedIff(s, ie);
        case Liquidation(_, _, _, _, _, _) => LiquidatedIff(s, ie);
        case PositionModified(_, _, _, _) => ModifiedIff(s, ie.event);
        case _ =>
      }
    } else {
      assert LiveStep(s, ie).events.total == s.events.total + 1;
    }
  }

  lemma LoggedInjective(a: State, b: State, ie: IndexedEvent)
    requires a.events == b.events && a.checkpoint == b.checkpoint
    ensures Logged(a, ie) == Logged(b, ie) <==> a == b
  {
    assert a == Logged(a, ie).(events := a.events, checkpoint := a.checkpoint);
    assert b == Logged(b, ie).(events := b.events, checkpoint := b.checkpoint);
  }

  /** Recovery after the first `k` entries of the log is the live state itself. */
  predicate ExactAt(log: seq<WalEntry>, k: nat)
    requires AllWritten(log)
  {
    k <= |log| && LiveRun(Empty(), log[..k]) == ReplayRun(Empty(), 0, log[..k])
  }

  predicate FaithfulAt(log: seq<WalEntry>, k: nat)
    requires AllWritten(log)
  {
    k < |log| && (log[k].EventEntry? ==> Faithful(LiveRun(Empty(), log[..k]), log[k].indexed))
  }

  lemma EntryExactIff(log: seq<WalEntry>, k: nat)
    requires AllWritten(log) && k < |log| && ExactAt(log, k)
    ensures ExactAt(log, k + 1) <==> FaithfulAt(log, k)
  {
    hide LiveStep, Faithful;
    assert log[..k + 1][..k] == log[..k];
    if log[k].EventEntry? {
      StepExactIff(LiveRun(Empty(), log[..k]), log[k].indexed);
    }
  }

  /** Whatever the moment of the crash, recovery gives back the whole live state, open interest,
      entry prices and closing stamps included, if and only if every logged event was faithful. */
  lemma ExactRecoveryIff(log: seq<WalEntry>)
    requires AllWritten(log)
    ensures (forall k: nat :: k <= |log| ==> ExactAt(log, k)) <==> (forall k: nat :: k < |log| ==> FaithfulAt(log, k))
  {
    hide LiveEntry, ReplayEntry, FaithfulAt;
    assert log[..0] == [];
    forall k: nat | k < |log| && ExactAt(log, k)
      ensures ExactAt(log, k + 1) <==> FaithfulAt(log, k)
    {
      EntryExactIff(log, k);
    }
    var holds, guard := (k: nat) => ExactAt(log, k), (k: nat) => FaithfulAt(log, k);
    ThroughoutIff(holds, guard, |log|);
    assert forall k: nat :: holds(k) == ExactAt(log, k) && guard(k) == FaithfulAt(log, k);
  }

  /** A log of one opening: position 1, long 1000 in market 0 at entry price 67000, block 1. */
  function OpeningLog(): seq<WalEntry> {
    [EventEntry(IndexedEvent(1, 12, 7, 0, 0, PositionOpened(1, 10, 0, true, 1000, 10, 67000, 20, 100)))]
  }

  /** A plain opening is not faithful: the recovered position has entry price 0, the recovered
      market no open interest. */
  lemma OpeningIsLost()
    ensures AllWritten(OpeningLog()) && BlocksAbove(OpeningLog(), 0)
    ensures var live, rec := LiveRun(Empty(), OpeningLog()), ReplayRun(Empty(), 0, OpeningLog());
            && 1 in live.positions.rows && live.positions.rows[1].entryPrice == 67000
            && 1 in rec.positions.rows && rec.positions.rows[1].entryPrice == 0
            && |live.markets| == |rec.markets| == MARKET_COUNT
            && Oi(live.markets[0], true) == 1000 && Oi(rec.markets[0], true) == 0
  {
    var ie := OpeningLog()[0].indexed;
    assert OpeningLog()[..0] == [];
    assert LiveRun(Empty(), OpeningLog()) == LiveStep(Empty(), ie);
    assert ReplayRun(Empty(), 0, OpeningLog()) == Logged(ReplayApply(Empty(), ie), ie);
  }

  /** A modification is dropped by replay, so the size of a position it names is lost. */
  lemma ModificationIsLost(s: State, id: Hash, size: Fixed, ie: IndexedEvent)
    requires id in s.positions.rows && s.positions.rows[id].sizeUsd != size
    requires ie.event == PositionModified(id, size, s.positions.rows[id].collateralUsd, s.positions.rows[id].collateralAmount)
    ensures LiveStep(s, ie).positions.rows[id].sizeUsd == size
    ensures ReplayEntry(s, 0, EventEntry(ie)).positions == s.positions
    ensures !Agree(LiveStep(s, ie), ReplayEntry(s, 0, EventEntry(ie)), {}, true)
  {
  }
}
