/** Crash recovery: how the state rebuilt from the write-ahead log relates to the live state. */
module Recovery {
  import opened Collections
  import opened Types
  import opened PositionStore
  import opened OrderStore
  import opened BalanceStore
  import opened UserStore
  import opened StatsStore
  import opened MarketStore
  import opened Engine

  /* ---------- what recovery promises ---------- */

  /** A position without what replay does not redo (entry price, closing transaction, block and
      time) and without its sizes. */
  function Core(p: Position): Position {
    p.(entryPrice := 0, closeTx := None, closeBlock := None, closedAt := None,
       sizeUsd := 0, collateralUsd := 0, collateralAmount := 0)
  }

  predicate SameSizes(p: Position, q: Position) {
    p.sizeUsd == q.sizeUsd && p.collateralUsd == q.collateralUsd && p.collateralAmount == q.collateralAmount
  }

  /** Same positions and indexes; sizes too, except for the `dirty` ids. */
  ghost predicate SamePositions(a: Positions, b: Positions, dirty: set<Hash>) {
    && a.rows.Keys == b.rows.Keys && a.byUser == b.byUser && a.byMarket == b.byMarket
    && (forall id :: id in a.rows ==> Core(a.rows[id]) == Core(b.rows[id]))
    && (forall id :: id in a.rows && id !in dirty ==> SameSizes(a.rows[id], b.rows[id]))
  }

  ghost predicate SameOrders(a: Orders, b: Orders) {
    a.rows == b.rows && a.byUser == b.byUser && SameBooks(a.books, b.books)
  }

  /** A market without its open interest. */
  function WithoutOi(slot: MarketSlot): MarketSlot {
    slot.(inner := slot.inner.(longOi := 0, shortOi := 0))
  }

  ghost predicate SameMarkets(a: Markets, b: Markets) {
    |a| == |b| && forall m :: 0 <= m < |a| ==> WithoutOi(a[m]) == WithoutOi(b[m])
  }

  /** The recovered state `b` agrees with the live state `a`: orders, books, balances, users,
      statistics, funding, prices, pause flags, checkpoint, and each position's identity, status,
      exit price and realized pnl; sizes and collateral of every position outside `dirty`; and the
      event log when `log` is set. */
  ghost predicate Agree(a: State, b: State, dirty: set<Hash>, log: bool) {
    && SamePositions(a.positions, b.positions, dirty)
    && SameOrders(a.orders, b.orders)
    && a.balances == b.balances && a.users == b.users && a.traders == b.traders && a.daily == b.daily
    && SameMarkets(a.markets, b.markets)
    && a.checkpoint == b.checkpoint
    && (log ==> a.events == b.events)
  }

  /** Ids named by a modification; replay drops that event. */
  function DirtyAfter(dirty: set<Hash>, e: Event): set<Hash> {
    if e.PositionModified? then dirty + {e.positionId} else dirty
  }

  function Dirty(log: seq<WalEntry>): set<Hash> {
    if log == [] then {}
    else
      var before := Dirty(log[..|log| - 1]);
      if log[|log| - 1].EventEntry? then DirtyAfter(before, log[|log| - 1].indexed.event) else before
  }

  /* ---------- one event keeps the agreement ---------- */

  lemma SameLevelsAdd(a: Levels, b: Levels, price: Fixed, id: Hash)
    requires SameLevels(a, b)
    ensures SameLevels(AddTo(a, price, id), AddTo(b, price, id))
  {
  }

  lemma SameLevelsRemove(a: Levels, b: Levels, price: Fixed, id: Hash)
    requires SameLevels(a, b)
    ensures SameLevels(RemoveFrom(a, price, id), RemoveFrom(b, price, id))
  {
    if price in a {
      var x, y := Retain(a[price], id), Retain(b[price], id);
      assert multiset(x) == multiset(y);
      assert |multiset(x)| == |x| && |multiset(y)| == |y|;
    }
  }

  lemma SameOrdersInsert(a: Orders, b: Orders, o: Order)
    requires SameOrders(a, b)
    ensures SameOrders(a.Insert(o), b.Insert(o))
  {
    if o.market < |a.books| {
      SameLevelsAdd(a.books[o.market].bids, b.books[o.market].bids, o.triggerPrice, o.orderId);
      SameLevelsAdd(a.books[o.market].asks, b.books[o.market].asks, o.triggerPrice, o.orderId);
    }
  }

  lemma SameBooksOff(a: Orders, b: Orders, o: Order)
    requires SameOrders(a, b)
    ensures SameBooks(a.TakeOffBook(o), b.TakeOffBook(o))
  {
    if o.market < |a.books| {
      SameLevelsRemove(a.books[o.market].bids, b.books[o.market].bids, o.triggerPrice, o.orderId);
      SameLevelsRemove(a.books[o.market].asks, b.books[o.market].asks, o.triggerPrice, o.orderId);
    }
  }

  lemma SameOrdersCancel(a: Orders, b: Orders, id: Hash)
    requires SameOrders(a, b)
    ensures SameOrders(a.Cancel(id), b.Cancel(id))
  {
    if id in a.rows {
      SameBooksOff(a, b, a.rows[id].(orderId := id));
    }
  }

  lemma SameOrdersExecute(a: Orders, b: Orders, id: Hash, price: Fixed, position: Hash, at: nat)
    requires SameOrders(a, b)
    ensures SameOrders(a.Execute(id, price, position, at), b.Execute(id, price, position, at))
  {
    if id in a.rows {
      SameBooksOff(a, b, a.rows[id].(orderId := id));
    }
  }

  lemma SamePositionsInsert(a: Positions, b: Positions, p: Position, q: Position, dirty: set<Hash>)
    requires SamePositions(a, b, dirty)
    requires Core(p) == Core(q) && SameSizes(p, q)
    requires p.positionId == q.positionId && p.user == q.user && p.market == q.market
    ensures SamePositions(a.Insert(p), b.Insert(q), dirty)
  {
  }

  /** Two callbacks that agree on one row keep the tables in agreement. */
  lemma SamePositionsUpdate(a: Positions, b: Positions, id: Hash, f: Position -> Position, g: Position -> Position,
                            dirty: set<Hash>)
    requires SamePositions(a, b, dirty)
    requires id in a.rows ==> Core(f(a.rows[id])) == Core(g(b.rows[id]))
    requires id in a.rows && id !in dirty ==> SameSizes(f(a.rows[id]), g(b.rows[id]))
    ensures SamePositions(a.Update(id, f), b.Update(id, g), dirty)
  {
  }

  lemma SameClose(ie: IndexedEvent, p: Position, q: Position)
    requires ie.event.PositionClosed? && Core(p) == Core(q)
    ensures Core(CloseLive(ie, p)) == Core(CloseReplay(ie.event, q))
    ensures SameSizes(p, q) ==> SameSizes(CloseLive(ie, p), CloseReplay(ie.event, q))
  {
    var e := ie.event;
    assert Core(CloseLive(ie, p))
        == Core(p).(exitPrice := Some(e.exitPrice), realizedPnl := Some(e.realizedPnl),
                    status := if e.isFullClose then Closed else Core(p).status);
    assert Core(CloseReplay(e, q))
        == Core(q).(exitPrice := Some(e.exitPrice), realizedPnl := Some(e.realizedPnl),
                    status := if e.isFullClose then Closed else Core(q).status);
  }

  lemma SameLiquidation(ie: IndexedEvent, p: Position, q: Position)
    requires ie.event.Liquidation? && Core(p) == Core(q)
    ensures Core(LiquidateLive(ie, p)) == Core(LiquidateReplay(ie.event, q))
  {
    var e := ie.event;
    assert Core(LiquidateLive(ie, p)) == Core(p).(status := Liquidated, exitPrice := Some(e.liquidationPrice));
    assert Core(LiquidateReplay(e, q)) == Core(q).(status := Liquidated, exitPrice := Some(e.liquidationPrice));
  }

  lemma SameInner(i: MarketInner, j: MarketInner)
    requires i.(longOi := 0, shortOi := 0) == j.(longOi := 0, shortOi := 0)
    ensures i == j.(longOi := i.longOi, shortOi := i.shortOi)
  {
    assert i == i.(longOi := 0, shortOi := 0).(longOi := i.longOi, shortOi := i.shortOi);
    assert j.(longOi := i.longOi, shortOi := i.shortOi)
        == j.(longOi := 0, shortOi := 0).(longOi := i.longOi, shortOi := i.shortOi);
  }

  /** Two market writes that agree up to open interest keep the tables in agreement. */
  lemma SameMarketsInner(a: Markets, b: Markets, m: nat, f: MarketInner -> MarketInner, g: MarketInner -> MarketInner)
    requires SameMarkets(a, b)
    requires forall i: MarketInner, j: MarketInner :: i == j.(longOi := i.longOi, shortOi := i.shortOi) ==>
               f(i).(longOi := 0, shortOi := 0) == g(j).(longOi := 0, shortOi := 0)
    ensures SameMarkets(WithInner(a, m, f), WithInner(b, m, g))
  {
    if m < |a| {
      assert WithoutOi(a[m]) == WithoutOi(b[m]);
      SameInner(a[m].inner, b[m].inner);
      assert f(a[m].inner).(longOi := 0, shortOi := 0) == g(b[m].inner).(longOi := 0, shortOi := 0);
    }
  }

  /** Open interest is outside the agreement, so adding to it on one side changes nothing. */
  lemma SameMarketsOi(a: Markets, b: Markets, m: nat, isLong: bool, delta: Fixed)
    requires SameMarkets(a, b)
    ensures SameMarkets(AddOi(a, m, isLong, delta), b)
  {
    if m < |a| {
      var i := a[m].inner;
      assert WithoutOi(a[m]) == WithoutOi(b[m]);
      assert WithoutOi(AddOi(a, m, isLong, delta)[m]) == WithoutOi(a[m]);
    }
  }

  lemma AgreeOpened(a: State, b: State, ie: IndexedEvent, dirty: set<Hash>, log: bool)
    requires ie.event.PositionOpened? && Agree(a, b, dirty, log)
    ensures Agree(LiveOpened(a, ie), ReplayOpened(b, ie), dirty, log)
  {
    var e := ie.event;
    SamePositionsInsert(a.positions, b.positions, NewPosition(ie, e.entryPrice), NewPosition(ie, 0), dirty);
    SameMarketsOi(a.markets, b.markets, e.market, e.isLong, e.sizeUsd);
  }

  lemma AgreeClosed(a: State, b: State, ie: IndexedEvent, dirty: set<Hash>, log: bool)
    requires ie.event.PositionClosed? && Agree(a, b, dirty, log)
    ensures Agree(LiveClosed(a, ie), ReplayClosed(b, ie), dirty, log)
  {
    hide SameOrders, SameMarkets, TradersAfterClose, Accumulate, AddOi;
    var e := ie.event;
    if e.positionId in a.positions.rows {
      SameClose(ie, a.positions.rows[e.positionId], b.positions.rows[e.positionId]);
      SameMarketsOi(a.markets, b.markets, e.market, a.positions.rows[e.positionId].isLong, -e.closedSizeUsd);
    }
    SamePositionsUpdate(a.positions, b.positions, e.positionId, p => CloseLive(ie, p), p => CloseReplay(e, p), dirty);
  }

  lemma AgreeLiquidated(a: State, b: State, ie: IndexedEvent, dirty: set<Hash>, log: bool)
    requires ie.event.Liquidation? && Agree(a, b, dirty, log)
    ensures Agree(LiveLiquidated(a, ie), ReplayLiquidated(b, ie), dirty, log)
  {
    var e := ie.event;
    if e.positionId in a.positions.rows {
      SameLiquidation(ie, a.positions.rows[e.positionId], b.positions.rows[e.positionId]);
    }
    SamePositionsUpdate(a.positions, b.positions, e.positionId,
                        p => LiquidateLive(ie, p), p => LiquidateReplay(e, p), dirty);
  }

  /** Replay drops a modification; only the sizes of that position are lost. */
  lemma AgreeModified(a: State, b: State, e: Event, dirty: set<Hash>, log: bool)
    requires e.PositionModified? && Agree(a, b, dirty, log)
    ensures Agree(LiveModified(a, e), b, dirty + {e.positionId}, log)
  {
    if e.positionId in a.positions.rows {
      var p := a.positions.rows[e.positionId];
      assert Core(Modified(e, p)) == Core(p);
    }
  }

  lemma AgreeOrders(a: State, b: State, ie: IndexedEvent, dirty: set<Hash>, log: bool)
    requires ie.event.OrderPlaced? || ie.event.OrderExecuted? || ie.event.OrderCancelled?
    requires Agree(a, b, dirty, log)
    ensures Agree(LiveApply(a, ie), ReplayApply(b, ie), dirty, log)
  {
    match ie.event {
      case OrderPlaced(_, _, _, _, _, _, _) => SameOrdersInsert(a.orders, b.orders, NewOrder(ie));
      case OrderExecuted(id, position, price) =>
        SameOrdersExecute(a.orders, b.orders, id, price, position, ie.blockTimestamp);
      case OrderCancelled(id, _) => SameOrdersCancel(a.orders, b.orders, id);
    }
  }

  lemma AgreeMarkets(a: State, b: State, ie: IndexedEvent, dirty: set<Hash>, log: bool)
    requires ie.event.FundingRateUpdated? || ie.event.MarketPaused?
    requires Agree(a, b, dirty, log)
    ensures Agree(LiveApply(a, ie), ReplayApply(b, ie), dirty, log)
  {
    match ie.event {
      case FundingRateUpdated(market, perSecond, rate24h) =>
        var f := (i: MarketInner) => i.(fundingPerSecond := perSecond, funding24h := rate24h);
        SameMarketsInner(a.markets, b.markets, market, f, f);
      case MarketPaused(market) =>
        var f := (i: MarketInner) => i.(paused := true);
        SameMarketsInner(a.markets, b.markets, market, f, f);
    }
  }

  lemma AgreeLedger(a: State, b: State, ie: IndexedEvent, dirty: set<Hash>, log: bool)
    requires IsLedgerEvent(ie.event) && Agree(a, b, dirty, log)
    ensures Agree(LiveApply(a, ie), ReplayApply(b, ie), dirty, log)
  {
    hide SamePositions, SameOrders, SameMarkets, Balances.Set, Deposited, Withdrawn, WithUser, WithVault;
  }

  lemma AgreeApply(a: State, b: State, ie: IndexedEvent, dirty: set<Hash>, log: bool)
    requires Agree(a, b, dirty, log)
    ensures Agree(LiveApply(a, ie), ReplayApply(b, ie), DirtyAfter(dirty, ie.event), log)
  {
    hide Agree, LiveOpened, LiveClosed, LiveModified, LiveLiquidated, LivePlaced, LiveDeposited, LiveVault,
      ReplayOpened, ReplayClosed, ReplayLiquidated;
    match ie.event {
      case PositionOpened(_, _, _, _, _, _, _, _, _) => AgreeOpened(a, b, ie, dirty, log);
      case PositionClosed(_, _, _, _, _, _, _) => AgreeClosed(a, b, ie, dirty, log);
      case PositionModified(_, _, _, _) => AgreeModified(a, b, ie.event, dirty, log);
      case Liquidation(_, _, _, _, _, _) => AgreeLiquidated(a, b, ie, dirty, log);
      case OrderPlaced(_, _, _, _, _, _, _) => AgreeOrders(a, b, ie, dirty, log);
      case OrderExecuted(_, _, _) => AgreeOrders(a, b, ie, dirty, log);
      case OrderCancelled(_, _) => AgreeOrders(a, b, ie, dirty, log);
      case FundingRateUpdated(_, _, _) => AgreeMarkets(a, b, ie, dirty, log);
      case MarketPaused(_) => AgreeMarkets(a, b, ie, dirty, log);
      case CollateralDeposited(_, _, _) => AgreeLedger(a, b, ie, dirty, log);
      case CollateralWithdrawn(_, _, _) => AgreeLedger(a, b, ie, dirty, log);
      case VaultCreated(_, _) => AgreeLedger(a, b, ie, dirty, log);
      case _ =>
    }
  }

  /** The simulation step: an event that replay does not skip keeps the agreement. */
  lemma AgreeStep(a: State, b: State, ie: IndexedEvent, dirty: set<Hash>, log: bool)
    requires Agree(a, b, dirty, log)
    ensures Agree(LiveStep(a, ie), Logged(ReplayApply(b, ie), ie), DirtyAfter(dirty, ie.event), log)
  {
    AgreeApply(a, b, ie, dirty, log);
  }

  /** Outside the position events the two interpreters do the same. */
  lemma SharedApply(s: State, ie: IndexedEvent)
    ensures IsPositionEvent(ie.event) || LiveApply(s, ie) == ReplayApply(s, ie)
  {
  }

  /** Neither interpreter touches the event log or the checkpoint while applying. */
  lemma ApplyLeavesLog(s: State, ie: IndexedEvent)
    ensures LiveApply(s, ie).events == s.events && ReplayApply(s, ie).events == s.events
    ensures LiveApply(s, ie).checkpoint == s.checkpoint && ReplayApply(s, ie).checkpoint == s.checkpoint
  {
    hide LiveApply;
    StoreByStore(s, ie);
  }

  lemma AgreeTick(a: State, b: State, ns: nat, market: nat, price: real, dirty: set<Hash>, log: bool)
    requires Agree(a, b, dirty, log)
    ensures Agree(a.(markets := WithPrice(a.markets, market, price, ns)),
                  b.(markets := WithPrice(b.markets, market, price, ns)), dirty, log)
  {
    var x, y := WithPrice(a.markets, market, price, ns), WithPrice(b.markets, market, price, ns);
    forall m | 0 <= m < |x|
      ensures WithoutOi(x[m]) == WithoutOi(y[m])
    {
      assert WithoutOi(a.markets[m]) == WithoutOi(b.markets[m]);
      SameInner(a.markets[m].inner, b.markets[m].inner);
    }
  }

  /* ---------- whole runs ---------- */

  predicate BlocksAbove(log: seq<WalEntry>, block: int) {
    forall i :: 0 <= i < |log| && log[i].EventEntry? ==> log[i].indexed.blockNumber > block
  }

  predicate BlocksUpTo(log: seq<WalEntry>, block: int) {
    forall i :: 0 <= i < |log| && log[i].EventEntry? ==> log[i].indexed.blockNumber <= block
  }

  /** From agreeing states, running live and replaying a log whose events all lie above the
      snapshot block keeps the agreement. */
  lemma {:induction false} AgreeRun(a: State, b: State, snapBlock: nat, log: seq<WalEntry>, dirty: set<Hash>, withLog: bool)
    requires AllWritten(log) && BlocksAbove(log, snapBlock)
    requires Agree(a, b, dirty, withLog)
    ensures Agree(LiveRun(a, log), ReplayRun(b, snapBlock, log), dirty + Dirty(log), withLog)
    decreases |log|
  {
    if log == [] {
      assert dirty + Dirty(log) == dirty;
    } else {
      var init, entry := log[..|log| - 1], log[|log| - 1];
      AgreeRun(a, b, snapBlock, init, dirty, withLog);
      var x, y := LiveRun(a, init), ReplayRun(b, snapBlock, init);
      match entry {
        case EventEntry(ie) =>
          AgreeStep(x, y, ie, dirty + Dirty(init), withLog);
          assert DirtyAfter(dirty + Dirty(init), ie.event) == dirty + Dirty(log);
        case TickEntry(ns, market, price) =>
          AgreeTick(x, y, ns, market, price, dirty + Dirty(init), withLog);
      }
    }
  }

  lemma AgreeSelf(s: State)
    ensures Agree(s, s, {}, true)
  {
  }

  /* Agreement is an equivalence, up to the dirty ids. */

  lemma AgreeSym(a: State, b: State, dirty: set<Hash>, log: bool)
    requires Agree(a, b, dirty, log)
    ensures Agree(b, a, dirty, log)
  {
    forall m | 0 <= m < |b.markets|
      ensures WithoutOi(b.markets[m]) == WithoutOi(a.markets[m])
    {
      assert WithoutOi(a.markets[m]) == WithoutOi(b.markets[m]);
    }
  }

  lemma AgreeTrans(a: State, b: State, c: State, dirty: set<Hash>, more: set<Hash>, log: bool)
    requires Agree(a, b, dirty, log) && Agree(b, c, more, log)
    ensures Agree(a, c, dirty + more, log)
  {
    hide WithoutOi, Core;
    forall m | 0 <= m < |a.markets|
      ensures WithoutOi(a.markets[m]) == WithoutOi(c.markets[m])
    {
      assert WithoutOi(a.markets[m]) == WithoutOi(b.markets[m]);
    }
  }

  /** From agreeing states, the same live event leads to agreeing states. */
  lemma AgreeLiveStep(a: State, b: State, ie: IndexedEvent, dirty: set<Hash>, log: bool)
    requires Agree(a, b, dirty, log)
    ensures Agree(LiveStep(a, ie), LiveStep(b, ie), DirtyAfter(dirty, ie.event), log)
  {
    hide LiveStep, ReplayApply, Logged;
    var rec := Logged(ReplayApply(b, ie), ie);
    AgreeStep(a, b, ie, dirty, log);
    AgreeSelf(b);
    AgreeStep(b, b, ie, {}, log);
    hide Agree;
    AgreeSym(LiveStep(b, ie), rec, DirtyAfter({}, ie.event), log);
    AgreeTrans(LiveStep(a, ie), rec, LiveStep(b, ie), DirtyAfter(dirty, ie.event), DirtyAfter({}, ie.event), log);
    assert DirtyAfter(dirty, ie.event) + DirtyAfter({}, ie.event) == DirtyAfter(dirty, ie.event);
  }

  lemma {:induction false} AgreeLiveRun(a: State, b: State, log: seq<WalEntry>, dirty: set<Hash>, withLog: bool)
    requires AllWritten(log) && Agree(a, b, dirty, withLog)
    ensures Agree(LiveRun(a, log), LiveRun(b, log), dirty + Dirty(log), withLog)
    decreases |log|
  {
    if log == [] {
      assert dirty + Dirty(log) == dirty;
    } else {
      hide LiveStep, Agree;
      var init, entry := log[..|log| - 1], log[|log| - 1];
      AgreeLiveRun(a, b, init, dirty, withLog);
      var x, y := LiveRun(a, init), LiveRun(b, init);
      match entry {
        case EventEntry(ie) =>
          AgreeLiveStep(x, y, ie, dirty + Dirty(init), withLog);
          assert DirtyAfter(dirty + Dirty(init), ie.event) == dirty + Dirty(log);
        case TickEntry(ns, market, price) =>
          AgreeTick(x, y, ns, market, price, dirty + Dirty(init), withLog);
      }
    }
  }

  lemma {:induction false} DirtyConcat(a: seq<WalEntry>, b: seq<WalEntry>)
    ensures Dirty(a + b) == Dirty(a) + Dirty(b)
    decreases |b|
  {
    if b == [] {
      assert a + b == a;
    } else {
      DirtyConcat(a, b[..|b| - 1]);
      assert (a + b)[..|a + b| - 1] == a + b[..|b| - 1];
    }
  }

  function EventCount(log: seq<WalEntry>, above: int): nat {
    if log == [] then 0
    else EventCount(log[..|log| - 1], above)
         + if log[|log| - 1].EventEntry? && log[|log| - 1].indexed.blockNumber > above then 1 else 0
  }

  lemma {:induction false} LoggedTotals(log: seq<WalEntry>)
    requires AllWritten(log)
    ensures LiveRun(Empty(), log).events.total == EventCount(log, -1)
    ensures ReplayRun(Empty(), 0, log).events.total == EventCount(log, 0)
    decreases |log|
  {
    if log != [] {
      var init := log[..|log| - 1];
      LoggedTotals(init);
      if log[|log| - 1].EventEntry? {
        ApplyLeavesLog(LiveRun(Empty(), init), log[|log| - 1].indexed);
        ApplyLeavesLog(ReplayRun(Empty(), 0, init), log[|log| - 1].indexed);
      }
    }
  }

  lemma {:induction false} CountsDiffer(log: seq<WalEntry>)
    ensures EventCount(log, 0) <= EventCount(log, -1)
    ensures EventCount(log, 0) == EventCount(log, -1) ==> BlocksAbove(log, 0)
    decreases |log|
  {
    if log != [] {
      CountsDiffer(log[..|log| - 1]);
      var init := log[..|log| - 1];
      if EventCount(log, 0) == EventCount(log, -1) {
        assert forall i :: 0 <= i < |init| ==> init[i] == log[i];
      }
    }
  }

  /** Recovery without a snapshot agrees with the live run, event log included, exactly when no
      event carries block 0: the missing snapshot counts as block 0 and hides those. */
  lemma WalRecoveryIff(log: seq<WalEntry>)
    requires AllWritten(log)
    ensures Agree(LiveRun(Empty(), log), ReplayRun(Empty(), 0, log), Dirty(log), true) <==> BlocksAbove(log, 0)
  {
    if BlocksAbove(log, 0) {
      AgreeSelf(Empty());
      AgreeRun(Empty(), Empty(), 0, log, {}, true);
      assert {} + Dirty(log) == Dirty(log);
    } else {
      LoggedTotals(log);
      CountsDiffer(log);
    }
  }
}
