/** Snapshot, restore and replay: `snapshot`, `restore_snapshot` and the recovery order of `open`
    in `src/engine.rs`, with the snapshot shape of `src/storage/snapshot.rs`. */
module Snapshots {
  import opened Collections
  import opened Types
  import opened PositionStore
  import opened OrderStore
  import opened BalanceStore
  import opened UserStore
  import opened EventLogStore
  import opened CheckpointStore
  import opened StatsStore
  import opened MarketStore
  import opened Engine
  import opened Recovery

  datatype StateSnapshot = StateSnapshot(
    checkpoint: Checkpoint, positions: seq<Position>, orders: seq<Order>, balances: seq<Balance>,
    users: seq<User>, traders: seq<TraderStats>, daily: seq<DailyEntry>, markets: seq<SnapshotMarket>)

  /** `snap` is a snapshot of `s`: every hash map is listed in some order of its own, and the
      daily rows were collected trader by trader in the order `addresses`. */
  ghost predicate IsSnapshot(s: State, snap: StateSnapshot, addresses: seq<Address>) {
    && snap.checkpoint == s.checkpoint
    && Enumerates(snap.positions, s.positions.rows, PositionKey)
    && Enumerates(snap.orders, s.orders.rows, OrderKey)
    && Enumerates(snap.balances, s.balances.rows, BalanceKey)
    && Enumerates(snap.users, s.users, UserKey)
    && Enumerates(snap.traders, s.traders, TraderKey)
    && (forall a :: a in addresses <==> a in s.traders)
    && snap.daily == SnapshotDaily(s.daily, addresses)
    && snap.markets == SnapshotMarkets(s.markets)
  }

  /** `restore_snapshot` into freshly created stores. */
  function Restore(snap: StateSnapshot): State {
    State(PositionStore.InsertAll(NO_POSITIONS, snap.positions),
          OrderStore.InsertAll(NO_ORDERS, snap.orders),
          SetAll(NO_BALANCES, snap.balances),
          Collect(snap.users, UserKey),
          Collect(snap.traders, TraderKey),
          RestoreDaily(map[], snap.daily),
          RestoreMarkets(NoMarkets(), snap.markets),
          NO_EVENTS,
          snap.checkpoint)
  }

  /* ---------- the invariant a snapshot relies on ---------- */

  /** Indexes and books equal a scan, rows sit under their own keys, and every trader with daily
      rows has a statistics row (the snapshot finds daily rows through those). */
  ghost predicate Inv(s: State) {
    && s.positions.Consistent() && s.orders.Consistent() && s.balances.Consistent()
    && Keyed(s.users, UserKey) && Keyed(s.traders, TraderKey)
    && Dated(s.daily) && (forall k :: k in s.daily ==> k.0 in s.traders)
    && |s.markets| == MARKET_COUNT
  }

  /** Every row sits under its own key.  This alone makes a state fit for a snapshot. */
  ghost predicate RowsKeyed(s: State) {
    && Keyed(s.positions.rows, PositionKey) && Keyed(s.orders.rows, OrderKey) && Keyed(s.balances.rows, BalanceKey)
    && Keyed(s.users, UserKey) && Keyed(s.traders, TraderKey)
  }

  lemma KeyedRows(t: Positions, o: Orders, b: Balances, ie: IndexedEvent)
    requires Keyed(t.rows, PositionKey) && Keyed(o.rows, OrderKey) && Keyed(b.rows, BalanceKey)
    ensures Keyed(NextPositions(t, ie).rows, PositionKey)
    ensures Keyed(NextOrders(o, ie).rows, OrderKey)
    ensures Keyed(NextBalances(b, ie).rows, BalanceKey)
  {
  }

  lemma KeyedTraders(ts: Traders, ie: IndexedEvent)
    requires Keyed(ts, TraderKey)
    ensures Keyed(NextTraders(ts, ie), TraderKey)
  {
  }

  /** Any event keeps it, ids reused or not. */
  lemma KeyedStep(s: State, ie: IndexedEvent)
    requires RowsKeyed(s)
    ensures RowsKeyed(LiveStep(s, ie))
  {
    hide LiveApply, NextPositions, NextOrders, NextBalances, NextUsers, NextTraders, NextDaily, NextMarkets;
    StoreByStore(s, ie);
    KeyedRows(s.positions, s.orders, s.balances, ie);
    KeyedTraders(s.traders, ie);
    InvUsers(s.users, ie);
  }

  /** Replaying a position event differs from applying it live in the positions and the open
      interest only. */
  lemma ReplayPositionStores(s: State, ie: IndexedEvent)
    requires IsPositionEvent(ie.event)
    ensures var t := ReplayApply(s, ie);
            && t.orders == s.orders && t.balances == s.balances && t.users == NextUsers(s.users, ie)
            && t.traders == NextTraders(s.traders, ie) && t.daily == NextDaily(s.daily, ie)
  {
    hide NewPosition, Positions.Insert, Positions.Update, TradersAfterClose, TradersAfterLiquidation, Accumulate,
      WithUser, IncrementOpen, WithTrader;
  }

  lemma KeyedReplayRows(s: State, ie: IndexedEvent)
    requires Keyed(s.positions.rows, PositionKey) && IsPositionEvent(ie.event)
    ensures Keyed(ReplayApply(s, ie).positions.rows, PositionKey)
  {
    hide TradersAfterClose, TradersAfterLiquidation, Accumulate, WithUser, IncrementOpen, WithTrader;
  }

  lemma KeyedReplayPosition(s: State, ie: IndexedEvent)
    requires RowsKeyed(s) && IsPositionEvent(ie.event)
    ensures RowsKeyed(ReplayApply(s, ie))
  {
    hide ReplayApply, NextUsers, NextTraders, NextDaily;
    ReplayPositionStores(s, ie);
    KeyedReplayRows(s, ie);
    KeyedTraders(s.traders, ie);
    InvUsers(s.users, ie);
  }

  lemma KeyedReplayEntry(s: State, b: nat, entry: WalEntry)
    requires RowsKeyed(s)
    ensures RowsKeyed(ReplayEntry(s, b, entry))
  {
    if entry.EventEntry? {
      if IsPositionEvent(entry.indexed.event) {
        KeyedReplayPosition(s, entry.indexed);
      } else {
        hide LiveApply, ReplayApply;
        SharedApply(s, entry.indexed);
        KeyedStep(s, entry.indexed);
      }
    }
  }

  lemma {:induction false} KeyedReplayRun(s: State, b: nat, log: seq<WalEntry>)
    requires RowsKeyed(s)
    ensures RowsKeyed(ReplayRun(s, b, log))
    decreases |log|
  {
    if log != [] {
      hide RowsKeyed, ReplayEntry;
      KeyedReplayRun(s, b, log[..|log| - 1]);
      KeyedReplayEntry(ReplayRun(s, b, log[..|log| - 1]), b, log[|log| - 1]);
    }
  }

  lemma {:induction false} KeyedPositions(ps: seq<Position>)
    ensures Keyed(PositionStore.InsertAll(NO_POSITIONS, ps).rows, PositionKey)
    decreases |ps|
  {
    if ps != [] {
      KeyedPositions(ps[..|ps| - 1]);
    }
  }

  lemma {:induction false} KeyedOrders(os: seq<Order>)
    ensures Keyed(OrderStore.InsertAll(NO_ORDERS, os).rows, OrderKey)
    decreases |os|
  {
    if os != [] {
      KeyedOrders(os[..|os| - 1]);
    }
  }

  lemma {:induction false} KeyedCollect<K, V>(rows: seq<V>, key: V -> K)
    ensures Keyed(Collect(rows, key), key)
    decreases |rows|
  {
    if rows != [] {
      KeyedCollect(rows[..|rows| - 1], key);
    }
  }

  /** Whatever a snapshot file holds, restoring it files every row under its own key. */
  lemma KeyedRestore(snap: StateSnapshot)
    ensures RowsKeyed(Restore(snap))
  {
    hide PositionStore.InsertAll, OrderStore.InsertAll, SetAll, Collect, RestoreDaily, RestoreMarkets;
    KeyedPositions(snap.positions);
    KeyedOrders(snap.orders);
    SetAllRows(snap.balances);
    KeyedCollect(snap.users, UserKey);
    KeyedCollect(snap.traders, TraderKey);
  }

  /** Ids are not reused: an opening does not re-home a position, a placement names a new order. */
  predicate FreshIds(s: State, ie: IndexedEvent) {
    var e := ie.event;
    && (e.PositionOpened? && e.positionId in s.positions.rows ==>
          s.positions.rows[e.positionId].user == e.user && s.positions.rows[e.positionId].market == e.market)
    && (e.OrderPlaced? ==> e.orderId !in s.orders.rows)
  }

  lemma InvPositions(t: Positions, ie: IndexedEvent)
    requires t.Consistent()
    requires ie.event.PositionOpened? && ie.event.positionId in t.rows ==>
               t.rows[ie.event.positionId].user == ie.event.user && t.rows[ie.event.positionId].market == ie.event.market
    ensures NextPositions(t, ie).Consistent()
  {
    var e := ie.event;
    match e {
      case PositionOpened(_, _, _, _, _, _, entryPrice, _, _) => InsertConsistentIff(t, NewPosition(ie, entryPrice));
      case PositionClosed(id, _, _, _, _, _, _) => UpdateConsistent(t, id, p => CloseLive(ie, p));
      case PositionModified(id, _, _, _) => UpdateConsistent(t, id, p => Modified(e, p));
      case Liquidation(id, _, _, _, _, _) => UpdateConsistent(t, id, p => LiquidateLive(ie, p));
      case _ =>
    }
  }

  lemma InvOrders(t: Orders, ie: IndexedEvent)
    requires t.Consistent() && (ie.event.OrderPlaced? ==> ie.event.orderId !in t.rows)
    ensures NextOrders(t, ie).Consistent()
  {
    match ie.event {
      case OrderPlaced(_, _, _, _, _, _, _) => InsertConsistent(t, NewOrder(ie));
      case OrderExecuted(id, position, price) => ExecuteConsistent(t, id, price, position, ie.blockTimestamp);
      case OrderCancelled(id, _) => CancelConsistent(t, id);
      case _ =>
    }
  }

  lemma InvBalances(b: Balances, ie: IndexedEvent)
    requires b.Consistent()
    ensures NextBalances(b, ie).Consistent()
  {
    match ie.event {
      case CollateralDeposited(user, token, amount) => SetConsistent(b, Deposited(b, user, token, amount));
      case CollateralWithdrawn(user, token, amount) => SetConsistent(b, Withdrawn(b, user, token, amount));
      case _ =>
    }
  }

  lemma InvStats(ts: Traders, daily: Daily, ie: IndexedEvent)
    requires Keyed(ts, TraderKey) && Dated(daily) && forall k :: k in daily ==> k.0 in ts
    ensures Keyed(NextTraders(ts, ie), TraderKey) && Dated(NextDaily(daily, ie))
    ensures forall k :: k in NextDaily(daily, ie) ==> k.0 in NextTraders(ts, ie)
  {
    match ie.event {
      case PositionClosed(_, user, _, _, _, _, _) => assert user in TradersAfterClose(ts, ie);
      case _ =>
    }
  }

  lemma InvUsers(us: Users, ie: IndexedEvent)
    requires Keyed(us, UserKey)
    ensures Keyed(NextUsers(us, ie), UserKey)
  {
  }

  lemma InvMarkets(ms: Markets, t: Positions, ie: IndexedEvent)
    ensures |NextMarkets(ms, t, ie)| == |ms|
    ensures forall m :: 0 <= m < |ms| ==>
              NextMarkets(ms, t, ie)[m].price == ms[m].price && NextMarkets(ms, t, ie)[m].lastUpdateNs == ms[m].lastUpdateNs
  {
  }

  /** Every live event keeps the invariant. */
  lemma InvStep(s: State, ie: IndexedEvent)
    requires Inv(s) && FreshIds(s, ie)
    ensures Inv(LiveStep(s, ie))
  {
    hide LiveApply, NextPositions, NextOrders, NextBalances, NextUsers, NextTraders, NextDaily, NextMarkets;
    StoreByStore(s, ie);
    InvPositions(s.positions, ie);
    InvOrders(s.orders, ie);
    InvBalances(s.balances, ie);
    InvStats(s.traders, s.daily, ie);
    InvUsers(s.users, ie);
    InvMarkets(s.markets, s.positions, ie);
  }

  lemma InvEmpty()
    ensures Inv(Empty())
  {
  }

  /** Every event of the run names fresh ids at its moment. */
  predicate FreshRun(s: State, log: seq<WalEntry>)
    requires AllWritten(log)
  {
    forall k :: 0 <= k < |log| && log[k].EventEntry? ==> FreshIds(LiveRun(s, log[..k]), log[k].indexed)
  }

  lemma {:induction false} InvRun(s: State, log: seq<WalEntry>)
    requires Inv(s) && AllWritten(log) && FreshRun(s, log)
    ensures Inv(LiveRun(s, log))
    decreases |log|
  {
    if log != [] {
      var init, last := log[..|log| - 1], log[|log| - 1];
      forall k | 0 <= k < |init| && init[k].EventEntry?
        ensures FreshIds(LiveRun(s, init[..k]), init[k].indexed)
      {
        assert init[..k] == log[..k] && init[k] == log[k];
      }
      InvRun(s, init);
      if last.EventEntry? {
        InvStep(LiveRun(s, init), last.indexed);
      }
    }
  }

  /* ---------- restore undoes snapshot ---------- */

  predicate FewDays(s: State) {
    forall a :: a in s.traders ==> |Dates(s.daily, a)| <= 1000
  }

  /** Restoring a snapshot gives the state back, whatever order the hash maps were listed in: all
      of it but the event log, and order books up to arrival order within a level. */
  lemma RestoreUndoesSnapshot(s: State, snap: StateSnapshot, addresses: seq<Address>)
    requires Inv(s) && IsSnapshot(s, snap, addresses) && FewDays(s)
    ensures var r := Restore(snap);
            && r.positions == s.positions && SameOrders(s.orders, r.orders) && r.balances == s.balances
            && r.users == s.users && r.traders == s.traders && r.daily == s.daily
            && r.markets == s.markets && r.checkpoint == s.checkpoint && r.events == NO_EVENTS
  {
    RestorePositions(s.positions, snap.positions);
    RestoreOrders(s.orders, snap.orders);
    SameBooksSym(OrderStore.InsertAll(NO_ORDERS, snap.orders).books, s.orders.books);
    RestoreBalances(s.balances, snap.balances);
    RestoreMaps(s, snap, addresses);
  }

  lemma RestoreMaps(s: State, snap: StateSnapshot, addresses: seq<Address>)
    requires Inv(s) && IsSnapshot(s, snap, addresses) && FewDays(s)
    ensures Collect(snap.users, UserKey) == s.users && Collect(snap.traders, TraderKey) == s.traders
    ensures RestoreDaily(map[], snap.daily) == s.daily && RestoreMarkets(NoMarkets(), snap.markets) == s.markets
  {
    CollectEnumerated(snap.users, s.users, UserKey);
    CollectEnumerated(snap.traders, s.traders, TraderKey);
    DailyRoundTripIff(s.daily, addresses);
    RestoredMarkets(s.markets);
  }

  lemma SameBooksSym(a: seq<Book>, b: seq<Book>)
    requires SameBooks(a, b)
    ensures SameBooks(b, a)
  {
  }

  /* ---------- replaying ticks twice ---------- */

  /** The last tick of a market in the log, as (price, time). */
  function LastTick(log: seq<WalEntry>, m: nat): Option<(real, nat)> {
    if log == [] then None
    else
      var e := log[|log| - 1];
      if e.TickEntry? && e.market == m then Some((e.price, e.timestampNs)) else LastTick(log[..|log| - 1], m)
  }

  /** The market shows the last tick of the log, if the log has one for it. */
  predicate ShowsLastTick(slot: MarketSlot, log: seq<WalEntry>, m: nat) {
    LastTick(log, m).Some? ==> slot.price == LastTick(log, m).value.0 && slot.lastUpdateNs == LastTick(log, m).value.1
  }

  lemma {:induction false} LiveShowsLastTick(s: State, log: seq<WalEntry>, m: nat)
    requires AllWritten(log) && m < |s.markets|
    ensures |LiveRun(s, log).markets| == |s.markets|
    ensures ShowsLastTick(LiveRun(s, log).markets[m], log, m)
    decreases |log|
  {
    if log != [] {
      var init, last := log[..|log| - 1], log[|log| - 1];
      LiveShowsLastTick(s, init, m);
      if last.EventEntry? {
        StoreByStore(LiveRun(s, init), last.indexed);
        InvMarkets(LiveRun(s, init).markets, LiveRun(s, init).positions, last.indexed);
      }
    }
  }

  lemma {:induction false} LastTickOfSuffix(log: seq<WalEntry>, k: nat, m: nat)
    requires k <= |log|
    ensures LastTick(log[k..], m).Some? ==> LastTick(log, m) == LastTick(log[k..], m)
    decreases |log|
  {
    if k < |log| {
      LastTickOfSuffix(log[..|log| - 1], k, m);
      assert log[k..][..|log[k..]| - 1] == log[..|log| - 1][k..];
    }
  }

  /** Replaying entries the snapshot covers: events are skipped, ticks only move prices. */
  lemma {:induction false} CoveredReplay(r: State, b: nat, log: seq<WalEntry>)
    requires AllWritten(log) && BlocksUpTo(log, b)
    ensures var t := ReplayRun(r, b, log);
            && t == r.(markets := t.markets) && |t.markets| == |r.markets|
            && forall m :: 0 <= m < |r.markets| ==>
                 if LastTick(log, m).Some?
                 then t.markets[m] == r.markets[m].(price := LastTick(log, m).value.0,
                                                    lastUpdateNs := LastTick(log, m).value.1)
                 else t.markets[m] == r.markets[m]
    decreases |log|
  {
    if log != [] {
      CoveredReplay(r, b, log[..|log| - 1]);
    }
  }

  /** Replaying covered entries over a restored state changes nothing, if and only if the state
      shows the last tick of each market the entries hold.  Ticks carry no block number, so replay
      never skips them. */
  lemma CoveredReplayIff(r: State, b: nat, log: seq<WalEntry>)
    requires AllWritten(log) && BlocksUpTo(log, b)
    ensures ReplayRun(r, b, log) == r <==> forall m :: 0 <= m < |r.markets| ==> ShowsLastTick(r.markets[m], log, m)
  {
    CoveredReplay(r, b, log);
    var t := ReplayRun(r, b, log);
    forall m | 0 <= m < |r.markets|
      ensures t.markets[m] == r.markets[m] <==> ShowsLastTick(r.markets[m], log, m)
    {
      if LastTick(log, m).Some? {
        assert t.markets[m].price == LastTick(log, m).value.0 && t.markets[m].lastUpdateNs == LastTick(log, m).value.1;
      }
    }
    if forall m :: 0 <= m < |r.markets| ==> ShowsLastTick(r.markets[m], log, m) {
      assert t.markets == r.markets;
    }
  }

  /** Two ticks of market 0, the second one newer. */
  function TwoTicks(): seq<WalEntry> {
    [TickEntry(1, 0, 100.0), TickEntry(2, 0, 200.0)]
  }

  /** A snapshot ahead of its log: nothing forces the log to disk before a snapshot is written.
      When the crash takes the second tick, replay puts the older price over the newer one. */
  lemma SnapshotAheadOfLog(snap: StateSnapshot, addresses: seq<Address>)
    requires IsSnapshot(LiveRun(Empty(), TwoTicks()), snap, addresses)
    ensures |Restore(snap).markets| == MARKET_COUNT && Restore(snap).markets[0].price == 200.0
    ensures var t := ReplayRun(Restore(snap), snap.checkpoint.lastBlock, TwoTicks()[..1]);
            |t.markets| == MARKET_COUNT && t.markets[0].price == 100.0
  {
    var one := TwoTicks()[..1];
    assert one == [TickEntry(1, 0, 100.0)] && one[..0] == [];
    assert TwoTicks()[..|TwoTicks()| - 1] == one;
    var s := LiveRun(Empty(), TwoTicks());
    assert LiveRun(Empty(), one) == LiveEntry(Empty(), one[0]);
    assert s == LiveEntry(LiveRun(Empty(), one), TwoTicks()[1]);
    assert |s.markets| == MARKET_COUNT && s.markets[0].price == 200.0;
    RestoredMarkets(s.markets);
    assert Restore(snap).markets == s.markets;
    CoveredReplay(Restore(snap), snap.checkpoint.lastBlock, one);
  }

  /* ---------- recovery from a snapshot ---------- */

  /** From a snapshot of any consistent state `s`, restore and replay of the covered entries
      `covered` followed by the later entries `post` agrees with the live run of `post` from `s`:
      nothing is applied twice and nothing is lost. */
  lemma RecoverFrom(s: State, snap: StateSnapshot, addresses: seq<Address>, covered: seq<WalEntry>, post: seq<WalEntry>)
    requires Inv(s) && IsSnapshot(s, snap, addresses) && FewDays(s)
    requires AllWritten(covered) && AllWritten(post)
    requires BlocksUpTo(covered, s.checkpoint.lastBlock) && BlocksAbove(post, s.checkpoint.lastBlock)
    requires forall m :: 0 <= m < |s.markets| ==> ShowsLastTick(s.markets[m], covered, m)
    ensures Agree(LiveRun(s, post), ReplayRun(Restore(snap), snap.checkpoint.lastBlock, covered + post), Dirty(post), false)
  {
    hide Inv, FewDays, Restore, LiveEntry, ReplayEntry, ShowsLastTick;
    var r, b := Restore(snap), s.checkpoint.lastBlock;
    RestoreUndoesSnapshot(s, snap, addresses);
    ReplayRunConcat(r, b, covered, post);
    CoveredReplayIff(r, b, covered);
    assert Agree(s, r, {}, false);
    AgreeRun(s, r, b, post, {}, false);
    assert {} + Dirty(post) == Dirty(post);
  }

  /** The whole story: a live run, a snapshot at a block boundary, more live events, a crash, and
      recovery from the snapshot and any suffix `pre[k..] + post` of the log that still holds
      everything after the snapshot (older segments may have been truncated away). */
  lemma SnapshotRecovery(pre: seq<WalEntry>, post: seq<WalEntry>, k: nat, snap: StateSnapshot, addresses: seq<Address>)
    requires AllWritten(pre) && AllWritten(post) && k <= |pre|
    requires FreshRun(Empty(), pre)
    requires var s := LiveRun(Empty(), pre);
             && IsSnapshot(s, snap, addresses) && FewDays(s)
             && BlocksUpTo(pre, s.checkpoint.lastBlock) && BlocksAbove(post, s.checkpoint.lastBlock)
    ensures Agree(LiveRun(Empty(), pre + post),
                  ReplayRun(Restore(snap), snap.checkpoint.lastBlock, pre[k..] + post), Dirty(post), false)
  {
    hide Inv, FewDays, Restore, LiveEntry, ReplayEntry, Agree;
    var s := LiveRun(Empty(), pre);
    InvEmpty();
    InvRun(Empty(), pre);
    LiveRunConcat(Empty(), pre, post);
    forall m | 0 <= m < |s.markets|
      ensures ShowsLastTick(s.markets[m], pre[k..], m)
    {
      LiveShowsLastTick(Empty(), pre, m);
      LastTickOfSuffix(pre, k, m);
    }
    RecoverFrom(s, snap, addresses, pre[k..], post);
  }

  /** A log that ends before the snapshot does: `log` is all that is left of it.  Recovery then agrees
      with the live state the snapshot was taken of, if and only if that state shows the last tick
      of each market in the log. */
  lemma AheadRecoveryIff(s: State, snap: StateSnapshot, addresses: seq<Address>, log: seq<WalEntry>)
    requires Inv(s) && IsSnapshot(s, snap, addresses) && FewDays(s)
    requires AllWritten(log) && BlocksUpTo(log, s.checkpoint.lastBlock)
    ensures Agree(s, ReplayRun(Restore(snap), snap.checkpoint.lastBlock, log), {}, false)
            <==> forall m :: 0 <= m < |s.markets| ==> ShowsLastTick(s.markets[m], log, m)
  {
    hide ReplayRun, FewDays, Restore, LastTick, Inv;
    var r := Restore(snap);
    RestoreUndoesSnapshot(s, snap, addresses);
    CoveredReplay(r, s.checkpoint.lastBlock, log);
    CoveredAgreeIff(s, r, ReplayRun(r, s.checkpoint.lastBlock, log), log);
  }

  lemma CoveredAgreeIff(s: State, r: State, t: State, log: seq<WalEntry>)
    requires Agree(s, r, {}, false) && s.markets == r.markets && t == r.(markets := t.markets) && |t.markets| == |r.markets|
    requires forall m :: 0 <= m < |r.markets| ==>
               if LastTick(log, m).Some?
               then t.markets[m] == r.markets[m].(price := LastTick(log, m).value.0, lastUpdateNs := LastTick(log, m).value.1)
               else t.markets[m] == r.markets[m]
    ensures Agree(s, t, {}, false) <==> forall m :: 0 <= m < |s.markets| ==> ShowsLastTick(s.markets[m], log, m)
  {
    hide LastTick, SamePositions, SameOrders;
    forall m | 0 <= m < |s.markets|
      ensures WithoutOi(s.markets[m]) == WithoutOi(t.markets[m]) <==> ShowsLastTick(s.markets[m], log, m)
    {
      assert WithoutOi(s.markets[m]).price == s.markets[m].price && WithoutOi(t.markets[m]).price == t.markets[m].price;
      assert WithoutOi(s.markets[m]).lastUpdateNs == s.markets[m].lastUpdateNs;
      assert WithoutOi(t.markets[m]).lastUpdateNs == t.markets[m].lastUpdateNs;
    }
  }

  /** Non-decreasing block numbers, as the indexer delivers them. */
  predicate BlocksSorted(log: seq<WalEntry>) {
    forall i, j :: 0 <= i < j < |log| && log[i].EventEntry? && log[j].EventEntry? ==>
      log[i].indexed.blockNumber <= log[j].indexed.blockNumber
  }

  /** With sorted blocks the checkpoint is the highest block seen, so every logged event is covered. */
  lemma {:induction false} SortedRunIsCovered(log: seq<WalEntry>)
    requires AllWritten(log) && BlocksSorted(log)
    ensures BlocksUpTo(log, LiveRun(Empty(), log).checkpoint.lastBlock)
    decreases |log|
  {
    if log != [] {
      var init, last := log[..|log| - 1], log[|log| - 1];
      SortedRunIsCovered(init);
      var b := LiveRun(Empty(), init).checkpoint.lastBlock;
      forall i | 0 <= i < |init| && init[i].EventEntry?
        ensures init[i].indexed.blockNumber <= LiveRun(Empty(), log).checkpoint.lastBlock
      {
        assert init[i] == log[i];
        if last.EventEntry? {
          assert log[i].indexed.blockNumber <= last.indexed.blockNumber;
        }
      }
      assert forall i :: 0 <= i < |init| ==> init[i] == log[i];
    }
  }

  /* ---------- why the block boundary matters ---------- */

  /** The events that replay with snapshot block `b` does not skip. */
  function Delivered(log: seq<WalEntry>, b: nat): seq<IndexedEvent> {
    if log == [] then []
    else
      var last := log[|log| - 1];
      Delivered(log[..|log| - 1], b)
      + if last.EventEntry? && last.indexed.blockNumber > b then [last.indexed] else []
  }

  function Events(log: seq<WalEntry>): seq<IndexedEvent> {
    if log == [] then []
    else Events(log[..|log| - 1]) + if log[|log| - 1].EventEntry? then [log[|log| - 1].indexed] else []
  }

  lemma {:induction false} DeliveredConcat(x: seq<WalEntry>, y: seq<WalEntry>, b: nat)
    ensures Delivered(x + y, b) == Delivered(x, b) + Delivered(y, b)
    decreases |y|
  {
    if y == [] {
      assert x + y == x;
    } else {
      DeliveredConcat(x, y[..|y| - 1], b);
      assert (x + y)[..|x + y| - 1] == x + y[..|y| - 1];
    }
  }

  lemma {:induction false} DeliveredBounds(log: seq<WalEntry>, b: nat)
    ensures forall i :: 0 <= i < |Delivered(log, b)| ==> Delivered(log, b)[i].blockNumber > b
    ensures |Delivered(log, b)| <= |Events(log)|
    ensures Delivered(log, b) == [] <==> BlocksUpTo(log, b)
    ensures |Delivered(log, b)| == |Events(log)| <==> BlocksAbove(log, b)
    ensures BlocksAbove(log, b) ==> Delivered(log, b) == Events(log)
    decreases |log|
  {
    if log != [] {
      var init := log[..|log| - 1];
      DeliveredBounds(init, b);
      assert forall i :: 0 <= i < |init| ==> init[i] == log[i];
      assert BlocksUpTo(log, b) ==> BlocksUpTo(init, b);
      assert BlocksAbove(log, b) ==> BlocksAbove(init, b);
    }
  }

  /** Filing a list of events, one after the other. */
  function FiledAll(log: EventLog, es: seq<IndexedEvent>): EventLog {
    if es == [] then log
    else
      var ie := es[|es| - 1];
      FiledAll(log, es[..|es| - 1]).Append(ie, EventKeys(ie.event).0, EventKeys(ie.event).1)
  }

  lemma EntryFiles(s: State, b: nat, entry: WalEntry)
    ensures ReplayEntry(s, b, entry).events ==
            if entry.EventEntry? && entry.indexed.blockNumber > b
            then s.events.Append(entry.indexed, EventKeys(entry.indexed.event).0, EventKeys(entry.indexed.event).1)
            else s.events
  {
    hide LiveApply, ReplayApply, EventKeys;
    if entry.EventEntry? {
      ApplyLeavesLog(s, entry.indexed);
    }
  }

  /** Replay files exactly the delivered events, in log order. */
  lemma {:induction false} ReplayFiles(r: State, b: nat, log: seq<WalEntry>)
    ensures ReplayRun(r, b, log).events == FiledAll(r.events, Delivered(log, b))
    decreases |log|
  {
    hide ReplayEntry, EventKeys, EventLog.Append;
    if log != [] {
      var init, last := log[..|log| - 1], log[|log| - 1];
      ReplayFiles(r, b, init);
      EntryFiles(ReplayRun(r, b, init), b, last);
      if last.EventEntry? && last.indexed.blockNumber > b {
        var es := Delivered(init, b) + [last.indexed];
        assert Delivered(log, b) == es && es[..|es| - 1] == Delivered(init, b);
      } else {
        assert Delivered(log, b) == Delivered(init, b);
      }
    }
  }

  /** Replay over a snapshot of block `b` delivers exactly the events logged after the snapshot,
      once each, if and only if the snapshot sits on a block boundary. */
  lemma DeliveredOnceIff(pre: seq<WalEntry>, post: seq<WalEntry>, b: nat)
    ensures Delivered(pre + post, b) == Events(post) <==> BlocksUpTo(pre, b) && BlocksAbove(post, b)
  {
    DeliveredConcat(pre, post, b);
    DeliveredBounds(pre, b);
    DeliveredBounds(post, b);
    if Delivered(pre + post, b) == Events(post) && Delivered(pre, b) != [] {
      assert |Delivered(post, b)| < |Events(post)|;
      LostEventShows(post, b);
      var i :| 0 <= i < |Events(post)| && Events(post)[i].blockNumber <= b;
      DeliveredBounds(pre + post, b);
    }
  }

  /** The event is filed under a market or a trader; the others are only counted. */
  predicate HasKey(ie: IndexedEvent) {
    EventKeys(ie.event).0.Some? || EventKeys(ie.event).1.Some?
  }

  function OfMarket(m: nat): IndexedEvent -> bool {
    (ie: IndexedEvent) => EventKeys(ie.event).0 == Some(m)
  }

  function OfTrader(a: Address): IndexedEvent -> bool {
    (ie: IndexedEvent) => EventKeys(ie.event).1 == Some(a)
  }

  /** What a partition holds, nothing where there is none. */
  function Partition<K>(m: map<K, seq<IndexedEvent>>, k: K): seq<IndexedEvent> {
    if k in m then m[k] else []
  }

  /** Filing adds to a partition the events of its own key, in order. */
  lemma {:induction false} FiledPartitions(log: EventLog, es: seq<IndexedEvent>, m: nat, a: Address)
    ensures var f := FiledAll(log, es);
            && f.total == log.total + |es|
            && Partition(f.byMarket, m) == Partition(log.byMarket, m) + Filter(es, OfMarket(m))
            && Partition(f.byTrader, a) == Partition(log.byTrader, a) + Filter(es, OfTrader(a))
  {
    hide EventKeys;
    if es != [] {
      var init := es[..|es| - 1];
      FiledPartitions(log, init, m, a);
    }
  }

  function Filter(es: seq<IndexedEvent>, p: IndexedEvent -> bool): seq<IndexedEvent> {
    if es == [] then []
    else Filter(es[..|es| - 1], p) + if p(es[|es| - 1]) then [es[|es| - 1]] else []
  }

  lemma {:induction false} FilterMembers(es: seq<IndexedEvent>, p: IndexedEvent -> bool, x: IndexedEvent)
    ensures x in Filter(es, p) <==> x in es && p(x)
  {
    if es != [] {
      FilterMembers(es[..|es| - 1], p, x);
      assert es == es[..|es| - 1] + [es[|es| - 1]];
    }
  }

  /** Two lists of events that leave the same log hold the same filed events. */
  lemma SameFiled(log: EventLog, x: seq<IndexedEvent>, y: seq<IndexedEvent>, e: IndexedEvent)
    requires FiledAll(log, x) == FiledAll(log, y) && e in y && HasKey(e)
    ensures e in x
  {
    var keys := EventKeys(e.event);
    if keys.0.Some? {
      var m := keys.0.value;
      var p := OfMarket(m);
      FiledPartitions(log, x, m, 0);
      FiledPartitions(log, y, m, 0);
      FilterMembers(x, p, e);
      FilterMembers(y, p, e);
      SameSuffix(Partition(log.byMarket, m), Filter(x, p), Filter(y, p));
    } else {
      var a := keys.1.value;
      var p := OfTrader(a);
      FiledPartitions(log, x, 0, a);
      FiledPartitions(log, y, 0, a);
      FilterMembers(x, p, e);
      FilterMembers(y, p, e);
      SameSuffix(Partition(log.byTrader, a), Filter(x, p), Filter(y, p));
    }
  }

  lemma SameSuffix<T>(a: seq<T>, x: seq<T>, y: seq<T>)
    requires a + x == a + y
    ensures x == y
  {
    assert x == (a + x)[|a|..] && y == (a + y)[|a|..];
  }

  /* Filed events, apart from those without a key. */

  function WithKey(): IndexedEvent -> bool {
    (ie: IndexedEvent) => HasKey(ie)
  }

  predicate KeyedUpTo(log: seq<WalEntry>, b: nat) {
    forall i :: 0 <= i < |log| && log[i].EventEntry? && HasKey(log[i].indexed) ==> log[i].indexed.blockNumber <= b
  }

  predicate KeyedAbove(log: seq<WalEntry>, b: nat) {
    forall i :: 0 <= i < |log| && log[i].EventEntry? && HasKey(log[i].indexed) ==> log[i].indexed.blockNumber > b
  }

  lemma {:induction false} FilterConcat(x: seq<IndexedEvent>, y: seq<IndexedEvent>, p: IndexedEvent -> bool)
    ensures Filter(x + y, p) == Filter(x, p) + Filter(y, p)
    decreases |y|
  {
    if y == [] {
      assert x + y == x;
    } else {
      FilterConcat(x, y[..|y| - 1], p);
      assert (x + y)[..|x + y| - 1] == x + y[..|y| - 1];
    }
  }

  /** Only the keyed events and the number of all events decide what filing leaves. */
  lemma {:induction false} FiledKeyed(log: EventLog, es: seq<IndexedEvent>)
    ensures FiledAll(log, es) == FiledAll(log, Filter(es, WithKey())).(total := log.total + |es|)
  {
    if es != [] {
      hide EventKeys;
      var init, last := es[..|es| - 1], es[|es| - 1];
      FiledKeyed(log, init);
      if HasKey(last) {
        var kept := Filter(init, WithKey()) + [last];
        assert Filter(es, WithKey()) == kept && kept[..|kept| - 1] == Filter(init, WithKey());
      } else {
        assert Filter(es, WithKey()) == Filter(init, WithKey());
      }
    }
  }

  /** Where replay skips no event of some kind, that kind is delivered in full. */
  lemma {:induction false} DeliveredKind(log: seq<WalEntry>, b: nat, p: IndexedEvent -> bool)
    requires KeyedAbove(log, b) && forall ie :: p(ie) ==> HasKey(ie)
    ensures Filter(Delivered(log, b), p) == Filter(Events(log), p)
    decreases |log|
  {
    if log != [] {
      hide HasKey, Filter;
      var init, last := log[..|log| - 1], log[|log| - 1];
      assert forall i :: 0 <= i < |init| ==> init[i] == log[i];
      DeliveredKind(init, b, p);
      if last.EventEntry? {
        assert Events(log) == Events(init) + [last.indexed];
        FilterOne(last.indexed, p);
        FilterConcat(Events(init), [last.indexed], p);
        FilterConcat(Delivered(init, b), [last.indexed], p);
        assert last.indexed.blockNumber <= b ==> Delivered(log, b) == Delivered(init, b) && !p(last.indexed);
      } else {
        assert Events(log) == Events(init) && Delivered(log, b) == Delivered(init, b);
      }
    }
  }

  lemma FilterOne(ie: IndexedEvent, p: IndexedEvent -> bool)
    ensures Filter([ie], p) == if p(ie) then [ie] else []
  {
    assert [ie][..0] == [];
  }

  lemma {:induction false} DeliveredKeyless(log: seq<WalEntry>, b: nat)
    requires KeyedUpTo(log, b)
    ensures Filter(Delivered(log, b), WithKey()) == []
    decreases |log|
  {
    if log != [] {
      hide HasKey, Filter;
      var init, last := log[..|log| - 1], log[|log| - 1];
      assert forall i :: 0 <= i < |init| ==> init[i] == log[i];
      DeliveredKeyless(init, b);
      if last.EventEntry? && last.indexed.blockNumber > b {
        FilterOne(last.indexed, WithKey());
        FilterConcat(Delivered(init, b), [last.indexed], WithKey());
      } else {
        assert Delivered(log, b) == Delivered(init, b);
      }
    } else {
      assert Delivered(log, b) == [];
    }
  }

  lemma {:induction false} EventListed(log: seq<WalEntry>, i: nat, b: nat)
    requires i < |log| && log[i].EventEntry?
    ensures log[i].indexed in Events(log)
    ensures log[i].indexed.blockNumber > b ==> log[i].indexed in Delivered(log, b)
    decreases |log|
  {
    var init := log[..|log| - 1];
    if i < |init| {
      EventListed(init, i, b);
      assert forall x :: x in Events(init) ==> x in Events(log);
      assert forall x :: x in Delivered(init, b) ==> x in Delivered(log, b);
    }
  }

  /** Equal event logs: no keyed event of `post` was skipped, and none of `pre` was delivered. */
  lemma SameLogs(log: EventLog, pre: seq<WalEntry>, post: seq<WalEntry>, b: nat)
    requires FiledAll(log, Delivered(pre, b) + Delivered(post, b)) == FiledAll(log, Events(post))
    ensures KeyedAbove(post, b) && KeyedUpTo(pre, b)
  {
    hide FiledAll, HasKey, EventKeys;
    DeliveredBounds(pre, b);
    DeliveredBounds(post, b);
    forall i | 0 <= i < |post| && post[i].EventEntry? && HasKey(post[i].indexed)
      ensures post[i].indexed.blockNumber > b
    {
      EventListed(post, i, b);
      SameFiled(log, Delivered(pre, b) + Delivered(post, b), Events(post), post[i].indexed);
    }
    forall i | 0 <= i < |pre| && pre[i].EventEntry? && HasKey(pre[i].indexed)
      ensures pre[i].indexed.blockNumber <= b
    {
      if pre[i].indexed.blockNumber > b {
        EventListed(pre, i, b);
        ExtraShows(log, Delivered(pre, b), post, b, pre[i].indexed);
      }
    }
  }

  /** A keyed event delivered in front of all of `post` shows in its partition. */
  lemma ExtraShows(log: EventLog, extra: seq<IndexedEvent>, post: seq<WalEntry>, b: nat, e: IndexedEvent)
    requires KeyedAbove(post, b) && e in extra && HasKey(e)
    ensures FiledAll(log, extra + Delivered(post, b)) != FiledAll(log, Events(post))
  {
    hide FiledAll, Filter, KeyedAbove;
    var keys, all := EventKeys(e.event), extra + Delivered(post, b);
    var m := if keys.0.Some? then keys.0.value else 0;
    var a := if keys.1.Some? then keys.1.value else 0;
    var p := if keys.0.Some? then OfMarket(m) else OfTrader(a);
    FiledPartitions(log, all, m, a);
    FiledPartitions(log, Events(post), m, a);
    FilterConcat(extra, Delivered(post, b), p);
    DeliveredKind(post, b, p);
    FilterMembers(extra, p, e);
    assert |Filter(all, p)| > |Filter(Events(post), p)|;
  }

  /** Seen on the recovered state: its event log is the snapshot's with the later events filed once
      each, if and only if every keyed event lies on its own side of the snapshot block and as many
      events were delivered as came later (events without a key are only counted).  Where every
      later event has a key, that is the block boundary. */
  lemma ReplayedOnceIff(r: State, pre: seq<WalEntry>, post: seq<WalEntry>, b: nat)
    ensures ReplayRun(r, b, pre + post).events == FiledAll(r.events, Events(post))
            <==> KeyedUpTo(pre, b) && KeyedAbove(post, b) && |Delivered(pre + post, b)| == |Events(post)|
    ensures (forall i :: 0 <= i < |Events(post)| ==> HasKey(Events(post)[i])) ==>
              (ReplayRun(r, b, pre + post).events == FiledAll(r.events, Events(post))
               <==> BlocksUpTo(pre, b) && BlocksAbove(post, b))
  {
    hide ReplayRun, HasKey, FiledAll, Filter, KeyedUpTo, KeyedAbove, Delivered, Events;
    var x, y, es := Delivered(pre, b), Delivered(post, b), Events(post);
    ReplayFiles(r, b, pre + post);
    DeliveredConcat(pre, post, b);
    FiledPartitions(r.events, x + y, 0, 0);
    FiledPartitions(r.events, es, 0, 0);
    if FiledAll(r.events, x + y) == FiledAll(r.events, es) {
      SameLogs(r.events, pre, post, b);
    }
    if KeyedUpTo(pre, b) && KeyedAbove(post, b) && |x + y| == |es| {
      DeliveredKeyless(pre, b);
      DeliveredKind(post, b, WithKey());
      FilterConcat(x, y, WithKey());
      FiledKeyed(r.events, x + y);
      FiledKeyed(r.events, es);
      assert [] + Filter(es, WithKey()) == Filter(es, WithKey());
    }
    if forall i :: 0 <= i < |es| ==> HasKey(es[i]) {
      AllKeyed(pre, post, b);
    }
  }

  lemma AllKeyed(pre: seq<WalEntry>, post: seq<WalEntry>, b: nat)
    requires forall i :: 0 <= i < |Events(post)| ==> HasKey(Events(post)[i])
    ensures KeyedUpTo(pre, b) && KeyedAbove(post, b) && |Delivered(pre + post, b)| == |Events(post)|
            <==> BlocksUpTo(pre, b) && BlocksAbove(post, b)
  {
    hide HasKey;
    DeliveredConcat(pre, post, b);
    DeliveredBounds(pre, b);
    DeliveredBounds(post, b);
    forall i | 0 <= i < |post| && post[i].EventEntry?
      ensures HasKey(post[i].indexed)
    {
      EventListed(post, i, b);
    }
  }

  /** Two pauses in one block. */
  function OneBlock(): seq<WalEntry> {
    [EventEntry(IndexedEvent(1, 0, 0, 0, 0, MarketPaused(0))), EventEntry(IndexedEvent(1, 0, 0, 0, 1, MarketPaused(1)))]
  }

  lemma OneBlockRuns()
    ensures var s, live := LiveRun(Empty(), OneBlock()[..1]), LiveRun(Empty(), OneBlock());
            && s.checkpoint.lastBlock == 1 && |s.markets| == |live.markets| == MARKET_COUNT
            && !s.markets[1].inner.paused && live.markets[1].inner.paused
  {
    var log, one := OneBlock(), OneBlock()[..1];
    assert one[..0] == [] && one[0] == log[0] && log[..|log| - 1] == one;
    assert LiveRun(Empty(), one) == LiveStep(Empty(), log[0].indexed);
    assert LiveRun(Empty(), log) == LiveStep(LiveRun(Empty(), one), log[1].indexed);
  }

  /** A snapshot in the middle of a block: replay skips the second event with the first, and market
      1, paused in the live engine, comes back running. */
  lemma MidBlockSnapshot(snap: StateSnapshot, addresses: seq<Address>)
    requires IsSnapshot(LiveRun(Empty(), OneBlock()[..1]), snap, addresses)
    ensures var live, rec := LiveRun(Empty(), OneBlock()), ReplayRun(Restore(snap), snap.checkpoint.lastBlock, OneBlock());
            && |live.markets| == |rec.markets| == MARKET_COUNT
            && live.markets[1].inner.paused && !rec.markets[1].inner.paused
  {
    hide LiveRun, ReplayRun, Enumerates, SnapshotDaily, PositionStore.InsertAll, OrderStore.InsertAll, SetAll, Collect,
      RestoreDaily;
    OneBlockRuns();
    RestoredMarkets(LiveRun(Empty(), OneBlock()[..1]).markets);
    CoveredReplay(Restore(snap), 1, OneBlock());
    assert LastTick(OneBlock(), 1) == LastTick(OneBlock()[..1], 1) == None;
  }

  lemma {:induction false} LostEventShows(log: seq<WalEntry>, b: nat)
    requires |Delivered(log, b)| < |Events(log)|
    ensures exists i :: 0 <= i < |Events(log)| && Events(log)[i].blockNumber <= b
    decreases |log|
  {
    var init, last := log[..|log| - 1], log[|log| - 1];
    if last.EventEntry? && last.indexed.blockNumber <= b {
      assert Events(log)[|Events(init)|] == last.indexed;
    } else {
      LostEventShows(init, b);
      var i :| 0 <= i < |Events(init)| && Events(init)[i].blockNumber <= b;
      assert Events(log)[i] == Events(init)[i];
    }
  }
}
