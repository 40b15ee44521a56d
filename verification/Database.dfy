/** The engine object of `src/engine.rs`: stores updated in place, event by event, behind the
    write-ahead log, with recovery on open. */
module Database {
  import opened Collections
  import opened Bytes
  import opened Types
  import opened PositionStore
  import opened OrderStore
  import opened BalanceStore
  import opened UserStore
  import opened EventLogStore
  import opened CheckpointStore
  import opened StatsStore
  import opened MarketStore
  import opened Engine
  import opened Snapshots
  import opened Wal
  import opened WalProtocol
  import opened Recovery
  import opened Timeframes
  import opened Candles
  import opened CandleFiles
  import opened TickStore
  import CivilDate
  import Sessions

  /** The in-memory stores.  They are different objects of different classes, so a write to one
      leaves the others alone. */
  class Stores {
    const positions: PositionTable
    const orders: OrderTable
    const balances: BalanceCache
    const users: UserTable
    const traders: TraderStatsTable
    const daily: DailyStatsTable
    const markets: MarketTable
    const events: EventTable
    const checkpoint: CheckpointCell

    ghost const Repr: set<object> :=
      {positions, orders, balances, users, traders, daily, markets, events, checkpoint}

    ghost function View(): State
      reads Repr
    {
      State(positions.View(), orders.View(), balances.View(), users.rows, traders.rows, daily.rows,
            markets.slots, events.View(), checkpoint.cp)
    }

    constructor ()
      ensures View() == Empty() && fresh(Repr)
    {
      positions := new PositionTable();
      orders := new OrderTable();
      balances := new BalanceCache();
      users := new UserTable();
      traders := new TraderStatsTable();
      daily := new DailyStatsTable();
      markets := new MarketTable();
      events := new EventTable();
      checkpoint := new CheckpointCell();
    }

    /* ---------- the live interpreter, statement by statement ---------- */

    method OpenPosition(ie: IndexedEvent)
      requires ie.event.PositionOpened?
      modifies positions, users, traders, markets
      ensures View() == LiveOpened(old(View()), ie)
    {
      hide NewPosition, Positions.Insert, WithUser, IncrementOpen, WithTrader, AddOi;
      var e := ie.event;
      var pos := NewPosition(ie, e.entryPrice);
      positions.Insert(pos);
      users.Ensure(e.user, ie.blockTimestamp);
      traders.Ensure(e.user);
      traders.IncrementOpenPositions(e.user);
      markets.AddOpenInterest(e.market, e.isLong, e.sizeUsd);
    }

    method CountClose(ie: IndexedEvent)
      requires ie.event.PositionClosed?
      modifies traders, daily
      ensures traders.rows == TradersAfterClose(old(traders.rows), ie)
      ensures daily.rows == Accumulate(old(daily.rows), ie.event.user, CivilDate.TimestampToDate(ie.blockTimestamp),
                                       ie.event.closedSizeUsd, ie.event.realizedPnl, 0)
    {
      var e := ie.event;
      var isWin := e.realizedPnl > 0;
      traders.Ensure(e.user);
      var _ := traders.IncrementTrade(e.user, e.closedSizeUsd, e.realizedPnl, 0, isWin, false, ie.blockTimestamp);
      if e.isFullClose {
        traders.DecrementOpenPositions(e.user);
      }
      var date := CivilDate.TimestampToDate(ie.blockTimestamp);
      daily.AccumulateTrade(e.user, date, e.closedSizeUsd, e.realizedPnl, 0);
    }

    method ClosePosition(ie: IndexedEvent)
      requires ie.event.PositionClosed?
      modifies positions, traders, daily, markets
      ensures View() == LiveClosed(old(View()), ie)
    {
      hide TradersAfterClose, Accumulate, AddOi;
      var e := ie.event;
      var _ := positions.Update(e.positionId, p => CloseLive(ie, p));
      CountClose(ie);
      var pos := positions.Get(e.positionId);
      if pos.Some? {
        markets.AddOpenInterest(e.market, pos.value.isLong, -e.closedSizeUsd);
      }
    }

    method CountLiquidation(ie: IndexedEvent)
      requires ie.event.Liquidation?
      modifies traders
      ensures traders.rows == TradersAfterLiquidation(old(traders.rows), ie)
    {
      var e := ie.event;
      traders.Ensure(e.user);
      var negPenalty := -e.penalty;
      var _ := traders.IncrementTrade(e.user, 0, negPenalty, 0, false, true, ie.blockTimestamp);
      traders.DecrementOpenPositions(e.user);
    }

    method Deposit(user: Address, token: Address, amount: Fixed)
      modifies balances
      ensures balances.View() == old(balances.View()).Set(Deposited(old(balances.View()), user, token, amount))
    {
      var existing := balances.Get(user, token);
      var newAmount := if existing.Some? then existing.value.amount + amount else amount;
      var newLocked := if existing.Some? then existing.value.locked else 0;
      balances.Set(Balance(user, token, newAmount, newLocked, newAmount - newLocked));
    }

    method Withdraw(user: Address, token: Address, amount: Fixed)
      modifies balances
      ensures balances.View() == old(balances.View()).Set(Withdrawn(old(balances.View()), user, token, amount))
    {
      var existing := balances.Get(user, token);
      var newAmount := if existing.Some? then Max(existing.value.amount - amount, 0) else 0;
      var newLocked := if existing.Some? then existing.value.locked else 0;
      balances.Set(Balance(user, token, newAmount, newLocked, Max(newAmount - newLocked, 0)));
    }

    method ApplyPositionEvent(ie: IndexedEvent)
      requires ie.event.PositionModified? || ie.event.Liquidation?
      modifies positions, traders
      ensures View() == LiveApply(old(View()), ie)
    {
      hide TradersAfterLiquidation;
      var e := ie.event;
      if e.PositionModified? {
        var _ := positions.Update(e.positionId, p => Modified(e, p));
      } else {
        var _ := positions.Update(e.positionId, p => LiquidateLive(ie, p));
        CountLiquidation(ie);
      }
    }

    method ApplyOrderEvent(ie: IndexedEvent)
      requires ie.event.OrderPlaced? || ie.event.OrderExecuted? || ie.event.OrderCancelled?
      modifies orders, users
      ensures View() == LiveApply(old(View()), ie)
    {
      hide NewOrder, Orders.Insert, Orders.Execute, Orders.Cancel, WithUser;
      match ie.event
      case OrderPlaced(_, user, _, _, _, _, _) =>
        orders.Insert(NewOrder(ie));
        users.Ensure(user, ie.blockTimestamp);
      case OrderExecuted(id, position, price) =>
        var _ := orders.Execute(id, price, position, ie.blockTimestamp);
      case OrderCancelled(id, _) =>
        var _ := orders.Cancel(id);
    }

    method DepositCollateral(ie: IndexedEvent)
      requires ie.event.CollateralDeposited?
      modifies users, balances
      ensures View() == LiveDeposited(old(View()), ie)
    {
      users.Ensure(ie.event.user, ie.blockTimestamp);
      Deposit(ie.event.user, ie.event.token, ie.event.amount);
    }

    method CreateVault(ie: IndexedEvent)
      requires ie.event.VaultCreated?
      modifies users
      ensures View() == LiveVault(old(View()), ie)
    {
      users.Ensure(ie.event.user, ie.blockTimestamp);
      users.SetVault(ie.event.user, ie.event.vault);
    }

    method ApplyLedgerEvent(ie: IndexedEvent)
      requires IsLedgerEvent(ie.event)
      modifies users, balances
      ensures View() == LiveApply(old(View()), ie)
    {
      hide LiveDeposited, LiveVault, Balances.Set, Withdrawn;
      match ie.event
      case CollateralDeposited(_, _, _) => DepositCollateral(ie);
      case CollateralWithdrawn(user, token, amount) => Withdraw(user, token, amount);
      case VaultCreated(_, _) => CreateVault(ie);
    }

    method ApplyMarketEvent(ie: IndexedEvent)
      requires ie.event.FundingRateUpdated? || ie.event.MarketPaused?
      modifies markets
      ensures View() == LiveApply(old(View()), ie)
    {
      match ie.event
      case FundingRateUpdated(market, perSecond, rate24h) => markets.SetFundingRate(market, perSecond, rate24h);
      case MarketPaused(market) => markets.SetPaused(market, true);
    }

    /** The store updates of `process_event`. */
    method ApplyLive(ie: IndexedEvent)
      modifies Repr
      ensures View() == LiveApply(old(View()), ie)
    {
      match ie.event
      case PositionOpened(_, _, _, _, _, _, _, _, _) => OpenPosition(ie);
      case PositionClosed(_, _, _, _, _, _, _) => ClosePosition(ie);
      case PositionModified(_, _, _, _) => ApplyPositionEvent(ie);
      case Liquidation(_, _, _, _, _, _) => ApplyPositionEvent(ie);
      case OrderPlaced(_, _, _, _, _, _, _) => ApplyOrderEvent(ie);
      case OrderExecuted(_, _, _) => ApplyOrderEvent(ie);
      case OrderCancelled(_, _) => ApplyOrderEvent(ie);
      case CollateralDeposited(_, _, _) => ApplyLedgerEvent(ie);
      case CollateralWithdrawn(_, _, _) => ApplyLedgerEvent(ie);
      case VaultCreated(_, _) => ApplyLedgerEvent(ie);
      case FundingRateUpdated(_, _, _) => ApplyMarketEvent(ie);
      case MarketPaused(_) => ApplyMarketEvent(ie);
      case _ =>
    }

    method FileEvent(ie: IndexedEvent)
      modifies events
      ensures View() == Filed(old(View()), ie)
    {
      var keys := EventKeys(ie.event);
      events.Append(ie, keys.0, keys.1);
    }

    method AdvanceTo(block: nat)
      modifies checkpoint
      ensures View() == old(View()).(checkpoint := old(View()).checkpoint.(lastBlock := block))
    {
      checkpoint.AdvanceBlock(block);
    }

    /** Everything `process_event` does after the write-ahead: file the event, apply it, move the
        checkpoint. */
    method StepLive(ie: IndexedEvent)
      modifies Repr
      ensures View() == LiveStep(old(View()), ie)
    {
      hide LiveApply, EventKeys;
      FiledFirst(View(), ie);
      FileEvent(ie);
      ApplyLive(ie);
      AdvanceTo(ie.blockNumber);
    }

    method StepReplay(ie: IndexedEvent)
      modifies Repr
      ensures View() == Logged(ReplayApply(old(View()), ie), ie)
    {
      hide ReplayApply, EventKeys;
      FiledFirstReplay(View(), ie);
      FileEvent(ie);
      ApplyReplay(ie);
      AdvanceTo(ie.blockNumber);
    }

    /* ---------- the recovery interpreter ---------- */

    method ReplayPosition(ie: IndexedEvent)
      requires ie.event.PositionOpened? || ie.event.PositionClosed? || ie.event.Liquidation?
      modifies positions, users, traders, daily
      ensures View() == ReplayApply(old(View()), ie)
    {
      hide NewPosition, Positions.Insert, TradersAfterClose, TradersAfterLiquidation, Accumulate,
        WithUser, IncrementOpen, WithTrader;
      var e := ie.event;
      match e
      case PositionOpened(_, user, _, _, _, _, _, _, _) =>
        positions.Insert(NewPosition(ie, 0));
        users.Ensure(user, ie.blockTimestamp);
        traders.Ensure(user);
        traders.IncrementOpenPositions(user);
      case PositionClosed(id, _, _, _, _, _, _) =>
        var _ := positions.Update(id, p => CloseReplay(e, p));
        CountClose(ie);
      case Liquidation(id, _, _, _, _, _) =>
        var _ := positions.Update(id, p => LiquidateReplay(e, p));
        CountLiquidation(ie);
    }

    /** The store updates of `replay_wal_entry` for an event that is not skipped. */
    method ApplyReplay(ie: IndexedEvent)
      modifies Repr
      ensures View() == ReplayApply(old(View()), ie)
    {
      SharedApply(View(), ie);
      match ie.event
      case PositionOpened(_, _, _, _, _, _, _, _, _) => ReplayPosition(ie);
      case PositionClosed(_, _, _, _, _, _, _) => ReplayPosition(ie);
      case Liquidation(_, _, _, _, _, _) => ReplayPosition(ie);
      case OrderPlaced(_, _, _, _, _, _, _) => ApplyOrderEvent(ie);
      case OrderExecuted(_, _, _) => ApplyOrderEvent(ie);
      case OrderCancelled(_, _) => ApplyOrderEvent(ie);
      case CollateralDeposited(_, _, _) => ApplyLedgerEvent(ie);
      case CollateralWithdrawn(_, _, _) => ApplyLedgerEvent(ie);
      case VaultCreated(_, _) => ApplyLedgerEvent(ie);
      case FundingRateUpdated(_, _, _) => ApplyMarketEvent(ie);
      case MarketPaused(_) => ApplyMarketEvent(ie);
      case _ =>
    }

    method ReplayOne(entry: WalEntry, snapBlock: nat)
      modifies Repr
      ensures View() == ReplayEntry(old(View()), snapBlock, entry)
    {
      match entry
      case TickEntry(ns, market, price) => markets.SetPrice(market, price, ns);
      case CheckpointEntry(block) => checkpoint.AdvanceBlock(block);
      case BalanceUpdate(user, token, amount, locked, available) =>
        balances.Set(Balance(user, token, amount, locked, available));
      case EventEntry(ie) =>
        if ie.blockNumber > snapBlock {
          StepReplay(ie);
        }
      case CandleUpdate(_, _, _, _, _, _, _, _) =>
      case BatchEnd =>
    }

    method ReplayLog(log: seq<WalEntry>, snapBlock: nat)
      modifies Repr
      ensures View() == ReplayRun(old(View()), snapBlock, log)
    {
      for i := 0 to |log|
        invariant View() == ReplayRun(old(View()), snapBlock, log[..i])
      {
        assert log[..i + 1][..i] == log[..i];
        ReplayOne(log[i], snapBlock);
      }
      assert log[..|log|] == log;
    }

    method SetPrice(t: PriceTick)
      modifies markets
      ensures View() == LiveEntry(old(View()), TickEntry(t.timestampNs, t.market, t.price))
    {
      markets.SetPrice(t.market, t.price, t.timestampNs);
    }

    /** Recovery as `open` runs it: snapshot first, then every log entry. */
    method Recover(codec: Codec<WalEntry>, snap: Option<StateSnapshot>, dir: map<int, seq<byte>>)
      requires View() == Empty()
      modifies Repr
      ensures View() == Recovered(codec, snap, dir)
    {
      hide Restore, ReplayRun, Replay;
      var block := 0;
      if snap.Some? {
        block := snap.value.checkpoint.lastBlock;
        RestoreSnapshot(snap.value);
      }
      var entries, _ := ReplayAll(codec, dir);
      ReplayLog(entries, block);
    }

    /* ---------- snapshot and restore ---------- */

    /** The daily rows of a snapshot, trader by trader. */
    method CollectDaily(rows: seq<TraderStats>) returns (entries: seq<DailyEntry>, addresses: seq<Address>)
      ensures |addresses| == |rows| && forall i :: 0 <= i < |rows| ==> addresses[i] == rows[i].address
      ensures entries == SnapshotDaily(daily.rows, addresses)
    {
      hide SnapshotDaily, TraderEntries;
      entries, addresses := [], [];
      SnapshotDailySnoc(daily.rows, [], 0);
      for i := 0 to |rows|
        invariant |addresses| == i && forall j :: 0 <= j < i ==> addresses[j] == rows[j].address
        invariant entries == SnapshotDaily(daily.rows, addresses)
      {
        entries := entries + TraderEntries(daily.rows, rows[i].address);
        SnapshotDailySnoc(daily.rows, addresses, rows[i].address);
        addresses := addresses + [rows[i].address];
      }
    }

    method TakeSnapshot() returns (snap: StateSnapshot)
      requires RowsKeyed(View())
      ensures exists addresses :: IsSnapshot(View(), snap, addresses)
    {
      var traderRows := Values(traders.rows, TraderKey);
      var entries, listed := CollectDaily(traderRows);
      ListedTraders(traders.rows, traderRows, listed);
      var ps := Values(positions.rows, PositionKey);
      var os := Values(orders.rows, OrderKey);
      var bs := Values(balances.rows, BalanceKey);
      var us := Values(users.rows, UserKey);
      var ts := Values(traders.rows, TraderKey);
      snap := StateSnapshot(checkpoint.cp, ps, os, bs, us, ts, entries, SnapshotMarkets(markets.slots));
      assert IsSnapshot(View(), snap, listed);
    }

    method RestorePositionRows(ps: seq<Position>)
      modifies positions
      ensures positions.View() == PositionStore.InsertAll(old(positions.View()), ps)
    {
      for i := 0 to |ps|
        invariant positions.View() == PositionStore.InsertAll(old(positions.View()), ps[..i])
      {
        assert ps[..i + 1][..i] == ps[..i];
        positions.Insert(ps[i]);
      }
      assert ps[..|ps|] == ps;
    }

    method RestoreOrderRows(os: seq<Order>)
      modifies orders
      ensures orders.View() == OrderStore.InsertAll(old(orders.View()), os)
    {
      for i := 0 to |os|
        invariant orders.View() == OrderStore.InsertAll(old(orders.View()), os[..i])
      {
        assert os[..i + 1][..i] == os[..i];
        orders.Insert(os[i]);
      }
      assert os[..|os|] == os;
    }

    method RestoreBalanceRows(bs: seq<Balance>)
      modifies balances
      ensures balances.View() == SetAll(old(balances.View()), bs)
    {
      for i := 0 to |bs|
        invariant balances.View() == SetAll(old(balances.View()), bs[..i])
      {
        assert bs[..i + 1][..i] == bs[..i];
        balances.Set(bs[i]);
      }
      assert bs[..|bs|] == bs;
    }

    method RestoreUserRows(us: seq<User>)
      requires users.rows == map[]
      modifies users
      ensures users.rows == Collect(us, UserKey)
    {
      for i := 0 to |us|
        invariant users.rows == Collect(us[..i], UserKey)
      {
        assert us[..i + 1][..i] == us[..i];
        users.Upsert(us[i]);
      }
      assert us[..|us|] == us;
    }

    method RestoreTraderRows(ts: seq<TraderStats>)
      requires traders.rows == map[]
      modifies traders
      ensures traders.rows == Collect(ts, TraderKey)
    {
      for i := 0 to |ts|
        invariant traders.rows == Collect(ts[..i], TraderKey)
      {
        assert ts[..i + 1][..i] == ts[..i];
        var row := ts[i];
        traders.Ensure(row.address);
        var _ := traders.Update(row.address, _ => row);
      }
      assert ts[..|ts|] == ts;
    }

    method RestoreDailyRows(entries: seq<DailyEntry>)
      modifies daily
      ensures daily.rows == RestoreDaily(old(daily.rows), entries)
    {
      for i := 0 to |entries|
        invariant daily.rows == RestoreDaily(old(daily.rows), entries[..i])
      {
        assert entries[..i + 1][..i] == entries[..i];
        daily.SetTraderDaily(entries[i].address, entries[i].stats.date, entries[i].stats);
      }
      assert entries[..|entries|] == entries;
    }

    method RestoreMarketSlots(saved: seq<SnapshotMarket>)
      modifies markets
      ensures markets.slots == RestoreMarkets(old(markets.slots), saved)
    {
      for i := 0 to |saved|
        invariant markets.slots == RestoreMarkets(old(markets.slots), saved[..i])
      {
        assert saved[..i + 1][..i] == saved[..i];
        markets.Restore(saved[i]);
      }
      assert saved[..|saved|] == saved;
    }

    method RestoreSnapshot(snap: StateSnapshot)
      requires View() == Empty()
      modifies Repr
      ensures View() == Restore(snap)
    {
      checkpoint.Save(snap.checkpoint.lastBlock, snap.checkpoint.lastBlockHash, snap.checkpoint.lastBlockTimestamp);
      RestorePositionRows(snap.positions);
      RestoreOrderRows(snap.orders);
      RestoreBalanceRows(snap.balances);
      RestoreUserRows(snap.users);
      RestoreTraderRows(snap.traders);
      RestoreDailyRows(snap.daily);
      RestoreMarketSlots(snap.markets);
    }
  }

  /** The engine files an event before it applies it; the order does not show in the result. */
  lemma FiledFirst(s: State, ie: IndexedEvent)
    ensures LiveApply(Filed(s, ie), ie) == Filed(LiveApply(s, ie), ie)
  {
    hide LiveApply, EventKeys, NextPositions, NextOrders, NextBalances, NextUsers, NextTraders, NextDaily, NextMarkets;
    StoreByStore(s, ie);
    StoreByStore(Filed(s, ie), ie);
  }

  lemma FiledFirstReplay(s: State, ie: IndexedEvent)
    ensures ReplayApply(Filed(s, ie), ie) == Filed(ReplayApply(s, ie), ie)
  {
    if IsPositionEvent(ie.event) {
      FiledReplayPosition(s, ie);
    } else {
      hide LiveApply, ReplayApply, Filed;
      SharedApply(s, ie);
      SharedApply(Filed(s, ie), ie);
      FiledFirst(s, ie);
    }
  }

  lemma FiledReplayPosition(s: State, ie: IndexedEvent)
    requires IsPositionEvent(ie.event)
    ensures ReplayApply(Filed(s, ie), ie) == Filed(ReplayApply(s, ie), ie)
  {
    hide EventKeys, NewPosition, Positions.Insert, Positions.Update, TradersAfterClose, TradersAfterLiquidation,
      Accumulate, WithUser, IncrementOpen, WithTrader;
  }

  lemma ListedTraders(ts: Traders, rows: seq<TraderStats>, addresses: seq<Address>)
    requires Keyed(ts, TraderKey) && Enumerates(rows, ts, TraderKey)
    requires |addresses| == |rows| && forall i :: 0 <= i < |rows| ==> addresses[i] == rows[i].address
    ensures forall a :: a in addresses <==> a in ts
  {
    forall a
      ensures a in addresses <==> a in ts
    {
      if i :| 0 <= i < |addresses| && addresses[i] == a {
        assert TraderKey(rows[i]) in ts;
      }
      if a in ts {
        var i :| 0 <= i < |rows| && rows[i] == ts[a];
        assert addresses[i] == TraderKey(ts[a]) == a;
      }
    }
  }

  /** What `open` rebuilds from the latest snapshot, if any, and the log directory. */
  function Recovered(c: Codec<WalEntry>, snap: Option<StateSnapshot>, dir: map<int, seq<byte>>): State {
    match snap
    case None => ReplayRun(Empty(), 0, Replay(c, dir))
    case Some(s) => ReplayRun(Restore(s), s.checkpoint.lastBlock, Replay(c, dir))
  }

  class PerfDb {
    const codec: Codec<WalEntry>
    const stores: Stores
    const wal: WalWriter
    const candles: CandleSide
    const ticks: TickTable
    ghost var hist: Hist<WalEntry>
    ghost var base: State
    ghost var snapBlock: nat

    /** What every call relies on and keeps: a segment to write to, rows under their own keys, and the
        fixed sizes of the per-market and per-pair tables. */
    ghost predicate Valid()
      reads this, wal, stores.Repr, candles.builder, candles.store, ticks
    {
      && wal.cur in wal.segs && RowsKeyed(stores.View())
      && |stores.markets.slots| == MARKET_COUNT && |ticks.files| == MARKET_COUNT
      && |candles.builder.buffers| == PAIRS && |candles.store.files| == PAIRS
    }

    /** The log on disk holds exactly the logged history.  A session opened on a torn log is not
        clean; its stores work all the same. */
    ghost predicate Clean()
      reads this, wal
    {
      hist.w == wal.View() && WalProtocol.Inv(codec, hist)
    }

    /** What recovery would rebuild from the whole log agrees with the live state. */
    ghost predicate Recoverable()
      reads this, wal, stores.Repr
    {
      Clean() && AllWritten(Log(hist)) && RecoverableFrom(stores.View(), base, snapBlock, Log(hist))
    }

    /** Recovery order of `open`: snapshot, then every log entry through the recovery interpreter.
        On a clean log without a snapshot, or with one, the new session is recoverable again. */
    constructor Open(codec: Codec<WalEntry>, config: Config, snap: Option<StateSnapshot>, dir: map<int, seq<byte>>,
                     mark: nat, files: Files, tickFiles: TickFiles)
      requires |files| == PAIRS && |tickFiles| == MARKET_COUNT
      ensures Valid() && this.codec == codec
      ensures fresh(stores.Repr) && fresh(wal) && fresh(candles.builder) && fresh(candles.store) && fresh(ticks)
      ensures stores.View() == Recovered(codec, snap, dir)
      ensures wal.View() == OpenDir(config, dir, mark)
      ensures candles.store.files == files && candles.builder.buffers == Seeds(files, PAIRS) && ticks.files == tickFiles
      ensures snapBlock == if snap.Some? then snap.value.checkpoint.lastBlock else 0
      ensures CleanDir(codec, dir) ==> Clean() && Log(hist) == Replay(codec, dir)
      ensures CleanDir(codec, dir) && AllWritten(Replay(codec, dir)) ==> Recoverable()
    {
      hide RecoverableFrom, HistOpen, CleanDir, WalProtocol.Inv, Restore, ReplayRun, Replay, OpenDir, AllWritten, Log,
        RowsKeyed;
      this.codec := codec;
      stores := new Stores();
      wal := new WalWriter.Open(config, dir, mark);
      candles := new CandleSide.Open(files);
      ticks := new TickTable(tickFiles);
      hist := HistOpen(codec, config, dir, mark);
      base := if snap.Some? then Restore(snap.value) else Empty();
      snapBlock := if snap.Some? then snap.value.checkpoint.lastBlock else 0;
      new;
      stores.Recover(codec, snap, dir);
      RecoveredIsRecoverable(codec, config, dir, mark, base, snapBlock);
      RecoveredMarkets(codec, snap, dir);
      RecoveredRows(codec, snap, dir);
      OpenedSegment(config, dir, mark);
    }

    /** Write ahead, then apply: the log grows by the event, the state takes one live step, and what
        replaying the grown log would rebuild still agrees with it.  How much of the log a crash may
        take depends on the sync policy. */
    method ProcessEvent(ie: IndexedEvent, elapsed: bool)
      requires Valid()
      modifies this`hist, wal, stores.Repr
      ensures Valid() && stores.View() == LiveStep(old(stores.View()), ie)
      ensures wal.View() == old(wal.View()).Append(codec, EventEntry(ie), elapsed)
      ensures old(Clean()) ==> Clean() && Log(hist) == old(Log(hist)) + [EventEntry(ie)]
      ensures old(Recoverable()) && ie.blockNumber > snapBlock ==> Recoverable()
    {
      hide LiveStep, WalProtocol.Inv, RecoverableFrom, Log, AllWritten, RowsKeyed, Writer.Append;
      ghost var before, log := stores.View(), Log(hist);
      LogFirst(EventEntry(ie), elapsed);
      Apply(ie);
      EventKeeps(before, ie, base, snapBlock, log);
    }

    /** Its second part: the stores, and nothing else. */
    method Apply(ie: IndexedEvent)
      requires Valid()
      modifies stores.Repr
      ensures Valid() && stores.View() == LiveStep(old(stores.View()), ie) && wal.View() == old(wal.View())
    {
      hide LiveStep, RowsKeyed;
      ghost var before, w := stores.View(), wal.View();
      KeyedStep(before, ie);
      StepKeepsMarkets(before, ie);
      stores.StepLive(ie);
      assert wal.View() == w;
    }

    /** `ingest_tick`: write ahead, then the tick file, the price and the candles.  A tick of an
        unknown market is refused by the tick file, after it was logged. */
    method IngestTick(t: PriceTick, elapsed: bool) returns (result: Option<seq<CandleOutput>>)
      requires Valid()
      modifies this`hist, wal, stores.Repr, candles.builder, candles.store, ticks
      ensures Valid() && stores.View() == LiveEntry(old(stores.View()), TickEntry(t.timestampNs, t.market, t.price))
      ensures wal.View() == old(wal.View()).Append(codec, TickEntry(t.timestampNs, t.market, t.price), elapsed)
      ensures old(Clean()) ==> Clean() && Log(hist) == old(Log(hist)) + [TickEntry(t.timestampNs, t.market, t.price)]
      ensures old(Recoverable()) ==> Recoverable()
      ensures ticks.files == AppendTick(old(ticks.files), t)
      ensures result == if t.market < MARKET_COUNT then Some(OnTickOutputs(old(candles.builder.buffers), t)) else None
      ensures candles.builder.buffers == NextBuffers(old(candles.builder.buffers), t, TF_COUNT)
      ensures candles.store.files == StoreClosed(old(candles.store.files), OnTickOutputs(old(candles.builder.buffers), t))
    {
      hide WalProtocol.Inv, RecoverableFrom, Log, LiveEntry, NextBuffers, TickOutputs, AllWritten, RowsKeyed, Writer.Append;
      TickKeepsSizes(stores.View(), candles.store.files, candles.builder.buffers, t);
      TickKeepsRows(stores.View(), t);
      ghost var entry := TickEntry(t.timestampNs, t.market, t.price);
      ghost var before, log := stores.View(), Log(hist);
      LogFirst(TickEntry(t.timestampNs, t.market, t.price), elapsed);
      assert stores.View() == before;
      StillRecoverable(before, base, snapBlock, log, entry);
      ghost var w := wal.View();
      var ok := ticks.Append(t);
      if !ok {
        UnknownMarket(before, t);
        NextBuffersIdle(candles.builder.buffers, t, TF_COUNT);
        assert wal.View() == w && stores.View() == before;
        return None;
      }
      stores.SetPrice(t);
      ghost var state := stores.View();
      var outputs := candles.Tick(t);
      assert wal.View() == w && stores.View() == state;
      result := Some(outputs);
    }

    /** `sync_wal`: afterwards no crash takes any logged call. */
    method SyncWal()
      requires Valid()
      modifies this`hist, wal
      ensures Valid() && wal.View() == old(wal.View()).Sync()
      ensures old(Clean()) ==> Clean() && Log(hist) == old(Log(hist)) && DurableCount(hist) == |Log(hist)|
    {
      hide WalProtocol.Inv, RowsKeyed, Log;
      ghost var state := stores.View();
      if Clean() {
        SyncKeeps(codec, hist);
        SyncedHist(codec, hist);
        hist := HistSync(hist);
      }
      wal.Sync();
      assert stores.View() == state;
    }

    /** `shutdown`: live candles to their files, the log to disk, then a snapshot, so the snapshot
        is never ahead of the log. */
    method Shutdown() returns (snap: StateSnapshot)
      requires Valid()
      modifies this`hist, wal, candles.store
      ensures Valid() && wal.View() == old(wal.View()).Sync()
      ensures old(Clean()) ==> Clean() && Log(hist) == old(Log(hist)) && DurableCount(hist) == |Log(hist)|
      ensures candles.store.files == Flushed(old(candles.store.files), candles.builder.buffers, PAIRS)
      ensures stores.View() == old(stores.View()) && exists addresses :: IsSnapshot(stores.View(), snap, addresses)
    {
      hide WalProtocol.Inv, RowsKeyed, IsSnapshot, Log, Writer.Sync;
      ghost var state, w := stores.View(), wal.View();
      candles.Shutdown();
      assert wal.View() == w && stores.View() == state;
      SyncWal();
      assert stores.View() == state;
      snap := stores.TakeSnapshot();
    }

    /** One call of either entry point, named by the entry it logs. */
    method Call(entry: WalEntry, elapsed: bool)
      requires Valid() && Written(entry)
      modifies this`hist, wal, stores.Repr, candles.builder, candles.store, ticks
      ensures Valid() && stores.View() == LiveEntry(old(stores.View()), entry)
      ensures old(Clean()) ==> Clean() && Log(hist) == old(Log(hist)) + [entry]
    {
      hide WalProtocol.Inv, RowsKeyed, Log, LiveStep, Writer.Append, OnTickOutputs, NextBuffers, StoreClosed, RecoverableFrom;
      match entry
      case EventEntry(ie) => ProcessEvent(ie, elapsed);
      case TickEntry(ns, market, price) =>
        var _ := IngestTick(PriceTick(ns, market, price), elapsed);
    }

    method LogFirst(entry: WalEntry, elapsed: bool)
      requires Valid()
      modifies this`hist, wal
      ensures Valid() && stores.View() == old(stores.View())
      ensures wal.View() == old(wal.View()).Append(codec, entry, elapsed)
      ensures old(Clean()) ==> Clean() && Log(hist) == old(Log(hist)) + [entry]
    {
      hide WalProtocol.Inv, Log, Writer.Append, RowsKeyed;
      ghost var state := stores.View();
      AppendUsable(wal.View(), codec, entry, elapsed);
      if Clean() {
        AppendKeeps(codec, hist, entry, elapsed);
        UsableHist(codec, hist);
        hist := HistAppend(codec, hist, entry, elapsed);
      }
      wal.Append(codec, entry, elapsed);
      assert stores.View() == state;
    }
  }

  /** A whole session: open on whatever is there, make calls, shut down.  The stores end as the live
      run of the calls from the recovered state, and the snapshot is of that state; on a clean log
      the log ends as the replayed entries followed by the calls, all durable. */
  method Session(codec: Codec<WalEntry>, config: Config, snap: Option<StateSnapshot>, dir: map<int, seq<byte>>, mark: nat,
                 files: Files, tickFiles: TickFiles, calls: seq<WalEntry>, elapsed: bool)
    returns (db: PerfDb, last: StateSnapshot)
    requires |files| == PAIRS && |tickFiles| == MARKET_COUNT && AllWritten(calls)
    ensures fresh(db) && db.Valid() && db.codec == codec
    ensures db.stores.View() == LiveRun(Recovered(codec, snap, dir), calls)
    ensures exists addresses :: IsSnapshot(db.stores.View(), last, addresses)
    ensures CleanDir(codec, dir) ==>
              db.Clean() && Log(db.hist) == Replay(codec, dir) + calls && DurableCount(db.hist) == |Log(db.hist)|
  {
    hide WalProtocol.Inv, RowsKeyed, IsSnapshot, Log, CleanDir, Replay, LiveEntry, Recovered, OpenDir, Seeds, Writer.Append,
      OnTickOutputs, NextBuffers, StoreClosed, RecoverableFrom;
    db := new PerfDb.Open(codec, config, snap, dir, mark, files, tickFiles);
    ghost var start, replayed := Recovered(codec, snap, dir), Replay(codec, dir);
    assert calls[..0] == [];
    for i := 0 to |calls|
      invariant db.Valid() && db.stores.View() == LiveRun(start, calls[..i])
      invariant CleanDir(codec, dir) ==> db.Clean() && Log(db.hist) == replayed + calls[..i]
    {
      assert calls[..i + 1][..i] == calls[..i] && calls[..i + 1] == calls[..i] + [calls[i]];
      db.Call(calls[i], elapsed);
    }
    assert calls[..|calls|] == calls;
    last := db.Shutdown();
  }

  ghost predicate RecoverableFrom(live: State, base: State, snapBlock: nat, log: seq<WalEntry>) {
    Agree(live, ReplayRun(base, snapBlock, log), Dirty(log), true)
  }

  lemma StillRecoverable(live: State, base: State, snapBlock: nat, log: seq<WalEntry>, entry: WalEntry)
    requires Written(entry)
    ensures AllWritten(log) && RecoverableFrom(live, base, snapBlock, log)
            && (entry.EventEntry? ==> entry.indexed.blockNumber > snapBlock) ==>
              AllWritten(log + [entry]) && RecoverableFrom(LiveEntry(live, entry), base, snapBlock, log + [entry])
  {
    if RecoverableFrom(live, base, snapBlock, log) && (entry.EventEntry? ==> entry.indexed.blockNumber > snapBlock) {
      var more := log + [entry];
      assert more[..|more| - 1] == log;
      var rec := ReplayRun(base, snapBlock, log);
      match entry {
        case EventEntry(ie) => AgreeStep(live, rec, ie, Dirty(log), true);
        case TickEntry(ns, market, price) => AgreeTick(live, rec, ns, market, price, Dirty(log), true);
      }
    }
  }

  lemma RecoveredIsRecoverable(c: Codec<WalEntry>, config: Config, dir: map<int, seq<byte>>, mark: nat,
                               base: State, snapBlock: nat)
    ensures CleanDir(c, dir) ==>
              var h := HistOpen(c, config, dir, mark);
              WalProtocol.Inv(c, h) && h.w == OpenDir(config, dir, mark) && Log(h) == Replay(c, dir)
    ensures var log := Replay(c, dir); RecoverableFrom(ReplayRun(base, snapBlock, log), base, snapBlock, log)
  {
    hide WalProtocol.Inv, Log, HistOpen, OpenDir, CleanDir;
    if CleanDir(c, dir) {
      OpenKeeps(c, config, dir, mark);
    }
  }

  /** What `ProcessEvent` needs of the state it leaves. */
  lemma EventKeeps(s: State, ie: IndexedEvent, base: State, snapBlock: nat, log: seq<WalEntry>)
    requires RowsKeyed(s) && |s.markets| == MARKET_COUNT
    ensures RowsKeyed(LiveStep(s, ie)) && |LiveStep(s, ie).markets| == MARKET_COUNT
    ensures AllWritten(log) && RecoverableFrom(s, base, snapBlock, log) && ie.blockNumber > snapBlock ==>
              AllWritten(log + [EventEntry(ie)])
              && RecoverableFrom(LiveStep(s, ie), base, snapBlock, log + [EventEntry(ie)])
  {
    hide RowsKeyed, RecoverableFrom, AllWritten, LiveStep;
    StepKeepsMarkets(s, ie);
    KeyedStep(s, ie);
    StillRecoverable(s, base, snapBlock, log, EventEntry(ie));
  }

  lemma StepKeepsMarkets(s: State, ie: IndexedEvent)
    ensures |LiveStep(s, ie).markets| == |s.markets|
  {
    hide LiveApply, NextMarkets;
    StoreByStore(s, ie);
    InvMarkets(s.markets, s.positions, ie);
  }

  lemma TickKeepsSizes(s: State, files: Files, buffers: Buffers, t: PriceTick)
    requires |buffers| == PAIRS
    ensures |LiveEntry(s, TickEntry(t.timestampNs, t.market, t.price)).markets| == |s.markets|
    ensures |NextBuffers(buffers, t, TF_COUNT)| == PAIRS
    ensures |StoreClosed(files, OnTickOutputs(buffers, t))| == |files|
  {
    StoreKeepsFiles(files, OnTickOutputs(buffers, t));
  }

  lemma {:induction false} StoreKeepsFiles(files: Files, outputs: seq<CandleOutput>)
    ensures |StoreClosed(files, outputs)| == |files|
  {
    if outputs != [] {
      StoreKeepsFiles(files, Bars.Init(outputs));
    }
  }

  lemma TickKeepsRows(s: State, t: PriceTick)
    requires RowsKeyed(s)
    ensures RowsKeyed(LiveEntry(s, TickEntry(t.timestampNs, t.market, t.price)))
  {
  }

  lemma RecoveredRows(c: Codec<WalEntry>, snap: Option<StateSnapshot>, dir: map<int, seq<byte>>)
    ensures RowsKeyed(Recovered(c, snap, dir))
  {
    hide ReplayRun, Replay, Restore, RowsKeyed;
    if snap.Some? {
      KeyedRestore(snap.value);
      KeyedReplayRun(Restore(snap.value), snap.value.checkpoint.lastBlock, Replay(c, dir));
    } else {
      EmptyRows();
      KeyedReplayRun(Empty(), 0, Replay(c, dir));
    }
  }

  lemma EmptyRows()
    ensures RowsKeyed(Empty())
  {
  }

  /** There is always a segment to write to. */
  lemma OpenedSegment(config: Config, dir: map<int, seq<byte>>, mark: nat)
    ensures var w := OpenDir(config, dir, mark); w.cur in w.segs
  {
  }

  lemma AppendUsable(w: Writer, c: Codec<WalEntry>, e: WalEntry, elapsed: bool)
    requires w.cur in w.segs
    ensures var v := w.Append(c, e, elapsed); v.cur in v.segs
  {
  }

  lemma UsableHist(c: Codec<WalEntry>, h: Hist<WalEntry>)
    requires WalProtocol.Inv(c, h)
    ensures h.w.Valid() && h.w.cur in h.w.segs && h.w.cur in h.ents
  {
  }

  lemma SyncedHist(c: Codec<WalEntry>, h: Hist<WalEntry>)
    requires WalProtocol.Inv(c, h)
    ensures h.w.cur in h.w.segs && h.w.cur in h.ents && HistSync(h).w.cur in HistSync(h).ents
  {
  }

  lemma UnknownMarket(s: State, t: PriceTick)
    requires t.market >= |s.markets|
    ensures LiveEntry(s, TickEntry(t.timestampNs, t.market, t.price)) == s
  {
  }

  lemma {:induction false} ReplayKeepsMarkets(s: State, snapBlock: nat, log: seq<WalEntry>)
    ensures |ReplayRun(s, snapBlock, log).markets| == |s.markets|
    decreases |log|
  {
    if log != [] {
      var init, last := log[..|log| - 1], log[|log| - 1];
      ReplayKeepsMarkets(s, snapBlock, init);
      if last.EventEntry? {
        ReplayStepMarkets(ReplayRun(s, snapBlock, init), last.indexed);
      }
    }
  }

  lemma ReplayStepMarkets(s: State, ie: IndexedEvent)
    ensures |ReplayApply(s, ie).markets| == |s.markets|
  {
    if !IsPositionEvent(ie.event) {
      hide LiveApply, ReplayApply, NextMarkets;
      SharedApply(s, ie);
      StoreByStore(s, ie);
      InvMarkets(s.markets, s.positions, ie);
    }
  }

  lemma {:induction false} RestoreKeepsMarkets(ms: Markets, saved: seq<SnapshotMarket>)
    ensures |RestoreMarkets(ms, saved)| == |ms|
    decreases |saved|
  {
    if saved != [] {
      RestoreKeepsMarkets(ms, saved[..|saved| - 1]);
    }
  }

  lemma RecoveredMarkets(c: Codec<WalEntry>, snap: Option<StateSnapshot>, dir: map<int, seq<byte>>)
    ensures |Recovered(c, snap, dir).markets| == MARKET_COUNT
  {
    hide ReplayRun, Replay, RestoreMarkets;
    if snap.Some? {
      ReplayKeepsMarkets(Restore(snap.value), snap.value.checkpoint.lastBlock, Replay(c, dir));
      RestoreKeepsMarkets(NoMarkets(), snap.value.markets);
    } else {
      ReplayKeepsMarkets(Empty(), 0, Replay(c, dir));
    }
  }

  /** `dir` is what a crash leaves of a log of codable engine entries. */
  ghost predicate CrashOfLog(c: Codec<WalEntry>, h: Hist<WalEntry>, dir: map<int, seq<byte>>) {
    WalProtocol.Inv(c, h) && AllCodable(c, Log(h)) && AllWritten(Log(h)) && IsCrash(h.w, dir)
  }

  /** `snap` was taken, on a block boundary, of the state `s` a session was in after the calls `pre`;
      the session may itself have begun with a recovery.  The segments below `keepFrom` hold no
      later call. */
  ghost predicate SnapshotOfLog(c: Codec<WalEntry>, h: Hist<WalEntry>, dir: map<int, seq<byte>>, keepFrom: int,
                                pre: seq<WalEntry>, s: State, snap: StateSnapshot, addresses: seq<Address>)
    requires CrashOfLog(c, h, dir)
  {
    && pre <= Log(h) && |Replay(c, Below(dir, keepFrom))| <= |pre|
    && Sessions.Reached(s, pre) && IsSnapshot(s, snap, addresses) && FewDays(s)
    && BlocksUpTo(pre, s.checkpoint.lastBlock) && BlocksAbove(Log(h)[|pre|..], s.checkpoint.lastBlock)
  }

  /** From the crash to the recovered state: whatever unsynced bytes a crash takes, `open` rebuilds a
      state that agrees with the live engine as it was after some prefix of the logged calls, and
      that prefix contains every durable one. */
  lemma CrashRecovery(c: Codec<WalEntry>, h: Hist<WalEntry>, dir: map<int, seq<byte>>) returns (n: nat)
    requires CrashOfLog(c, h, dir) && BlocksAbove(Log(h), 0)
    ensures DurableCount(h) <= n <= |Log(h)|
    ensures Agree(LiveRun(Empty(), Log(h)[..n]), Recovered(c, None, dir), Dirty(Log(h)[..n]), true)
  {
    n := CrashPrefix(c, h, dir);
    WalRecoveryIff(Log(h)[..n]);
  }

  /** The same from a snapshot, with old segments truncated away: calls, a snapshot at a block
      boundary, more calls, a crash, truncation of segments that held covered entries only, and
      `open`.  When the surviving log reaches the snapshot, as it does when the snapshot's calls were
      durable, the rebuilt state agrees with the session that took the snapshot, run on over the
      surviving calls, and with an engine that made all surviving calls without ever stopping.  When
      the snapshot is ahead of the surviving log, it agrees with the state the snapshot was taken
      of, if and only if that state shows the last tick of each market that is replayed. */
  lemma SnapshotCrashRecovery(c: Codec<WalEntry>, h: Hist<WalEntry>, dir: map<int, seq<byte>>, keepFrom: int,
                              pre: seq<WalEntry>, s: State, snap: StateSnapshot, addresses: seq<Address>) returns (n: nat)
    requires CrashOfLog(c, h, dir) && SnapshotOfLog(c, h, dir, keepFrom, pre, s, snap, addresses)
    ensures DurableCount(h) <= n <= |Log(h)|
    ensures |pre| <= n ==>
              pre + Log(h)[|pre|..n] == Log(h)[..n]
              && Sessions.RecoversTo(Recovered(c, Some(snap), From(dir, keepFrom)), s, pre, Log(h)[|pre|..n])
    ensures n < |pre| ==>
              (Agree(s, Recovered(c, Some(snap), From(dir, keepFrom)), {}, false)
               <==> forall m :: 0 <= m < |s.markets| ==> ShowsLastTick(s.markets[m], Replay(c, From(dir, keepFrom)), m))
  {
    hide WalProtocol.Inv, Agree, Restore, LiveRun, ReplayRun, FewDays, FreshRun, Log, Replay, ShowsLastTick, Dirty,
      Snapshots.Inv, Sessions.RecoversTo;
    n := CrashPrefix(c, h, dir);
    TruncationKeepsSuffix(c, dir, keepFrom);
    var dropped, kept := Replay(c, Below(dir, keepFrom)), Replay(c, From(dir, keepFrom));
    if |pre| <= n {
      var post := Log(h)[|pre|..n];
      SplitTwice(Log(h), pre, n, dropped, kept);
      assert forall i :: 0 <= i < |post| ==> post[i] == Log(h)[|pre|..][i];
      Sessions.RecoverSaved(s, snap, addresses, pre, |dropped|, post);
    } else {
      assert pre[..n] == Log(h)[..n];
      assert kept == (dropped + kept)[|dropped|..] == pre[|dropped|..n];
      assert forall i :: 0 <= i < |kept| ==> kept[i] == pre[|dropped| + i];
      Sessions.ReachedInv(s, pre);
      AheadRecoveryIff(s, snap, addresses, kept);
    }
  }

  /* ---------- both theorems speak about something ---------- */

  function PauseEntry(block: nat, market: nat): WalEntry {
    EventEntry(IndexedEvent(block, 0, 0, 0, 0, MarketPaused(market)))
  }

  /** A codec, over any checksum, that knows two entries. */
  function PairCodec(a: WalEntry, b: WalEntry, crc: seq<byte> -> u32): Codec<WalEntry> {
    Codec((e: WalEntry) => if e == a then [1] else [2],
          (p: seq<byte>) => if p == [1] then Some(a) else if p == [2] then Some(b) else None,
          crc)
  }

  /** The history of the two pauses, each synced as it was appended. */
  lemma PauseHistory(c: Codec<WalEntry>) returns (h: Hist<WalEntry>)
    ensures WalProtocol.Inv(c, h) && Log(h) == [PauseEntry(1, 0), PauseEntry(2, 1)] && DurableCount(h) == 2
    ensures FromZero(h.w)
  {
    hide Frames, Log, HistAppend, PauseEntry, FromZero;
    var config := Config(1000, EveryWrite);
    FreshInv(c, config);
    FreshFromZero(c, config);
    AppendKeeps(c, Fresh(c, config), PauseEntry(1, 0), false);
    AppendFromZero(c, Fresh(c, config), PauseEntry(1, 0), false);
    var one := HistAppend(c, Fresh(c, config), PauseEntry(1, 0), false);
    AppendKeeps(c, one, PauseEntry(2, 1), false);
    AppendFromZero(c, one, PauseEntry(2, 1), false);
    h := HistAppend(c, one, PauseEntry(2, 1), false);
  }

  function PauseSnapshot(): StateSnapshot {
    var s := LiveRun(Empty(), [PauseEntry(1, 0)]);
    StateSnapshot(s.checkpoint, [], [], [], [], [], [], SnapshotMarkets(s.markets))
  }

  lemma PauseState()
    ensures var s := LiveRun(Empty(), [PauseEntry(1, 0)]);
            && s.checkpoint.lastBlock == 1 && s.positions == Empty().positions && s.orders == Empty().orders
            && s.balances == Empty().balances && s.users == map[] && s.traders == map[] && s.daily == map[]
  {
    var log := [PauseEntry(1, 0)];
    assert log[..0] == [];
    assert LiveRun(Empty(), log) == LiveStep(Empty(), log[0].indexed);
  }

  lemma PauseReached()
    ensures Sessions.Reached(LiveRun(Empty(), [PauseEntry(1, 0)]), [PauseEntry(1, 0)])
  {
    hide LiveEntry;
    var log := [PauseEntry(1, 0)];
    var s := LiveRun(Empty(), log);
    assert Dirty(log) == {} by { assert log[..0] == []; }
    AgreeSelf(s);
  }

  /** Two pauses, a snapshot between them, all of it durable, and a crash: an engine log that meets
      every hypothesis of both recovery theorems. */
  lemma RecoveryTheoremsApply(crc: seq<byte> -> u32) returns (h: Hist<WalEntry>)
    ensures var c := PairCodec(PauseEntry(1, 0), PauseEntry(2, 1), crc);
            var dir, pre := Contents(h.w.segs), [PauseEntry(1, 0)];
            && CrashOfLog(c, h, dir) && DurableCount(h) == |Log(h)| == 2 && BlocksAbove(Log(h), 0)
            && SnapshotOfLog(c, h, dir, 0, pre, LiveRun(Empty(), pre), PauseSnapshot(), [])
  {
    hide LiveEntry, Frames, InKeyOrder;
    var c := PairCodec(PauseEntry(1, 0), PauseEntry(2, 1), crc);
    h := PauseHistory(c);
    var dir := Contents(h.w.segs);
    PauseState();
    PauseReached();
    assert Below(dir, 0) == map[];
    assert Parsed(c, Below(dir, 0)) == map[];
    NothingInKeyOrder(Parsed(c, Below(dir, 0)));
  }
}
