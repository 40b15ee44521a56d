/** The engine of `src/engine.rs` as two separately written interpreters of the same events: the
    live step of `process_event` and the recovery step of `replay_wal_entry`. */
module Engine {
  import opened Collections
  import opened Types
  import opened PositionStore
  import opened OrderStore
  import opened BalanceStore
  import opened UserStore
  import opened EventLogStore
  import opened CheckpointStore
  import opened StatsStore
  import opened MarketStore
  import CivilDate

  datatype State = State(
    positions: Positions, orders: Orders, balances: Balances, users: Users, traders: Traders,
    daily: Daily, markets: Markets, events: EventLog, checkpoint: Checkpoint)

  function Empty(): State {
    State(NO_POSITIONS, NO_ORDERS, NO_BALANCES, map[], map[], map[], NoMarkets(), NO_EVENTS, NO_CHECKPOINT)
  }

  /** `extract_event_keys`: the partitions an event is filed under. */
  function EventKeys(e: Event): (Option<nat>, Option<Address>) {
    match e
    case PositionOpened(_, user, market, _, _, _, _, _, _) => (Some(market), Some(user))
    case PositionClosed(_, user, market, _, _, _, _) => (Some(market), Some(user))
    case PositionModified(_, _, _, _) => (None, None)
    case OrderPlaced(_, user, market, _, _, _, _) => (Some(market), Some(user))
    case OrderExecuted(_, _, _) => (None, None)
    case OrderCancelled(_, user) => (None, Some(user))
    case Liquidation(_, user, market, _, _, _) => (Some(market), Some(user))
    case ADLExecuted(_, _) => (None, None)
    case PriceUpdated(market, _, _) => (Some(market), None)
    case FundingSettled(market, _, _, _) => (Some(market), None)
    case FundingRateUpdated(market, _, _) => (Some(market), None)
    case MarketCreated(market, _, _) => (Some(market), None)
    case MarketPaused(market) => (Some(market), None)
    case CollateralDeposited(user, _, _) => (None, Some(user))
    case CollateralWithdrawn(user, _, _) => (None, Some(user))
    case VaultCreated(user, _) => (None, Some(user))
    case VaultDeficit(_, _) => (None, None)
  }

  /** The position an opening event creates, with the entry price the interpreter records. */
  function NewPosition(ie: IndexedEvent, entryPrice: Fixed): Position
    requires ie.event.PositionOpened?
  {
    var e := ie.event;
    Position(e.positionId, e.user, e.market, e.isLong, e.sizeUsd, TruncDiv(e.sizeUsd, Max(e.leverage, 1)),
             e.collateralToken, e.collateralAmount, entryPrice, None, None, e.leverage, Open,
             ie.txHash, None, ie.blockNumber, None, ie.blockTimestamp, None)
  }

  function NewOrder(ie: IndexedEvent): Order
    requires ie.event.OrderPlaced?
  {
    var e := ie.event;
    Order(e.orderId, e.user, e.market, e.isLong, OrderTypeFrom(e.orderType), e.triggerPrice, None, e.sizeUsd,
          0, 0, 0, Active, None, None, ie.txHash, ie.blockNumber, ie.blockTimestamp, None)
  }

  function Deposited(b: Balances, user: Address, token: Address, amount: Fixed): Balance {
    var existing := b.Get(user, token);
    var newAmount := if existing.Some? then existing.value.amount + amount else amount;
    var newLocked := if existing.Some? then existing.value.locked else 0;
    Balance(user, token, newAmount, newLocked, newAmount - newLocked)
  }

  function Withdrawn(b: Balances, user: Address, token: Address, amount: Fixed): Balance {
    var existing := b.Get(user, token);
    var newAmount := if existing.Some? then Max(existing.value.amount - amount, 0) else 0;
    var newLocked := if existing.Some? then existing.value.locked else 0;
    Balance(user, token, newAmount, newLocked, Max(newAmount - newLocked, 0))
  }

  /* ---------- the live interpreter ---------- */

  function CloseLive(ie: IndexedEvent, p: Position): Position
    requires ie.event.PositionClosed?
  {
    var e := ie.event;
    var q := p.(exitPrice := Some(e.exitPrice), realizedPnl := Some(e.realizedPnl), closeTx := Some(ie.txHash),
                closeBlock := Some(ie.blockNumber), closedAt := Some(ie.blockTimestamp));
    if e.isFullClose then q.(status := Closed) else q.(sizeUsd := p.sizeUsd - e.closedSizeUsd)
  }

  function LiquidateLive(ie: IndexedEvent, p: Position): Position
    requires ie.event.Liquidation?
  {
    p.(status := Liquidated, exitPrice := Some(ie.event.liquidationPrice), closeTx := Some(ie.txHash),
       closeBlock := Some(ie.blockNumber), closedAt := Some(ie.blockTimestamp))
  }

  function Modified(e: Event, p: Position): Position
    requires e.PositionModified?
  {
    p.(sizeUsd := e.newSizeUsd, collateralUsd := e.newCollateralUsd, collateralAmount := e.newCollateralAmount)
  }

  /** Statistics of a close, shared wording of both interpreters. */
  function TradersAfterClose(ts: Traders, ie: IndexedEvent): Traders
    requires ie.event.PositionClosed?
  {
    var e := ie.event;
    var traded := WithTrade(WithTrader(ts, e.user), e.user, e.closedSizeUsd, e.realizedPnl, 0,
                            e.realizedPnl > 0, false, ie.blockTimestamp);
    if e.isFullClose then DecrementOpen(traded, e.user) else traded
  }

  function TradersAfterLiquidation(ts: Traders, ie: IndexedEvent): Traders
    requires ie.event.Liquidation?
  {
    var e := ie.event;
    DecrementOpen(WithTrade(WithTrader(ts, e.user), e.user, 0, -e.penalty, 0, false, true, ie.blockTimestamp), e.user)
  }

  function LiveOpened(s: State, ie: IndexedEvent): State
    requires ie.event.PositionOpened?
  {
    var e := ie.event;
    s.(positions := s.positions.Insert(NewPosition(ie, e.entryPrice)),
       users := WithUser(s.users, e.user, ie.blockTimestamp),
       traders := IncrementOpen(WithTrader(s.traders, e.user), e.user),
       markets := AddOi(s.markets, e.market, e.isLong, e.sizeUsd))
  }

  function LiveClosed(s: State, ie: IndexedEvent): State
    requires ie.event.PositionClosed?
  {
    var e := ie.event;
    s.(positions := s.positions.Update(e.positionId, p => CloseLive(ie, p)),
       traders := TradersAfterClose(s.traders, ie),
       daily := Accumulate(s.daily, e.user, CivilDate.TimestampToDate(ie.blockTimestamp),
                           e.closedSizeUsd, e.realizedPnl, 0),
       markets := if e.positionId in s.positions.rows
                  then AddOi(s.markets, e.market, s.positions.rows[e.positionId].isLong, -e.closedSizeUsd)
                  else s.markets)
  }

  function LiveModified(s: State, e: Event): State
    requires e.PositionModified?
  {
    s.(positions := s.positions.Update(e.positionId, p => Modified(e, p)))
  }

  function LivePlaced(s: State, ie: IndexedEvent): State
    requires ie.event.OrderPlaced?
  {
    s.(orders := s.orders.Insert(NewOrder(ie)), users := WithUser(s.users, ie.event.user, ie.blockTimestamp))
  }

  function LiveLiquidated(s: State, ie: IndexedEvent): State
    requires ie.event.Liquidation?
  {
    s.(positions := s.positions.Update(ie.event.positionId, p => LiquidateLive(ie, p)),
       traders := TradersAfterLiquidation(s.traders, ie))
  }

  function LiveDeposited(s: State, ie: IndexedEvent): State
    requires ie.event.CollateralDeposited?
  {
    var e := ie.event;
    s.(users := WithUser(s.users, e.user, ie.blockTimestamp),
       balances := s.balances.Set(Deposited(s.balances, e.user, e.token, e.amount)))
  }

  function LiveVault(s: State, ie: IndexedEvent): State
    requires ie.event.VaultCreated?
  {
    s.(users := WithVault(WithUser(s.users, ie.event.user, ie.blockTimestamp), ie.event.user, ie.event.vault))
  }

  /** What `process_event` does to the stores, event by event, besides the log and the checkpoint. */
  function LiveApply(s: State, ie: IndexedEvent): State {
    match ie.event
    case PositionOpened(_, _, _, _, _, _, _, _, _) => LiveOpened(s, ie)
    case PositionClosed(_, _, _, _, _, _, _) => LiveClosed(s, ie)
    case PositionModified(_, _, _, _) => LiveModified(s, ie.event)
    case OrderPlaced(_, _, _, _, _, _, _) => LivePlaced(s, ie)
    case OrderExecuted(id, position, price) =>
      s.(orders := s.orders.Execute(id, price, position, ie.blockTimestamp))
    case OrderCancelled(id, _) => s.(orders := s.orders.Cancel(id))
    case Liquidation(_, _, _, _, _, _) => LiveLiquidated(s, ie)
    case FundingRateUpdated(market, perSecond, rate24h) =>
      s.(markets := WithFunding(s.markets, market, perSecond, rate24h))
    case CollateralDeposited(_, _, _) => LiveDeposited(s, ie)
    case CollateralWithdrawn(user, token, amount) =>
      s.(balances := s.balances.Set(Withdrawn(s.balances, user, token, amount)))
    case VaultCreated(_, _) => LiveVault(s, ie)
    case MarketPaused(market) => s.(markets := WithPaused(s.markets, market, true))
    case PriceUpdated(_, _, _) => s
    case FundingSettled(_, _, _, _) => s
    case MarketCreated(_, _, _) => s
    case ADLExecuted(_, _) => s
    case VaultDeficit(_, _) => s
  }

  /* The same step seen store by store. */

  function NextPositions(t: Positions, ie: IndexedEvent): Positions {
    var e := ie.event;
    match e
    case PositionOpened(_, _, _, _, _, _, entryPrice, _, _) => t.Insert(NewPosition(ie, entryPrice))
    case PositionClosed(id, _, _, _, _, _, _) => t.Update(id, p => CloseLive(ie, p))
    case PositionModified(id, _, _, _) => t.Update(id, p => Modified(e, p))
    case Liquidation(id, _, _, _, _, _) => t.Update(id, p => LiquidateLive(ie, p))
    case _ => t
  }

  function NextBalances(b: Balances, ie: IndexedEvent): Balances {
    match ie.event
    case CollateralDeposited(user, token, amount) => b.Set(Deposited(b, user, token, amount))
    case CollateralWithdrawn(user, token, amount) => b.Set(Withdrawn(b, user, token, amount))
    case _ => b
  }

  function NextTraders(ts: Traders, ie: IndexedEvent): Traders {
    match ie.event
    case PositionOpened(_, user, _, _, _, _, _, _, _) => IncrementOpen(WithTrader(ts, user), user)
    case PositionClosed(_, _, _, _, _, _, _) => TradersAfterClose(ts, ie)
    case Liquidation(_, _, _, _, _, _) => TradersAfterLiquidation(ts, ie)
    case _ => ts
  }

  function NextDaily(daily: Daily, ie: IndexedEvent): Daily {
    match ie.event
    case PositionClosed(_, user, _, closed, _, pnl, _) =>
      Accumulate(daily, user, CivilDate.TimestampToDate(ie.blockTimestamp), closed, pnl, 0)
    case _ => daily
  }

  function NextMarkets(ms: Markets, t: Positions, ie: IndexedEvent): Markets {
    match ie.event
    case PositionOpened(_, _, market, isLong, size, _, _, _, _) => AddOi(ms, market, isLong, size)
    case PositionClosed(id, _, market, closed, _, _, _) =>
      if id in t.rows then AddOi(ms, market, t.rows[id].isLong, -closed) else ms
    case FundingRateUpdated(market, perSecond, rate24h) => WithFunding(ms, market, perSecond, rate24h)
    case MarketPaused(market) => WithPaused(ms, market, true)
    case _ => ms
  }

  function NextOrders(t: Orders, ie: IndexedEvent): Orders {
    match ie.event
    case OrderPlaced(_, _, _, _, _, _, _) => t.Insert(NewOrder(ie))
    case OrderExecuted(id, position, price) => t.Execute(id, price, position, ie.blockTimestamp)
    case OrderCancelled(id, _) => t.Cancel(id)
    case _ => t
  }

  function NextUsers(us: Users, ie: IndexedEvent): Users {
    match ie.event
    case PositionOpened(_, user, _, _, _, _, _, _, _) => WithUser(us, user, ie.blockTimestamp)
    case OrderPlaced(_, user, _, _, _, _, _) => WithUser(us, user, ie.blockTimestamp)
    case CollateralDeposited(user, _, _) => WithUser(us, user, ie.blockTimestamp)
    case VaultCreated(user, vault) => WithVault(WithUser(us, user, ie.blockTimestamp), user, vault)
    case _ => us
  }

  function ByStore(s: State, ie: IndexedEvent): State {
    State(NextPositions(s.positions, ie), NextOrders(s.orders, ie), NextBalances(s.balances, ie), NextUsers(s.users, ie),
          NextTraders(s.traders, ie), NextDaily(s.daily, ie), NextMarkets(s.markets, s.positions, ie), s.events, s.checkpoint)
  }

  predicate IsPositionEvent(e: Event) {
    e.PositionOpened? || e.PositionClosed? || e.PositionModified? || e.Liquidation?
  }

  predicate IsLedgerEvent(e: Event) {
    e.CollateralDeposited? || e.CollateralWithdrawn? || e.VaultCreated?
  }

  lemma PositionsByStore(s: State, ie: IndexedEvent)
    requires IsPositionEvent(ie.event)
    ensures LiveApply(s, ie) == ByStore(s, ie)
  {
    hide Positions.Insert, Positions.Update, TradersAfterClose, TradersAfterLiquidation, Accumulate, AddOi, WithUser;
    match ie.event {
      case PositionOpened(_, _, _, _, _, _, _, _, _) => assert LiveOpened(s, ie) == ByStore(s, ie);
      case PositionClosed(_, _, _, _, _, _, _) => assert LiveClosed(s, ie) == ByStore(s, ie);
      case PositionModified(_, _, _, _) => assert LiveModified(s, ie.event) == ByStore(s, ie);
      case Liquidation(_, _, _, _, _, _) => assert LiveLiquidated(s, ie) == ByStore(s, ie);
    }
  }

  lemma LedgerByStore(s: State, ie: IndexedEvent)
    requires IsLedgerEvent(ie.event)
    ensures LiveApply(s, ie) == ByStore(s, ie)
  {
    hide Balances.Set, Deposited, Withdrawn, WithUser, WithVault;
  }

  /** Each store after an event depends on that store alone, except that open interest also reads
      the positions. */
  lemma StoreByStore(s: State, ie: IndexedEvent)
    ensures LiveApply(s, ie) == ByStore(s, ie)
  {
    hide LiveApply, ByStore;
    if IsPositionEvent(ie.event) {
      PositionsByStore(s, ie);
    } else if IsLedgerEvent(ie.event) {
      LedgerByStore(s, ie);
    } else {
      OthersByStore(s, ie);
    }
  }

  lemma OthersByStore(s: State, ie: IndexedEvent)
    requires !IsPositionEvent(ie.event) && !IsLedgerEvent(ie.event)
    ensures LiveApply(s, ie) == ByStore(s, ie)
  {
    hide Orders.Insert, Orders.Execute, Orders.Cancel, NewOrder, WithUser, WithFunding, WithPaused;
  }

  function Filed(s: State, ie: IndexedEvent): State {
    s.(events := s.events.Append(ie, EventKeys(ie.event).0, EventKeys(ie.event).1))
  }

  function Logged(s: State, ie: IndexedEvent): State {
    Filed(s, ie).(checkpoint := s.checkpoint.(lastBlock := ie.blockNumber))
  }

  /** One `process_event` call. */
  function LiveStep(s: State, ie: IndexedEvent): State {
    Logged(LiveApply(s, ie), ie)
  }

  /* ---------- the recovery interpreter ---------- */

  function CloseReplay(e: Event, p: Position): Position
    requires e.PositionClosed?
  {
    var q := p.(exitPrice := Some(e.exitPrice), realizedPnl := Some(e.realizedPnl));
    if e.isFullClose then q.(status := Closed) else q.(sizeUsd := p.sizeUsd - e.closedSizeUsd)
  }

  function LiquidateReplay(e: Event, p: Position): Position
    requires e.Liquidation?
  {
    p.(status := Liquidated, exitPrice := Some(e.liquidationPrice))
  }

  function ReplayOpened(s: State, ie: IndexedEvent): State
    requires ie.event.PositionOpened?
  {
    s.(positions := s.positions.Insert(NewPosition(ie, 0)),
       users := WithUser(s.users, ie.event.user, ie.blockTimestamp),
       traders := IncrementOpen(WithTrader(s.traders, ie.event.user), ie.event.user))
  }

  function ReplayClosed(s: State, ie: IndexedEvent): State
    requires ie.event.PositionClosed?
  {
    var e := ie.event;
    s.(positions := s.positions.Update(e.positionId, p => CloseReplay(e, p)),
       traders := TradersAfterClose(s.traders, ie),
       daily := Accumulate(s.daily, e.user, CivilDate.TimestampToDate(ie.blockTimestamp),
                           e.closedSizeUsd, e.realizedPnl, 0))
  }

  function ReplayLiquidated(s: State, ie: IndexedEvent): State
    requires ie.event.Liquidation?
  {
    s.(positions := s.positions.Update(ie.event.positionId, p => LiquidateReplay(ie.event, p)),
       traders := TradersAfterLiquidation(s.traders, ie))
  }

  /** What `replay_wal_entry` does to the stores for an event it does not skip. */
  function ReplayApply(s: State, ie: IndexedEvent): State {
    match ie.event
    case PositionOpened(_, _, _, _, _, _, _, _, _) => ReplayOpened(s, ie)
    case PositionClosed(_, _, _, _, _, _, _) => ReplayClosed(s, ie)
    case Liquidation(_, _, _, _, _, _) => ReplayLiquidated(s, ie)
    case OrderPlaced(_, user, _, _, _, _, _) =>
      s.(orders := s.orders.Insert(NewOrder(ie)), users := WithUser(s.users, user, ie.blockTimestamp))
    case OrderExecuted(id, position, price) =>
      s.(orders := s.orders.Execute(id, price, position, ie.blockTimestamp))
    case OrderCancelled(id, _) => s.(orders := s.orders.Cancel(id))
    case CollateralDeposited(user, token, amount) =>
      s.(users := WithUser(s.users, user, ie.blockTimestamp),
         balances := s.balances.Set(Deposited(s.balances, user, token, amount)))
    case CollateralWithdrawn(user, token, amount) =>
      s.(balances := s.balances.Set(Withdrawn(s.balances, user, token, amount)))
    case VaultCreated(user, vault) =>
      s.(users := WithVault(WithUser(s.users, user, ie.blockTimestamp), user, vault))
    case FundingRateUpdated(market, perSecond, rate24h) =>
      s.(markets := WithFunding(s.markets, market, perSecond, rate24h))
    case MarketPaused(market) => s.(markets := WithPaused(s.markets, market, true))
    case _ => s
  }

  /** One call of `replay_wal_entry`: events of blocks up to `snapBlock` are skipped. */
  function ReplayEntry(s: State, snapBlock: nat, entry: WalEntry): State {
    match entry
    case TickEntry(ns, market, price) => s.(markets := WithPrice(s.markets, market, price, ns))
    case CheckpointEntry(block) => s.(checkpoint := s.checkpoint.(lastBlock := block))
    case BalanceUpdate(user, token, amount, locked, available) =>
      s.(balances := s.balances.Set(Balance(user, token, amount, locked, available)))
    case EventEntry(ie) =>
      if ie.blockNumber <= snapBlock then s else Logged(ReplayApply(s, ie), ie)
    case CandleUpdate(_, _, _, _, _, _, _, _) => s
    case BatchEnd => s
  }

  /** The engine logs events and ticks, and nothing else. */
  predicate Written(entry: WalEntry) {
    entry.EventEntry? || entry.TickEntry?
  }

  /** The live effect of one logged entry. */
  function LiveEntry(s: State, entry: WalEntry): State
    requires Written(entry)
  {
    match entry
    case EventEntry(ie) => LiveStep(s, ie)
    case TickEntry(ns, market, price) => s.(markets := WithPrice(s.markets, market, price, ns))
  }

  predicate AllWritten(log: seq<WalEntry>) {
    forall i :: 0 <= i < |log| ==> Written(log[i])
  }

  /** The live state after the calls that logged `log`. */
  function LiveRun(s: State, log: seq<WalEntry>): State
    requires AllWritten(log)
    decreases |log|
  {
    if log == [] then s else LiveEntry(LiveRun(s, log[..|log| - 1]), log[|log| - 1])
  }

  /** Recovery: replaying `log` over `s`. */
  function ReplayRun(s: State, snapBlock: nat, log: seq<WalEntry>): State
    decreases |log|
  {
    if log == [] then s else ReplayEntry(ReplayRun(s, snapBlock, log[..|log| - 1]), snapBlock, log[|log| - 1])
  }

  lemma {:induction false} ReplayRunConcat(s: State, snapBlock: nat, a: seq<WalEntry>, b: seq<WalEntry>)
    ensures ReplayRun(s, snapBlock, a + b) == ReplayRun(ReplayRun(s, snapBlock, a), snapBlock, b)
    decreases |b|
  {
    if b == [] {
      assert a + b == a;
    } else {
      var init := b[..|b| - 1];
      ReplayRunConcat(s, snapBlock, a, init);
      assert (a + b)[..|a + b| - 1] == a + init;
    }
  }

  lemma {:induction false} LiveRunConcat(s: State, a: seq<WalEntry>, b: seq<WalEntry>)
    requires AllWritten(a) && AllWritten(b)
    ensures LiveRun(s, a + b) == LiveRun(LiveRun(s, a), b)
    decreases |b|
  {
    if b == [] {
      assert a + b == a;
    } else {
      var init := b[..|b| - 1];
      LiveRunConcat(s, a, init);
      assert (a + b)[..|a + b| - 1] == a + init;
    }
  }
}
