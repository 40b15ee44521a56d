/** The records and events of `src/core/types.rs`.  Addresses and hashes are opaque numbers,
    `FixedI128` amounts unbounded integers, counters naturals and prices of ticks reals. */
module Types {
  import opened Collections

  type Address = int
  type Hash = int
  type Fixed = int

  const MARKET_COUNT := 18

  /** Rust's integer division: the quotient truncated toward zero. */
  function TruncDiv(a: int, b: int): int
    requires b > 0
  {
    if a >= 0 then a / b else -((-a) / b)
  }

  /** What truncation means: the multiple of `b` nearest to `a` on the side of zero. */
  lemma TruncDivTruncates(a: int, b: int)
    requires b > 0
    ensures var q := TruncDiv(a, b);
            if a >= 0 then 0 <= q * b <= a < q * b + b else q * b - b < a <= q * b <= 0
  {
    if a >= 0 {
      DivRange(a, b);
    } else {
      DivRange(-a, b);
      assert TruncDiv(a, b) * b == -(((-a) / b) * b);
    }
  }

  lemma DivRange(n: int, b: int)
    requires n >= 0 && b > 0
    ensures 0 <= (n / b) * b <= n < (n / b) * b + b
  {
    assert n == (n / b) * b + n % b;
    assert n / b >= 0;
  }

  datatype PositionStatus = Open | Closed | Liquidated

  datatype Position = Position(
    positionId: Hash, user: Address, market: nat, isLong: bool,
    sizeUsd: Fixed, collateralUsd: Fixed, collateralToken: Address, collateralAmount: Fixed,
    entryPrice: Fixed, exitPrice: Option<Fixed>, realizedPnl: Option<Fixed>, leverage: Fixed,
    status: PositionStatus, openTx: Hash, closeTx: Option<Hash>,
    openBlock: nat, closeBlock: Option<nat>, openedAt: nat, closedAt: Option<nat>)

  datatype OrderType = Limit | StopLimit | TakeProfit | StopLoss

  function OrderTypeFrom(v: nat): OrderType {
    match v
    case 1 => StopLimit
    case 2 => TakeProfit
    case 3 => StopLoss
    case _ => Limit
  }

  /** The discriminant of an order type. */
  function OrderTypeCode(t: OrderType): nat {
    match t
    case Limit => 0
    case StopLimit => 1
    case TakeProfit => 2
    case StopLoss => 3
  }

  datatype OrderStatus = Active | Executed | Cancelled

  datatype Order = Order(
    orderId: Hash, user: Address, market: nat, isLong: bool, orderType: OrderType,
    triggerPrice: Fixed, limitPrice: Option<Fixed>, sizeUsd: Fixed, leverage: Fixed,
    collateralToken: Address, collateralAmount: Fixed, status: OrderStatus,
    executionPrice: Option<Fixed>, positionId: Option<Hash>,
    txHash: Hash, blockNumber: nat, createdAt: nat, executedAt: Option<nat>)

  datatype Event =
    | PositionOpened(positionId: Hash, user: Address, market: nat, isLong: bool, sizeUsd: Fixed,
                     leverage: Fixed, entryPrice: Fixed, collateralToken: Address, collateralAmount: Fixed)
    | PositionClosed(positionId: Hash, user: Address, market: nat, closedSizeUsd: Fixed,
                     exitPrice: Fixed, realizedPnl: Fixed, isFullClose: bool)
    | PositionModified(positionId: Hash, newSizeUsd: Fixed, newCollateralUsd: Fixed, newCollateralAmount: Fixed)
    | OrderPlaced(orderId: Hash, user: Address, market: nat, orderType: nat, isLong: bool,
                  triggerPrice: Fixed, sizeUsd: Fixed)
    | OrderExecuted(orderId: Hash, positionId: Hash, executionPrice: Fixed)
    | OrderCancelled(orderId: Hash, user: Address)
    | Liquidation(positionId: Hash, user: Address, market: nat, liquidationPrice: Fixed,
                  penalty: Fixed, keeper: Address)
    | ADLExecuted(positionId: Hash, deleveragedSizeUsd: Fixed)
    | PriceUpdated(market: nat, price: Fixed, timestamp: nat)
    | FundingSettled(market: nat, fundingRate: Fixed, longPayment: Fixed, shortPayment: Fixed)
    | FundingRateUpdated(market: nat, newRatePerSecond: Fixed, fundingRate24h: Fixed)
    | MarketCreated(market: nat, name: string, symbol: string)
    | MarketPaused(market: nat)
    | CollateralDeposited(user: Address, token: Address, amount: Fixed)
    | CollateralWithdrawn(user: Address, token: Address, amount: Fixed)
    | VaultCreated(user: Address, vault: Address)
    | VaultDeficit(token: Address, deficit: Fixed)

  datatype IndexedEvent = IndexedEvent(
    blockNumber: nat, blockTimestamp: nat, txHash: Hash, txIndex: nat, logIndex: nat, event: Event)

  datatype PriceTick = PriceTick(timestampNs: nat, market: nat, price: real)

  datatype User = User(
    address: Address, vaultAddress: Option<Address>, referralCode: Option<string>,
    referredBy: Option<Address>, tier: string, feeDiscountBps: nat,
    createdAt: nat, firstTradeAt: Option<nat>, lastActiveAt: Option<nat>)

  datatype TraderStats = TraderStats(
    address: Address, totalPnl: Fixed, totalVolume: Fixed, totalFeesPaid: Fixed,
    totalTrades: nat, totalPositions: nat, openPositions: nat,
    winCount: nat, lossCount: nat, liquidationCount: nat,
    bestTradePnl: Fixed, worstTradePnl: Fixed, avgLeverage: Fixed, maxLeverage: Fixed,
    totalFundingPaid: Fixed, totalFundingReceived: Fixed,
    firstTradeAt: Option<nat>, lastTradeAt: Option<nat>)

  datatype DailyStats = DailyStats(date: int, pnl: Fixed, volume: Fixed, trades: nat, fees: Fixed)

  datatype Balance = Balance(user: Address, token: Address, amount: Fixed, locked: Fixed, available: Fixed)

  /** The entries of the write-ahead log (`src/storage/wal.rs`). */
  datatype WalEntry =
    | EventEntry(indexed: IndexedEvent)
    | TickEntry(timestampNs: nat, market: nat, price: real)
    | CandleUpdate(candleNs: nat, candleMarket: nat, timeframe: nat,
                   open: real, high: real, low: real, close: real, volume: real)
    | BalanceUpdate(user: Address, token: Address, amount: Fixed, locked: Fixed, available: Fixed)
    | CheckpointEntry(blockNumber: nat)
    | BatchEnd
}
