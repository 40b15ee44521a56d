/** What each store shows after a run, said in terms of the events themselves: which event last
    touched a row, how many of a kind there were, and what they add up to.  None of it speaks of the
    functions the interpreters are made of. */
module Histories {
  import opened Collections
  import opened Types
  import opened PositionStore
  import opened UserStore
  import opened EventLogStore
  import opened StatsStore
  import opened MarketStore
  import opened CheckpointStore
  import opened Engine
  import opened Recovery
  import Accounting
  import Snapshots
  import CivilDate

  type Test = IndexedEvent -> bool

  /** The position of the last event that passes, -1 if none does. */
  function Last(es: seq<IndexedEvent>, p: Test): (k: int)
    ensures -1 <= k < |es| && (k >= 0 ==> p(es[k])) && forall j :: k < j < |es| ==> !p(es[j])
  {
    if es == [] then -1
    else if p(es[|es| - 1]) then |es| - 1
    else Last(es[..|es| - 1], p)
  }

  /** The position of the first event that passes, -1 if none does. */
  function First(es: seq<IndexedEvent>, p: Test): (k: int)
    ensures -1 <= k < |es| && (k >= 0 ==> p(es[k]))
    ensures forall j :: 0 <= j < (if k >= 0 then k else |es|) ==> !p(es[j])
  {
    if es == [] then -1
    else
      var init := es[..|es| - 1];
      assert forall j :: 0 <= j < |init| ==> init[j] == es[j];
      if First(init, p) >= 0 then First(init, p)
      else if p(es[|es| - 1]) then |es| - 1 else -1
  }

  function Number(es: seq<IndexedEvent>, p: Test): nat {
    if es == [] then 0 else Number(es[..|es| - 1], p) + if p(es[|es| - 1]) then 1 else 0
  }

  function Sum(es: seq<IndexedEvent>, p: Test, f: IndexedEvent -> int): int {
    if es == [] then 0 else Sum(es[..|es| - 1], p, f) + if p(es[|es| - 1]) then f(es[|es| - 1]) else 0
  }

  function Those(es: seq<IndexedEvent>, p: Test): seq<IndexedEvent> {
    if es == [] then [] else Those(es[..|es| - 1], p) + if p(es[|es| - 1]) then [es[|es| - 1]] else []
  }

  /** How the folds grow by one event. */
  lemma Snoc(es: seq<IndexedEvent>, ie: IndexedEvent, p: Test)
    ensures Last(es + [ie], p) == if p(ie) then |es| else Last(es, p)
    ensures First(es + [ie], p) == if First(es, p) >= 0 then First(es, p) else if p(ie) then |es| else -1
    ensures Number(es + [ie], p) == Number(es, p) + if p(ie) then 1 else 0
    ensures Those(es + [ie], p) == Those(es, p) + if p(ie) then [ie] else []
  {
    assert (es + [ie])[..|es|] == es;
  }

  lemma SumSnoc(es: seq<IndexedEvent>, ie: IndexedEvent, p: Test, f: IndexedEvent -> int)
    ensures Sum(es + [ie], p, f) == Sum(es, p, f) + if p(ie) then f(ie) else 0
  {
    assert (es + [ie])[..|es|] == es;
  }

  /** The last event of a run, store by store. */
  lemma RunByStore(es: seq<IndexedEvent>)
    requires es != []
    ensures var s, t, ie := Accounting.Run(es[..|es| - 1]), Accounting.Run(es), es[|es| - 1];
            && t.positions == NextPositions(s.positions, ie) && t.orders == NextOrders(s.orders, ie)
            && t.users == NextUsers(s.users, ie) && t.traders == NextTraders(s.traders, ie)
            && t.daily == NextDaily(s.daily, ie) && t.markets == NextMarkets(s.markets, s.positions, ie)
            && t.checkpoint == s.checkpoint.(lastBlock := ie.blockNumber)
  {
    hide EventKeys, NextPositions, NextOrders, NextUsers, NextTraders, NextDaily, NextMarkets, NextBalances;
    StoreByStore(Accounting.Run(es[..|es| - 1]), es[|es| - 1]);
  }

  lemma Split(es: seq<IndexedEvent>)
    requires es != []
    ensures es == es[..|es| - 1] + [es[|es| - 1]]
  {
  }

  /* ---------- trader statistics ---------- */

  function Opened(a: Address): Test {
    (ie: IndexedEvent) => ie.event.PositionOpened? && ie.event.user == a
  }

  function Closing(a: Address): Test {
    (ie: IndexedEvent) => ie.event.PositionClosed? && ie.event.user == a
  }

  function Won(a: Address): Test {
    (ie: IndexedEvent) => ie.event.PositionClosed? && ie.event.user == a && ie.event.realizedPnl > 0
  }

  function Lost(a: Address): Test {
    (ie: IndexedEvent) => ie.event.PositionClosed? && ie.event.user == a && ie.event.realizedPnl <= 0
  }

  function Liquidating(a: Address): Test {
    (ie: IndexedEvent) => ie.event.Liquidation? && ie.event.user == a
  }

  /** A close or a liquidation of the trader. */
  function Trading(a: Address): Test {
    (ie: IndexedEvent) => (ie.event.PositionClosed? || ie.event.Liquidation?) && ie.event.user == a
  }

  /** What the trader gained by it. */
  function Gain(ie: IndexedEvent): int {
    if ie.event.PositionClosed? then ie.event.realizedPnl
    else if ie.event.Liquidation? then -ie.event.penalty else 0
  }

  function ClosedSize(ie: IndexedEvent): int {
    if ie.event.PositionClosed? then ie.event.closedSizeUsd else 0
  }

  /** The greatest gain of the trader's trades, 0 included; and the least. */
  ghost predicate IsBest(best: int, es: seq<IndexedEvent>, a: Address) {
    && best >= 0 && (forall k :: 0 <= k < |es| && Trading(a)(es[k]) ==> Gain(es[k]) <= best)
    && (best == 0 || exists k :: 0 <= k < |es| && Trading(a)(es[k]) && Gain(es[k]) == best)
  }

  ghost predicate IsWorst(worst: int, es: seq<IndexedEvent>, a: Address) {
    && worst <= 0 && (forall k :: 0 <= k < |es| && Trading(a)(es[k]) ==> worst <= Gain(es[k]))
    && (worst == 0 || exists k :: 0 <= k < |es| && Trading(a)(es[k]) && Gain(es[k]) == worst)
  }

  function TimeAt(es: seq<IndexedEvent>, k: int): Option<nat>
    requires k < |es|
  {
    if k >= 0 then Some(es[k].blockTimestamp) else None
  }

  /** One event, seen on a trader's row. */
  ghost predicate TraderMoves(s: TraderStats, t: TraderStats, ie: IndexedEvent, a: Address) {
    && t.totalPositions == s.totalPositions + (if Opened(a)(ie) then 1 else 0)
    && t.winCount == s.winCount + (if Won(a)(ie) then 1 else 0)
    && t.lossCount == s.lossCount + (if Lost(a)(ie) then 1 else 0)
    && t.liquidationCount == s.liquidationCount + (if Liquidating(a)(ie) then 1 else 0)
    && t.totalTrades == s.totalTrades + (if Trading(a)(ie) then 1 else 0)
    && t.totalVolume == s.totalVolume + (if Closing(a)(ie) then ClosedSize(ie) else 0)
    && t.totalPnl == s.totalPnl + (if Trading(a)(ie) then Gain(ie) else 0)
    && t.totalFeesPaid == s.totalFeesPaid
    && t.bestTradePnl == (if Trading(a)(ie) && Gain(ie) > s.bestTradePnl then Gain(ie) else s.bestTradePnl)
    && t.worstTradePnl == (if Trading(a)(ie) && Gain(ie) < s.worstTradePnl then Gain(ie) else s.worstTradePnl)
    && t.firstTradeAt == (if Trading(a)(ie) && s.firstTradeAt.None? then Some(ie.blockTimestamp) else s.firstTradeAt)
    && t.lastTradeAt == (if Trading(a)(ie) then Some(ie.blockTimestamp) else s.lastTradeAt)
    && t.address == s.address && t.avgLeverage == s.avgLeverage && t.maxLeverage == s.maxLeverage
    && t.totalFundingPaid == s.totalFundingPaid && t.totalFundingReceived == s.totalFundingReceived
  }

  lemma TraderStep(ts: Traders, ie: IndexedEvent, a: Address)
    ensures TraderMoves(Accounting.Row(ts, a), Accounting.Row(NextTraders(ts, ie), a), ie, a)
    ensures a in NextTraders(ts, ie) <==> a in ts || Opened(a)(ie) || Trading(a)(ie)
  {
    hide TraderMoves, TradersAfterClose, TradersAfterLiquidation, Accounting.Row, IncrementOpen, WithTrader;
    match ie.event {
      case PositionOpened(_, user, _, _, _, _, _, _, _) => OpenMoves(ts, ie, a);
      case PositionClosed(_, _, _, _, _, _, _) => CloseMoves(ts, ie, a);
      case Liquidation(_, _, _, _, _, _) => LiquidationMoves(ts, ie, a);
      case _ => NothingMoves(ts, ie, a);
    }
  }

  lemma OpenMoves(ts: Traders, ie: IndexedEvent, a: Address)
    requires ie.event.PositionOpened?
    ensures var us := IncrementOpen(WithTrader(ts, ie.event.user), ie.event.user);
            && TraderMoves(Accounting.Row(ts, a), Accounting.Row(us, a), ie, a)
            && (a in us <==> a in ts || a == ie.event.user)
  {
  }

  lemma NothingMoves(ts: Traders, ie: IndexedEvent, a: Address)
    requires !ie.event.PositionOpened? && !ie.event.PositionClosed? && !ie.event.Liquidation?
    ensures TraderMoves(Accounting.Row(ts, a), Accounting.Row(ts, a), ie, a)
  {
  }

  lemma CloseMoves(ts: Traders, ie: IndexedEvent, a: Address)
    requires ie.event.PositionClosed?
    ensures TraderMoves(Accounting.Row(ts, a), Accounting.Row(TradersAfterClose(ts, ie), a), ie, a)
    ensures a in TradersAfterClose(ts, ie) <==> a in ts || a == ie.event.user
  {
    var e, with := ie.event, WithTrader(ts, ie.event.user);
    var traded := WithTrade(with, e.user, e.closedSizeUsd, e.realizedPnl, 0, e.realizedPnl > 0, false, ie.blockTimestamp);
    assert Accounting.Row(with, a) == Accounting.Row(ts, a);
    assert TraderMoves(Accounting.Row(with, a), Accounting.Row(traded, a), ie, a);
  }

  lemma LiquidationMoves(ts: Traders, ie: IndexedEvent, a: Address)
    requires ie.event.Liquidation?
    ensures TraderMoves(Accounting.Row(ts, a), Accounting.Row(TradersAfterLiquidation(ts, ie), a), ie, a)
    ensures a in TradersAfterLiquidation(ts, ie) <==> a in ts || a == ie.event.user
  {
  }

  /** The same between two moments of a run. */
  lemma TraderRunStep(es: seq<IndexedEvent>, a: Address)
    requires es != []
    ensures var ts, us := Accounting.Run(es[..|es| - 1]).traders, Accounting.Run(es).traders;
            && TraderMoves(Accounting.Row(ts, a), Accounting.Row(us, a), es[|es| - 1], a)
            && (a in us <==> a in ts || Opened(a)(es[|es| - 1]) || Trading(a)(es[|es| - 1]))
  {
    hide NextTraders, Accounting.Row, Accounting.Run, TraderMoves;
    var init, ie := es[..|es| - 1], es[|es| - 1];
    Split(es);
    RunByStore(es);
    TraderStep(Accounting.Run(init).traders, ie, a);
  }

  /** After every run a trader's counters count the trader's own openings, closes with a gain, closes
      without, and liquidations; the totals add up what those closed and gained; and there is a row
      exactly when there was any of them. */
  lemma {:induction false} TraderHistory(es: seq<IndexedEvent>, a: Address)
    ensures var s := Accounting.Row(Accounting.Run(es).traders, a);
            && s.totalPositions == Number(es, Opened(a))
            && s.winCount == Number(es, Won(a)) && s.lossCount == Number(es, Lost(a))
            && s.liquidationCount == Number(es, Liquidating(a)) && s.totalTrades == Number(es, Trading(a))
            && s.totalVolume == Sum(es, Closing(a), ClosedSize) && s.totalPnl == Sum(es, Trading(a), Gain)
            && s.totalFeesPaid == 0 && s.address == a
            && s.avgLeverage == s.maxLeverage == s.totalFundingPaid == s.totalFundingReceived == 0
  {
    if es != [] {
      hide Accounting.Row, Accounting.Run, Opened, Won, Lost, Liquidating, Trading, Closing, ClosedSize, Gain;
      TraderHistory(es[..|es| - 1], a);
      TraderRunStep(es, a);
    }
  }

  /** And the first and last trade times are those of the trader's first and last close or
      liquidation. */
  lemma {:induction false} TraderTimes(es: seq<IndexedEvent>, a: Address)
    ensures var ts, first, last := Accounting.Run(es).traders, First(es, Trading(a)), Last(es, Trading(a));
            && (a in ts <==> Last(es, Opened(a)) >= 0 || last >= 0) && (first >= 0 <==> last >= 0)
            && Accounting.Row(ts, a).firstTradeAt == TimeAt(es, first) && Accounting.Row(ts, a).lastTradeAt == TimeAt(es, last)
  {
    if es != [] {
      hide Accounting.Row, Accounting.Run, Opened, Trading, Last, First;
      var init, ie := es[..|es| - 1], es[|es| - 1];
      Split(es);
      TraderTimes(init, a);
      TraderRunStep(es, a);
      Snoc(init, ie, Opened(a));
      Snoc(init, ie, Trading(a));
    } else {
      assert Accounting.Run(es).traders == map[];
    }
  }

  lemma {:induction false} TraderExtremes(es: seq<IndexedEvent>, a: Address)
    ensures var s := Accounting.Row(Accounting.Run(es).traders, a);
            IsBest(s.bestTradePnl, es, a) && IsWorst(s.worstTradePnl, es, a)
  {
    if es != [] {
      hide NextTraders, Accounting.Row, Accounting.Run, Gain, Trading;
      var init, ie := es[..|es| - 1], es[|es| - 1];
      Split(es);
      TraderExtremes(init, a);
      TraderRunStep(es, a);
      BestSnoc(Accounting.Row(Accounting.Run(init).traders, a).bestTradePnl, init, ie, a);
      WorstSnoc(Accounting.Row(Accounting.Run(init).traders, a).worstTradePnl, init, ie, a);
    }
  }

  lemma BestSnoc(best: int, es: seq<IndexedEvent>, ie: IndexedEvent, a: Address)
    requires IsBest(best, es, a)
    ensures IsBest(if Trading(a)(ie) && Gain(ie) > best then Gain(ie) else best, es + [ie], a)
  {
    hide Trading, Gain;
    var more := es + [ie];
    assert more[|es|] == ie && forall k :: 0 <= k < |es| ==> more[k] == es[k];
    if best != 0 {
      var k :| 0 <= k < |es| && Trading(a)(es[k]) && Gain(es[k]) == best;
      assert Trading(a)(more[k]) && Gain(more[k]) == best;
    }
  }

  lemma WorstSnoc(worst: int, es: seq<IndexedEvent>, ie: IndexedEvent, a: Address)
    requires IsWorst(worst, es, a)
    ensures IsWorst(if Trading(a)(ie) && Gain(ie) < worst then Gain(ie) else worst, es + [ie], a)
  {
    hide Trading, Gain;
    var more := es + [ie];
    assert more[|es|] == ie && forall k :: 0 <= k < |es| ==> more[k] == es[k];
    if worst != 0 {
      var k :| 0 <= k < |es| && Trading(a)(es[k]) && Gain(es[k]) == worst;
      assert Trading(a)(more[k]) && Gain(more[k]) == worst;
    }
  }

  /* ---------- daily statistics ---------- */

  /** A close of the trader on the day. */
  function ClosingOn(a: Address, date: int): Test {
    (ie: IndexedEvent) =>
      ie.event.PositionClosed? && ie.event.user == a && CivilDate.TimestampToDate(ie.blockTimestamp) == date
  }

  ghost predicate DailyIs(daily: Daily, es: seq<IndexedEvent>, a: Address, date: int) {
    var p := ClosingOn(a, date);
    && ((a, date) in daily <==> Number(es, p) > 0)
    && ((a, date) in daily ==>
          daily[(a, date)] == DailyStats(date, Sum(es, p, Gain), Sum(es, p, ClosedSize), Number(es, p), 0))
  }

  /** A trader's row of a day holds the number, the sizes and the gains of the trader's own closes of
      that day, and is there exactly when there were any. */
  lemma {:induction false} DailyHistory(es: seq<IndexedEvent>, a: Address, date: int)
    ensures DailyIs(Accounting.Run(es).daily, es, a, date)
  {
    if es == [] {
      assert Accounting.Run(es).daily == map[];
    } else {
      hide NextDaily, Accounting.Run, DailyIs, DailyMoves;
      var init, ie := es[..|es| - 1], es[|es| - 1];
      Split(es);
      DailyHistory(init, a, date);
      RunByStore(es);
      DailyStep(Accounting.Run(init).daily, ie, a, date);
      DailySnoc(Accounting.Run(init).daily, Accounting.Run(es).daily, init, ie, a, date);
    }
  }

  /** One event, seen on one row. */
  ghost predicate DailyMoves(daily: Daily, next: Daily, ie: IndexedEvent, a: Address, date: int) {
    var k := (a, date);
    if ClosingOn(a, date)(ie)
    then && k in next
         && next[k] == if k in daily
                       then daily[k].(pnl := daily[k].pnl + Gain(ie), volume := daily[k].volume + ClosedSize(ie),
                                      trades := daily[k].trades + 1)
                       else DailyStats(date, Gain(ie), ClosedSize(ie), 1, 0)
    else (k in next <==> k in daily) && (k in daily ==> next[k] == daily[k])
  }

  lemma DailyStep(daily: Daily, ie: IndexedEvent, a: Address, date: int)
    ensures DailyMoves(daily, NextDaily(daily, ie), ie, a, date)
  {
    hide CivilDate.TimestampToDate;
  }

  lemma DailySnoc(daily: Daily, next: Daily, es: seq<IndexedEvent>, ie: IndexedEvent, a: Address, date: int)
    requires DailyIs(daily, es, a, date) && DailyMoves(daily, next, ie, a, date)
    ensures DailyIs(next, es + [ie], a, date)
  {
    hide ClosingOn, Gain, ClosedSize, Number, Sum;
    NothingCounted(es, ClosingOn(a, date), Gain);
    NothingCounted(es, ClosingOn(a, date), ClosedSize);
    Snoc(es, ie, ClosingOn(a, date));
    SumSnoc(es, ie, ClosingOn(a, date), Gain);
    SumSnoc(es, ie, ClosingOn(a, date), ClosedSize);
  }

  lemma {:induction false} NothingCounted(es: seq<IndexedEvent>, p: Test, f: IndexedEvent -> int)
    ensures Number(es, p) == 0 ==> Sum(es, p, f) == 0
  {
    if es != [] {
      NothingCounted(es[..|es| - 1], p, f);
    }
  }

  /* ---------- the event log ---------- */

  /** The events that have a market field, and those that have a user field. */
  predicate HasMarket(e: Event) {
    || e.PositionOpened? || e.PositionClosed? || e.OrderPlaced? || e.Liquidation? || e.PriceUpdated?
    || e.FundingSettled? || e.FundingRateUpdated? || e.MarketCreated? || e.MarketPaused?
  }

  predicate HasUser(e: Event) {
    || e.PositionOpened? || e.PositionClosed? || e.OrderPlaced? || e.OrderCancelled? || e.Liquidation?
    || e.CollateralDeposited? || e.CollateralWithdrawn? || e.VaultCreated?
  }

  function InMarket(m: nat): Test {
    (ie: IndexedEvent) => HasMarket(ie.event) && ie.event.market == m
  }

  function ByUser(a: Address): Test {
    (ie: IndexedEvent) => HasUser(ie.event) && ie.event.user == a
  }

  /** An event is filed under its own market and its own user, where it has them. */
  lemma KeysAreFields(e: Event)
    ensures EventKeys(e).0 == if HasMarket(e) then Some(e.market) else None
    ensures EventKeys(e).1 == if HasUser(e) then Some(e.user) else None
  {
  }

  lemma AppendFiles(log: EventLog, ie: IndexedEvent, m: nat, a: Address)
    ensures FilesOne(log, log.Append(ie, EventKeys(ie.event).0, EventKeys(ie.event).1), ie, m, a)
  {
    KeysAreFields(ie.event);
    hide EventKeys;
  }

  /** After any list of filed events each partition holds, behind what it held, the events whose own
      market or user it is, in order. */
  lemma {:induction false} FiledByField(log: EventLog, es: seq<IndexedEvent>, m: nat, a: Address)
    ensures FiledIs(log, Snapshots.FiledAll(log, es), es, m, a)
  {
    if es != [] {
      hide EventKeys, EventLog.Append, InMarket, ByUser, FiledIs;
      var init, ie := es[..|es| - 1], es[|es| - 1];
      Split(es);
      FiledByField(log, init, m, a);
      AppendFiles(Snapshots.FiledAll(log, init), ie, m, a);
      FiledSnoc(log, Snapshots.FiledAll(log, init), Snapshots.FiledAll(log, es), init, ie, m, a);
    }
  }

  ghost predicate FiledIs(log: EventLog, t: EventLog, es: seq<IndexedEvent>, m: nat, a: Address) {
    && t.total == log.total + |es|
    && Snapshots.Partition(t.byMarket, m) == Snapshots.Partition(log.byMarket, m) + Those(es, InMarket(m))
    && Snapshots.Partition(t.byTrader, a) == Snapshots.Partition(log.byTrader, a) + Those(es, ByUser(a))
    && (m in t.byMarket <==> m in log.byMarket || Those(es, InMarket(m)) != [])
    && (a in t.byTrader <==> a in log.byTrader || Those(es, ByUser(a)) != [])
  }

  /** The log `u` is `t` with one more event filed. */
  ghost predicate FilesOne(t: EventLog, u: EventLog, ie: IndexedEvent, m: nat, a: Address) {
    && u.total == t.total + 1
    && Snapshots.Partition(u.byMarket, m) == Snapshots.Partition(t.byMarket, m) + (if InMarket(m)(ie) then [ie] else [])
    && Snapshots.Partition(u.byTrader, a) == Snapshots.Partition(t.byTrader, a) + (if ByUser(a)(ie) then [ie] else [])
    && (m in u.byMarket <==> m in t.byMarket || InMarket(m)(ie))
    && (a in u.byTrader <==> a in t.byTrader || ByUser(a)(ie))
  }

  lemma FiledSnoc(log: EventLog, t: EventLog, u: EventLog, es: seq<IndexedEvent>, ie: IndexedEvent, m: nat, a: Address)
    requires FiledIs(log, t, es, m, a) && FilesOne(t, u, ie, m, a)
    ensures FiledIs(log, u, es + [ie], m, a)
  {
    hide InMarket, ByUser, Those, Snapshots.Partition;
    PartitionSnoc(Snapshots.Partition(log.byMarket, m), es, ie, InMarket(m));
    PartitionSnoc(Snapshots.Partition(log.byTrader, a), es, ie, ByUser(a));
  }

  lemma PartitionSnoc(front: seq<IndexedEvent>, es: seq<IndexedEvent>, ie: IndexedEvent, p: Test)
    ensures (front + Those(es, p)) + (if p(ie) then [ie] else []) == front + Those(es + [ie], p)
    ensures Those(es + [ie], p) != [] <==> Those(es, p) != [] || p(ie)
  {
    hide Those;
    Snoc(es, ie, p);
    Associative(front, Those(es, p), if p(ie) then [ie] else []);
  }

  lemma {:induction false} RunFiles(es: seq<IndexedEvent>)
    ensures Accounting.Run(es).events == Snapshots.FiledAll(NO_EVENTS, es)
  {
    if es != [] {
      hide EventKeys;
      RunFiles(es[..|es| - 1]);
      StoreByStore(Accounting.Run(es[..|es| - 1]), es[|es| - 1]);
    }
  }

  /** After every run partition `m` is the run's events of market `m` and partition `a` those of user
      `a`, in order, and every event is counted. */
  lemma EventHistory(es: seq<IndexedEvent>, m: nat, a: Address)
    ensures var t := Accounting.Run(es).events;
            && t.total == |es|
            && Snapshots.Partition(t.byMarket, m) == Those(es, InMarket(m)) && (m in t.byMarket <==> Those(es, InMarket(m)) != [])
            && Snapshots.Partition(t.byTrader, a) == Those(es, ByUser(a)) && (a in t.byTrader <==> Those(es, ByUser(a)) != [])
  {
    hide Accounting.Run, Snapshots.FiledAll;
    RunFiles(es);
    FiledByField(NO_EVENTS, es, m, a);
    assert [] + Those(es, InMarket(m)) == Those(es, InMarket(m)) && [] + Those(es, ByUser(a)) == Those(es, ByUser(a));
  }

  /** Replay adds the events it does not skip, in log order. */
  lemma ReplayHistory(r: State, b: nat, log: seq<WalEntry>, m: nat, a: Address)
    ensures var t, es := ReplayRun(r, b, log).events, Snapshots.Delivered(log, b);
            && t.total == r.events.total + |es|
            && Snapshots.Partition(t.byMarket, m) == Snapshots.Partition(r.events.byMarket, m) + Those(es, InMarket(m))
            && Snapshots.Partition(t.byTrader, a) == Snapshots.Partition(r.events.byTrader, a) + Those(es, ByUser(a))
  {
    hide ReplayRun, Snapshots.FiledAll;
    Snapshots.ReplayFiles(r, b, log);
    FiledByField(r.events, Snapshots.Delivered(log, b), m, a);
  }

  /* ---------- users ---------- */

  /** The events that make sure a user exists. */
  function Touching(a: Address): Test {
    (ie: IndexedEvent) =>
      (ie.event.PositionOpened? || ie.event.OrderPlaced? || ie.event.CollateralDeposited? || ie.event.VaultCreated?)
      && ie.event.user == a
  }

  function VaultOf(a: Address): Test {
    (ie: IndexedEvent) => ie.event.VaultCreated? && ie.event.user == a
  }

  /** One event, seen on one user. */
  ghost predicate UserMoves(us: Users, t: Users, ie: IndexedEvent, a: Address) {
    && (a in t <==> a in us || Touching(a)(ie))
    && (a in us && !Touching(a)(ie) ==> t[a] == us[a])
    && (Touching(a)(ie) ==>
          && t[a].vaultAddress == (if VaultOf(a)(ie) then Some(ie.event.vault) else if a in us then us[a].vaultAddress else None)
          && t[a].(vaultAddress := None) ==
             (if a in us then us[a].(vaultAddress := None, lastActiveAt := Some(ie.blockTimestamp))
              else User(a, None, None, None, "bronze", 0, ie.blockTimestamp, None, Some(ie.blockTimestamp))))
  }

  lemma UserStep(us: Users, ie: IndexedEvent, a: Address)
    ensures UserMoves(us, NextUsers(us, ie), ie, a)
  {
  }

  ghost predicate UserIs(us: Users, es: seq<IndexedEvent>, a: Address) {
    var first, last, v := First(es, Touching(a)), Last(es, Touching(a)), Last(es, VaultOf(a));
    && (a in us <==> first >= 0) && (first >= 0 <==> last >= 0)
    && (a in us ==>
          us[a] == User(a, if v >= 0 then Some(es[v].event.vault) else None, None, None, "bronze", 0,
                        es[first].blockTimestamp, None, Some(es[last].blockTimestamp)))
  }

  lemma UserSnoc(us: Users, t: Users, es: seq<IndexedEvent>, ie: IndexedEvent, a: Address)
    requires UserIs(us, es, a) && UserMoves(us, t, ie, a)
    ensures UserIs(t, es + [ie], a)
  {
    hide Touching, First, Last;
    Snoc(es, ie, Touching(a));
    Snoc(es, ie, VaultOf(a));
    VaultTouches(es, ie, a);
    if a in t {
      assert t[a] == t[a].(vaultAddress := None).(vaultAddress := t[a].vaultAddress);
    }
  }

  /** After every run a user exists exactly when some event made sure of it: created at the time of
      the first such event, last active at the time of the last, with the vault of the last
      `VaultCreated`, and everything else as a new user has it. */
  lemma {:induction false} UserHistory(es: seq<IndexedEvent>, a: Address)
    ensures UserIs(Accounting.Run(es).users, es, a)
  {
    if es == [] {
      assert Accounting.Run(es).users == map[];
    } else {
      hide NextUsers, Accounting.Run, UserIs, UserMoves;
      var init, ie := es[..|es| - 1], es[|es| - 1];
      Split(es);
      UserHistory(init, a);
      RunByStore(es);
      UserStep(Accounting.Run(init).users, ie, a);
      UserSnoc(Accounting.Run(init).users, Accounting.Run(es).users, init, ie, a);
    }
  }

  lemma VaultTouches(es: seq<IndexedEvent>, ie: IndexedEvent, a: Address)
    ensures Last(es, VaultOf(a)) >= 0 ==> Last(es, Touching(a)) >= 0
    ensures VaultOf(a)(ie) ==> Touching(a)(ie)
  {
    hide Last;
    var v := Last(es, VaultOf(a));
    assert v >= 0 ==> Touching(a)(es[v]);
  }

  /* ---------- markets ---------- */

  function Funds(m: nat): Test {
    (ie: IndexedEvent) => ie.event.FundingRateUpdated? && ie.event.market == m
  }

  function Pauses(m: nat): Test {
    (ie: IndexedEvent) => ie.event.MarketPaused? && ie.event.market == m
  }

  lemma MarketStep(ms: Markets, t: Positions, ie: IndexedEvent, m: nat)
    requires m < |ms|
    ensures |NextMarkets(ms, t, ie)| == |ms|
    ensures WithoutOi(NextMarkets(ms, t, ie)[m]) ==
            var slot := WithoutOi(ms[m]);
            if Funds(m)(ie)
            then slot.(inner := slot.inner.(fundingPerSecond := ie.event.newRatePerSecond, funding24h := ie.event.fundingRate24h))
            else if Pauses(m)(ie) then slot.(inner := slot.inner.(paused := true))
            else slot
  {
  }

  /** After every run a market shows the two rates of its last funding update, is paused exactly when
      some event paused it, and otherwise looks as at the start, open interest apart. */
  lemma {:induction false} MarketHistory(es: seq<IndexedEvent>, m: nat)
    requires m < 18
    ensures |Accounting.Run(es).markets| == 18
    ensures var k := Last(es, Funds(m));
            WithoutOi(Accounting.Run(es).markets[m]) ==
            MarketSlot(0.0, 0, MarketInner(None, None, if k >= 0 then es[k].event.newRatePerSecond else 0,
                                           if k >= 0 then es[k].event.fundingRate24h else 0, 0, 0, true,
                                           Last(es, Pauses(m)) >= 0, None, None, None, None, None, None))
  {
    if es == [] {
      assert Accounting.Run(es).markets == NoMarkets();
    } else {
      hide NextMarkets, Accounting.Run, WithoutOi;
      var init, ie := es[..|es| - 1], es[|es| - 1];
      Split(es);
      MarketHistory(init, m);
      RunByStore(es);
      MarketStep(Accounting.Run(init).markets, Accounting.Run(init).positions, ie, m);
      hide Last;
      Snoc(init, ie, Funds(m));
      Snoc(init, ie, Pauses(m));
    }
  }

  /** An opening moves the open interest of its own market on its own side by its size, and no other. */
  lemma OpeningInterest(s: State, ie: IndexedEvent, m: nat)
    requires ie.event.PositionOpened? && m < |s.markets|
    ensures var e, i, j := ie.event, s.markets[m].inner, LiveStep(s, ie).markets[m].inner;
            && |LiveStep(s, ie).markets| == |s.markets|
            && j.longOi == i.longOi + (if e.market == m && e.isLong then e.sizeUsd else 0)
            && j.shortOi == i.shortOi + (if e.market == m && !e.isLong then e.sizeUsd else 0)
  {
    hide LiveApply;
    StoreByStore(s, ie);
  }

  /** After every run the checkpoint shows the block of the last event. */
  lemma CheckpointHistory(es: seq<IndexedEvent>)
    ensures Accounting.Run(es).checkpoint == Checkpoint(if es == [] then 0 else es[|es| - 1].blockNumber, "", 0)
  {
    if es != [] {
      RunByStore(es);
      hide Accounting.Run;
      CheckpointHistory(es[..|es| - 1]);
    }
  }

  /* ---------- log entries that no call writes ---------- */

  /** Replay sets a logged balance as it stands, moves the checkpoint to a logged block, and passes
      over candle and batch entries. */
  lemma OtherEntries(s: State, b: nat, entry: WalEntry)
    ensures entry.BalanceUpdate? ==>
              var t, k := ReplayEntry(s, b, entry), (entry.user, entry.token);
              && t == s.(balances := t.balances) && t.balances.rows.Keys == s.balances.rows.Keys + {k}
              && t.balances.rows[k] == Balance(entry.user, entry.token, entry.amount, entry.locked, entry.available)
              && forall x :: x in s.balances.rows && x != k ==> t.balances.rows[x] == s.balances.rows[x]
    ensures entry.CheckpointEntry? ==>
              var t := ReplayEntry(s, b, entry);
              && t == s.(checkpoint := t.checkpoint) && t.checkpoint.lastBlock == entry.blockNumber
              && t.checkpoint.lastBlockHash == s.checkpoint.lastBlockHash
              && t.checkpoint.lastBlockTimestamp == s.checkpoint.lastBlockTimestamp
    ensures entry.CandleUpdate? || entry.BatchEnd? ==> ReplayEntry(s, b, entry) == s
  {
  }
}
