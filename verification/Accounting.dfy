/** Conservation laws of the live engine over whole event sequences: statistics, open interest,
    open-position counters and balances. */
module Accounting {
  import opened Collections
  import opened Types
  import opened PositionStore
  import opened BalanceStore
  import opened StatsStore
  import opened MarketStore
  import opened Engine
  import Snapshots
  import CivilDate
  import Index

  /** The state after processing `es` from an empty engine. */
  function Run(es: seq<IndexedEvent>): State {
    if es == [] then Empty() else LiveStep(Run(es[..|es| - 1]), es[|es| - 1])
  }

  /* ---------- trader statistics against daily statistics ---------- */

  function Row(ts: Traders, a: Address): TraderStats {
    if a in ts then ts[a] else FreshStats(a)
  }

  /** Penalties charged to a trader. */
  function Penalties(es: seq<IndexedEvent>, a: Address): int {
    if es == [] then 0
    else
      var e := es[|es| - 1].event;
      Penalties(es[..|es| - 1], a) + if e.Liquidation? && e.user == a then e.penalty else 0
  }

  ghost predicate Conserved(ts: Traders, daily: Daily, penalties: int, a: Address) {
    var s := Row(ts, a);
    && TraderTotal(daily, Volume, a) == s.totalVolume
    && TraderTotal(daily, Trades, a) == s.totalTrades - s.liquidationCount
    && TraderTotal(daily, Pnl, a) == s.totalPnl + penalties
    && s.winCount + s.lossCount + s.liquidationCount == s.totalTrades
  }

  lemma WriteDaily(daily: Daily, k: DailyKey, s: DailyStats, f: DailyStats -> int, a: Address)
    ensures TraderTotal(daily[k := s], f, a) ==
            TraderTotal(daily, f, a) + (if k.0 == a then f(s) - (if k in daily then f(daily[k]) else 0) else 0)
  {
    var before := Class(Column(daily, f), KeyTrader, a);
    var after := Class(Column(daily[k := s], f), KeyTrader, a);
    if k.0 == a {
      assert after == before[k := f(s)];
      MapSumUpdate(before, k, f(s));
    } else {
      assert after == before;
    }
  }

  lemma AccumulateTotals(daily: Daily, user: Address, date: int, volume: Fixed, pnl: Fixed, a: Address)
    ensures var after := Accumulate(daily, user, date, volume, pnl, 0);
            if user == a
            then && TraderTotal(after, Volume, a) == TraderTotal(daily, Volume, a) + volume
                 && TraderTotal(after, Pnl, a) == TraderTotal(daily, Pnl, a) + pnl
                 && TraderTotal(after, Trades, a) == TraderTotal(daily, Trades, a) + 1
            else && TraderTotal(after, Volume, a) == TraderTotal(daily, Volume, a)
                 && TraderTotal(after, Pnl, a) == TraderTotal(daily, Pnl, a)
                 && TraderTotal(after, Trades, a) == TraderTotal(daily, Trades, a)
  {
    var k := (user, date);
    var s := Accumulate(daily, user, date, volume, pnl, 0)[k];
    WriteDaily(daily, k, s, Volume, a);
    WriteDaily(daily, k, s, Pnl, a);
    WriteDaily(daily, k, s, Trades, a);
  }

  /** What a close does to a trader's row. */
  lemma RowAfterClose(ts: Traders, ie: IndexedEvent, a: Address)
    requires ie.event.PositionClosed?
    ensures var e, s, s' := ie.event, Row(ts, a), Row(TradersAfterClose(ts, ie), a);
            if e.user != a then s' == s
            else && s'.totalVolume == s.totalVolume + e.closedSizeUsd && s'.totalPnl == s.totalPnl + e.realizedPnl
                 && s'.totalTrades == s.totalTrades + 1 && s'.liquidationCount == s.liquidationCount
                 && s'.winCount + s'.lossCount == s.winCount + s.lossCount + 1
                 && s'.openPositions == if e.isFullClose && s.openPositions > 0 then s.openPositions - 1 else s.openPositions
  {
  }

  lemma RowAfterLiquidation(ts: Traders, ie: IndexedEvent, a: Address)
    requires ie.event.Liquidation?
    ensures var e, s, s' := ie.event, Row(ts, a), Row(TradersAfterLiquidation(ts, ie), a);
            if e.user != a then s' == s
            else && s'.totalVolume == s.totalVolume && s'.totalPnl == s.totalPnl - e.penalty
                 && s'.totalTrades == s.totalTrades + 1 && s'.liquidationCount == s.liquidationCount + 1
                 && s'.winCount == s.winCount && s'.lossCount == s.lossCount
                 && s'.openPositions == if s.openPositions > 0 then s.openPositions - 1 else 0
  {
  }

  lemma ConservedClose(ts: Traders, daily: Daily, penalties: int, ie: IndexedEvent, a: Address)
    requires Conserved(ts, daily, penalties, a) && ie.event.PositionClosed?
    ensures Conserved(TradersAfterClose(ts, ie), NextDaily(daily, ie), penalties, a)
  {
    hide TradersAfterClose, Row, TraderTotal, Accumulate;
    var e := ie.event;
    AccumulateTotals(daily, e.user, CivilDate.TimestampToDate(ie.blockTimestamp), e.closedSizeUsd, e.realizedPnl, a);
    RowAfterClose(ts, ie, a);
  }

  lemma ConservedLiquidation(ts: Traders, daily: Daily, penalties: int, ie: IndexedEvent, a: Address)
    requires Conserved(ts, daily, penalties, a) && ie.event.Liquidation?
    ensures Conserved(TradersAfterLiquidation(ts, ie), daily,
                      penalties + (if ie.event.user == a then ie.event.penalty else 0), a)
  {
    hide TradersAfterLiquidation, Row, TraderTotal;
    RowAfterLiquidation(ts, ie, a);
  }

  lemma ConservedStep(ts: Traders, daily: Daily, penalties: int, ie: IndexedEvent, a: Address)
    requires Conserved(ts, daily, penalties, a)
    ensures Conserved(NextTraders(ts, ie), NextDaily(daily, ie),
                      penalties + (if ie.event.Liquidation? && ie.event.user == a then ie.event.penalty else 0), a)
  {
    hide TradersAfterClose, TradersAfterLiquidation, TraderTotal, Accumulate;
    match ie.event {
      case PositionClosed(_, _, _, _, _, _, _) => ConservedClose(ts, daily, penalties, ie, a);
      case Liquidation(_, _, _, _, _, _) => ConservedLiquidation(ts, daily, penalties, ie, a);
      case _ =>
    }
  }

  /** In every run from empty, each trader's daily volumes sum to the lifetime volume, daily trades
      to the lifetime trades without liquidations, daily pnl to the lifetime pnl plus all
      penalties, and wins, losses and liquidations partition the trades. */
  lemma {:induction false} StatsConserved(es: seq<IndexedEvent>, a: Address)
    ensures Conserved(Run(es).traders, Run(es).daily, Penalties(es, a), a)
  {
    hide LiveApply, NextTraders, NextDaily;
    if es == [] {
      assert Class(Column(map[], Volume), KeyTrader, a) == map[];
      assert Class(Column(map[], Trades), KeyTrader, a) == map[];
      assert Class(Column(map[], Pnl), KeyTrader, a) == map[];
    } else {
      var init, ie := es[..|es| - 1], es[|es| - 1];
      StatsConserved(init, a);
      StoreByStore(Run(init), ie);
      ConservedStep(Run(init).traders, Run(init).daily, Penalties(init, a), ie, a);
    }
  }

  /* ---------- more days than a snapshot keeps ---------- */

  /** One close of trader 10 on each of the first `n` days. */
  function Closes(n: nat): seq<IndexedEvent> {
    if n == 0 then []
    else Closes(n - 1) + [IndexedEvent(n, (n - 1) * 86400, 0, 0, 0, PositionClosed(1, 10, 0, 5, 7, 3, false))]
  }

  function DayOf(i: nat): int {
    CivilDate.TimestampToDate(i * 86400)
  }

  lemma DayAfter(i: nat)
    requires i < 2000
    ensures DayOf(i) < DayOf(i + 1)
  {
    CivilDate.YearBound(i);
    CivilDate.YearBound(i + 1);
    assert i * 86400 / 86400 == i && (i + 1) * 86400 / 86400 == i + 1;
    CivilDate.DatesGrow(i * 86400, (i + 1) * 86400);
  }

  lemma DatesOfClose(daily: Daily, date: int, volume: Fixed, pnl: Fixed, fee: Fixed)
    ensures Dates(Accumulate(daily, 10, date, volume, pnl, fee), 10) == Dates(daily, 10) + {date}
  {
    var after := Accumulate(daily, 10, date, volume, pnl, fee);
    forall d
      ensures d in Dates(after, 10) <==> d in Dates(daily, 10) || d == date
    {
      assert (10, d) in after <==> (10, d) in daily || d == date;
    }
  }

  /** Trader 10 has daily rows on the first `n` days. */
  ghost predicate DaysAre(ts: Traders, daily: Daily, n: nat) {
    && |Dates(daily, 10)| == n && (forall d :: d in Dates(daily, 10) ==> n > 0 && d <= DayOf(n - 1))
    && Keyed(ts, TraderKey) && Dated(daily) && (forall k :: k in daily ==> k.0 in ts)
    && (n > 0 ==> 10 in ts)
  }

  lemma DaysStep(ts: Traders, daily: Daily, n: nat, ie: IndexedEvent)
    requires n < 2000 && DaysAre(ts, daily, n)
    requires ie.event.PositionClosed? && ie.event.user == 10 && ie.blockTimestamp == n * 86400
    ensures DaysAre(NextTraders(ts, ie), NextDaily(daily, ie), n + 1)
  {
    hide NextTraders, Dates, Accumulate;
    Snapshots.InvStats(ts, daily, ie);
    ClosingTrader(ts, ie);
    DatesOfClose(daily, DayOf(n), ie.event.closedSizeUsd, ie.event.realizedPnl, 0);
    if n > 0 {
      DayAfter(n - 1);
    }
  }

  lemma {:induction false} DaysOfCloses(n: nat)
    requires n <= 2000
    ensures DaysAre(Run(Closes(n)).traders, Run(Closes(n)).daily, n)
  {
    if n == 0 {
      assert Dates(map[], 10) == {};
    } else {
      hide Run, LiveApply, NextTraders, NextDaily, DaysAre;
      DaysOfCloses(n - 1);
      var es, s := Closes(n), Run(Closes(n - 1));
      assert es[..|es| - 1] == Closes(n - 1);
      RunSnoc(es);
      StoreByStore(s, es[|es| - 1]);
      DaysStep(s.traders, s.daily, n - 1, es[|es| - 1]);
    }
  }

  lemma RunSnoc(es: seq<IndexedEvent>)
    requires es != []
    ensures Run(es) == LiveStep(Run(es[..|es| - 1]), es[|es| - 1])
  {
  }

  lemma ClosingTrader(ts: Traders, ie: IndexedEvent)
    requires ie.event.PositionClosed?
    ensures ie.event.user in NextTraders(ts, ie)
  {
  }

  /** After 1001 days of trading no snapshot gives all of the trader's days back. */
  lemma ThousandAndOneDays()
    ensures forall snap, addresses :: Snapshots.IsSnapshot(Run(Closes(1001)), snap, addresses) ==>
              Snapshots.Restore(snap).daily != Run(Closes(1001)).daily
  {
    hide Run, Closes, Dates;
    var s := Run(Closes(1001));
    DaysOfCloses(1001);
    forall snap, addresses | Snapshots.IsSnapshot(s, snap, addresses)
      ensures Snapshots.Restore(snap).daily != s.daily
    {
      DailyRoundTripIff(s.daily, addresses);
      assert 10 in addresses;
    }
  }

  /* ---------- balances ---------- */

  /** What an event moves on one (user, token) pair, with its sign. */
  datatype Move = In(amount: int) | Out(amount: int)

  function Flow(e: Event, user: Address, token: Address): Option<Move> {
    match e
    case CollateralDeposited(u, k, amount) => if u == user && k == token then Some(In(amount)) else None
    case CollateralWithdrawn(u, k, amount) => if u == user && k == token then Some(Out(-amount)) else None
    case _ => None
  }

  function Flows(es: seq<IndexedEvent>, user: Address, token: Address): seq<Move> {
    if es == [] then []
    else
      var f := Flow(es[|es| - 1].event, user, token);
      Flows(es[..|es| - 1], user, token) + if f.Some? then [f.value] else []
  }

  function Total(fs: seq<Move>): int {
    if fs == [] then 0 else Total(fs[..|fs| - 1]) + fs[|fs| - 1].amount
  }

  /** A moment at which the balance may have been pushed up to zero: behind a withdrawal, or at the
      very start, if the first move is a deposit. */
  predicate Clamped(fs: seq<Move>, k: int) {
    0 <= k <= |fs| && if k == 0 then fs != [] && fs[0].In? else fs[k - 1].Out?
  }

  /** The least prefix sum over those moments. */
  ghost function Floor(fs: seq<Move>): (least: int)
    requires fs != []
    ensures forall k :: Clamped(fs, k) ==> least <= Total(fs[..k])
    ensures exists k :: Clamped(fs, k) && least == Total(fs[..k])
  {
    var init := fs[..|fs| - 1];
    assert fs[..|fs|] == fs && fs[..0] == [];
    if init == [] then
      if fs[0].In? then assert Clamped(fs, 0); 0 else assert Clamped(fs, 1); Total(fs)
    else
      var before := Floor(init);
      assert forall k :: 0 <= k <= |init| ==> init[..k] == fs[..k] && (Clamped(init, k) <==> Clamped(fs, k));
      if fs[|fs| - 1].Out? && Total(fs) < before then
        assert Clamped(fs, |fs|);
        Total(fs)
      else
        var k :| Clamped(init, k) && before == Total(init[..k]);
        assert Clamped(fs, k) && before == Total(fs[..k]);
        before
  }

  /** The balance the moves `fs` leave behind, if there are any. */
  ghost function Settled(fs: seq<Move>, user: Address, token: Address): Option<Balance> {
    if fs == [] then None
    else Some(Balance(user, token, Total(fs) - Floor(fs), 0, Total(fs) - Floor(fs)))
  }

  lemma SettledFirst(f: Move)
    ensures Total([f]) == f.amount && Floor([f]) == if f.In? then 0 else f.amount
  {
    assert [f][..0] == [] && [f][..1] == [f];
    assert Clamped([f], if f.In? then 0 else 1);
  }

  lemma FloorSnoc(fs: seq<Move>, f: Move)
    requires fs != []
    ensures Total(fs + [f]) == Total(fs) + f.amount
    ensures Floor(fs + [f]) == if f.Out? && Total(fs) + f.amount < Floor(fs) then Total(fs) + f.amount else Floor(fs)
  {
    assert (fs + [f])[..|fs|] == fs;
  }

  lemma SettledStep(b: Balances, ie: IndexedEvent, fs: seq<Move>, user: Address, token: Address)
    requires b.Get(user, token) == Settled(fs, user, token)
    ensures var f := Flow(ie.event, user, token);
            NextBalances(b, ie).Get(user, token)
            == Settled(if f.Some? then fs + [f.value] else fs, user, token)
  {
    hide Total, Floor;
    var f := Flow(ie.event, user, token);
    if f.Some? {
      if fs == [] {
        SettledFirst(f.value);
        assert fs + [f.value] == [f.value];
      } else {
        FloorSnoc(fs, f.value);
      }
    }
  }

  /** Every run leaves each pair at the sum of its moves minus the least prefix sum at a clamped
      moment, whatever the signs of the amounts.  Nothing is locked, everything is available, and
      the pair has an entry exactly when some move touched it. */
  lemma {:induction false} BalanceClosedForm(es: seq<IndexedEvent>, user: Address, token: Address)
    ensures Run(es).balances.Get(user, token) == Settled(Flows(es, user, token), user, token)
  {
    hide LiveApply, NextBalances;
    if es != [] {
      var init, ie := es[..|es| - 1], es[|es| - 1];
      BalanceClosedForm(init, user, token);
      StoreByStore(Run(init), ie);
      var before, f := Flows(init, user, token), Flow(ie.event, user, token);
      SettledStep(Run(init).balances, ie, before, user, token);
      assert Flows(es, user, token) == if f.Some? then before + [f.value] else before;
    }
  }

  /** Deposits and withdrawals are never negative. */
  predicate Proper(fs: seq<Move>) {
    forall i :: 0 <= i < |fs| ==> if fs[i].In? then fs[i].amount >= 0 else fs[i].amount <= 0
  }

  /** The least prefix sum of all, the empty prefix included. */
  ghost predicate IsLeastPrefix(fs: seq<Move>, least: int) {
    && (forall k :: 0 <= k <= |fs| ==> least <= Total(fs[..k]))
    && (exists k :: 0 <= k <= |fs| && least == Total(fs[..k]))
  }

  lemma PrefixStep(fs: seq<Move>, k: nat)
    requires k < |fs|
    ensures Total(fs[..k + 1]) == Total(fs[..k]) + fs[k].amount
  {
    assert fs[..k + 1][..k] == fs[..k];
  }

  lemma {:induction false} ProperFloor(fs: seq<Move>, k: nat)
    requires fs != [] && Proper(fs) && k <= |fs|
    ensures Floor(fs) <= Total(fs[..k])
  {
    if k == 0 {
      if fs[0].In? {
        assert Clamped(fs, 0);
      } else {
        assert Clamped(fs, 1);
        PrefixStep(fs, 0);
      }
    } else {
      PrefixStep(fs, k - 1);
      ProperFloor(fs, k - 1);
      if fs[k - 1].Out? {
        assert Clamped(fs, k);
      }
    }
  }

  /** With non-negative amounts that is the least of all prefix sums: clamped withdrawals forgive
      exactly the deepest overdraft. */
  lemma ProperBalance(es: seq<IndexedEvent>, user: Address, token: Address)
    requires Proper(Flows(es, user, token)) && Flows(es, user, token) != []
    ensures var fs, b := Flows(es, user, token), Run(es).balances.Get(user, token);
            && b.Some? && b.value.amount == b.value.available && b.value.locked == 0
            && IsLeastPrefix(fs, Total(fs) - b.value.amount)
  {
    hide Run;
    var fs := Flows(es, user, token);
    BalanceClosedForm(es, user, token);
    forall k | 0 <= k <= |fs|
      ensures Floor(fs) <= Total(fs[..k])
    {
      ProperFloor(fs, k);
    }
    var k :| Clamped(fs, k) && Floor(fs) == Total(fs[..k]);
  }

  /** The user's token index lists exactly the tokens some move touched. */
  lemma {:induction false} TokenIndex(es: seq<IndexedEvent>, user: Address, token: Address)
    ensures token in Index.Lookup(Run(es).balances.tokens, user) <==> Flows(es, user, token) != []
  {
    BalancesConsistent(es);
    BalanceClosedForm(es, user, token);
  }

  lemma {:induction false} BalancesConsistent(es: seq<IndexedEvent>)
    ensures Run(es).balances.Consistent()
  {
    hide LiveApply, NextBalances;
    if es != [] {
      BalancesConsistent(es[..|es| - 1]);
      StoreByStore(Run(es[..|es| - 1]), es[|es| - 1]);
      Snapshots.InvBalances(Run(es[..|es| - 1]).balances, es[|es| - 1]);
    }
  }

  /* ---------- open interest ---------- */

  /** What a position adds to one side of one market. */
  function Contribution(p: Position, m: nat, isLong: bool): int {
    if p.status == Open && p.market == m && p.isLong == isLong then p.sizeUsd else 0
  }

  function Contributions(rows: map<Hash, Position>, m: nat, isLong: bool): map<Hash, int> {
    map id | id in rows :: Contribution(rows[id], m, isLong)
  }

  /** The sizes of the open positions of one side of one market, by a scan. */
  ghost function OpenSize(rows: map<Hash, Position>, m: nat, isLong: bool): int {
    MapSum(Contributions(rows, m, isLong))
  }

  lemma OpenSizeWrite(rows: map<Hash, Position>, id: Hash, p: Position, m: nat, isLong: bool)
    ensures OpenSize(rows[id := p], m, isLong) ==
            OpenSize(rows, m, isLong) + Contribution(p, m, isLong)
            - (if id in rows then Contribution(rows[id], m, isLong) else 0)
  {
    var column := Contributions(rows, m, isLong);
    var rows' := rows[id := p];
    assert Contributions(rows', m, isLong) == column[id := Contribution(p, m, isLong)];
    MapSumUpdate(column, id, Contribution(p, m, isLong));
  }

  ghost predicate OiMatches(s: State) {
    |s.markets| == MARKET_COUNT
    && forall m, isLong :: 0 <= m < MARKET_COUNT ==> Oi(s.markets[m], isLong) == OpenSize(s.positions.rows, m, isLong)
  }

  /** The size a position weighs with in the known markets. */
  function Weight(p: Position): int {
    if p.status == Open && p.market < MARKET_COUNT then p.sizeUsd else 0
  }

  /** What a close takes off the open-interest counter, and off the scanned sizes. */
  function TakenOff(e: Event): int
    requires e.PositionClosed?
  {
    if e.market < MARKET_COUNT then e.closedSizeUsd else 0
  }

  function SizeLost(e: Event, p: Position): int
    requires e.PositionClosed?
  {
    if p.status == Open && p.market < MARKET_COUNT then (if e.isFullClose then p.sizeUsd else e.closedSizeUsd) else 0
  }

  /** The event keeps open interest equal to the open sizes.  Openings must not overwrite open
      size, a close must take off what the position loses, in its own market (a full close its
      exact size), a modification must not change an open size, and a liquidation must not hit an
      open position that has any. */
  predicate OiGuard(rows: map<Hash, Position>, e: Event) {
    match e
    case PositionOpened(id, _, _, _, _, _, _, _, _) => id in rows ==> Weight(rows[id]) == 0
    case PositionClosed(id, _, market, _, _, _, _) =>
      id in rows ==> TakenOff(e) == SizeLost(e, rows[id]) && (TakenOff(e) != 0 ==> market == rows[id].market)
    case PositionModified(id, newSize, _, _) =>
      id in rows && rows[id].status == Open && rows[id].market < MARKET_COUNT ==> newSize == rows[id].sizeUsd
    case Liquidation(id, _, _, _, _, _) => id in rows ==> Weight(rows[id]) == 0
    case _ => true
  }

  /** Open interest and open size of one side after one event. */
  lemma OiOpened(s: State, ie: IndexedEvent)
    requires ie.event.PositionOpened? && OiMatches(s)
    ensures OiMatches(LiveOpened(s, ie)) <==> OiGuard(s.positions.rows, ie.event)
  {
    var e, rows, t := ie.event, s.positions.rows, LiveOpened(s, ie);
    forall m, isLong | 0 <= m < MARKET_COUNT
      ensures Oi(t.markets[m], isLong) - OpenSize(t.positions.rows, m, isLong)
              == if e.positionId in rows then Contribution(rows[e.positionId], m, isLong) else 0
    {
      OpenSizeWrite(rows, e.positionId, NewPosition(ie, e.entryPrice), m, isLong);
    }
    if e.positionId in rows && Weight(rows[e.positionId]) != 0 {
      var p := rows[e.positionId];
      assert Contribution(p, p.market, p.isLong) != 0;
    }
  }

  lemma OiClosed(s: State, ie: IndexedEvent)
    requires ie.event.PositionClosed? && OiMatches(s)
    ensures OiMatches(LiveClosed(s, ie)) <==> OiGuard(s.positions.rows, ie.event)
  {
    hide OpenSize, TradersAfterClose, Accumulate;
    var e, rows, t := ie.event, s.positions.rows, LiveClosed(s, ie);
    if e.positionId in rows {
      var p := rows[e.positionId];
      forall m, isLong | 0 <= m < MARKET_COUNT
        ensures Oi(t.markets[m], isLong) - OpenSize(t.positions.rows, m, isLong)
                == (if isLong == p.isLong && m == p.market then SizeLost(e, p) else 0)
                   - (if isLong == p.isLong && m == e.market then e.closedSizeUsd else 0)
      {
        OpenSizeWrite(rows, e.positionId, CloseLive(ie, p), m, isLong);
      }
      if !OiGuard(rows, e) {
        var m := if TakenOff(e) != 0 then e.market else p.market;
        assert 0 <= m < MARKET_COUNT;
        assert Oi(t.markets[m], p.isLong) != OpenSize(t.positions.rows, m, p.isLong);
      }
    }
  }

  lemma OiLiquidated(s: State, ie: IndexedEvent)
    requires ie.event.Liquidation? && OiMatches(s)
    ensures OiMatches(LiveLiquidated(s, ie)) <==> OiGuard(s.positions.rows, ie.event)
  {
    var e, rows, t := ie.event, s.positions.rows, LiveLiquidated(s, ie);
    if e.positionId in rows {
      var p := rows[e.positionId];
      forall m, isLong | 0 <= m < MARKET_COUNT
        ensures Oi(t.markets[m], isLong) - OpenSize(t.positions.rows, m, isLong) == Contribution(p, m, isLong)
      {
        OpenSizeWrite(rows, e.positionId, LiquidateLive(ie, p), m, isLong);
      }
      if Weight(p) != 0 {
        assert Contribution(p, p.market, p.isLong) != 0;
      }
    }
  }

  lemma OiModified(s: State, e: Event)
    requires e.PositionModified? && OiMatches(s)
    ensures OiMatches(LiveModified(s, e)) <==> OiGuard(s.positions.rows, e)
  {
    var rows, t := s.positions.rows, LiveModified(s, e);
    if e.positionId in rows {
      var p := rows[e.positionId];
      forall m, isLong | 0 <= m < MARKET_COUNT
        ensures Oi(t.markets[m], isLong) - OpenSize(t.positions.rows, m, isLong)
                == Contribution(p, m, isLong) - Contribution(Modified(e, p), m, isLong)
      {
        OpenSizeWrite(rows, e.positionId, Modified(e, p), m, isLong);
      }
      if !OiGuard(rows, e) {
        assert Contribution(p, p.market, p.isLong) != Contribution(Modified(e, p), p.market, p.isLong);
      }
    }
  }

  lemma OiOther(s: State, ie: IndexedEvent)
    requires !ie.event.PositionOpened? && !ie.event.PositionClosed? && !ie.event.Liquidation? && !ie.event.PositionModified?
    requires OiMatches(s)
    ensures OiMatches(LiveStep(s, ie))
  {
    hide LiveApply;
    StoreByStore(s, ie);
    var ms := NextMarkets(s.markets, s.positions, ie);
    assert |ms| == |s.markets|;
    forall m, isLong | 0 <= m < MARKET_COUNT
      ensures Oi(ms[m], isLong) == Oi(s.markets[m], isLong)
    {
    }
  }

  /** One event keeps open interest equal to the open sizes exactly when it passes the guard. */
  lemma OiStepIff(s: State, ie: IndexedEvent)
    requires OiMatches(s)
    ensures OiMatches(LiveStep(s, ie)) <==> OiGuard(s.positions.rows, ie.event)
  {
    match ie.event {
      case PositionOpened(_, _, _, _, _, _, _, _, _) => OiOpened(s, ie);
      case PositionClosed(_, _, _, _, _, _, _) => OiClosed(s, ie);
      case Liquidation(_, _, _, _, _, _) => OiLiquidated(s, ie);
      case PositionModified(_, _, _, _) => OiModified(s, ie.event);
      case _ => OiOther(s, ie);
    }
  }

  lemma OiEmpty()
    ensures OiMatches(Empty())
  {
    forall m, isLong | 0 <= m < MARKET_COUNT
      ensures OpenSize(Empty().positions.rows, m, isLong) == 0
    {
      assert Contributions(Empty().positions.rows, m, isLong).Keys == {};
    }
  }

  lemma RunPrefix(es: seq<IndexedEvent>, k: nat)
    requires k < |es|
    ensures Run(es[..k + 1]) == LiveStep(Run(es[..k]), es[k])
  {
    assert es[..k + 1][..k] == es[..k];
  }

  ghost predicate OiAt(es: seq<IndexedEvent>, k: nat) {
    k <= |es| && OiMatches(Run(es[..k]))
  }

  predicate OiGuardAt(es: seq<IndexedEvent>, k: nat) {
    k < |es| && OiGuard(Run(es[..k]).positions.rows, es[k].event)
  }

  lemma OiPrefixIff(es: seq<IndexedEvent>, k: nat)
    requires k < |es| && OiAt(es, k)
    ensures OiAt(es, k + 1) <==> OiGuardAt(es, k)
  {
    RunPrefix(es, k);
    OiStepIff(Run(es[..k]), es[k]);
  }

  /** Throughout a run each market's long and short open interest equals the sizes of its open
      positions on that side, if and only if every event of the run passes the guard. */
  lemma OpenInterestIff(es: seq<IndexedEvent>)
    ensures (forall k: nat :: k <= |es| ==> OiAt(es, k)) <==> (forall k: nat :: k < |es| ==> OiGuardAt(es, k))
  {
    assert es[..0] == [];
    OiEmpty();
    forall k: nat | k < |es| && OiAt(es, k)
      ensures OiAt(es, k + 1) <==> OiGuardAt(es, k)
    {
      OiPrefixIff(es, k);
    }
    var holds, guard := (k: nat) => OiAt(es, k), (k: nat) => OiGuardAt(es, k);
    ThroughoutIff(holds, guard, |es|);
    assert forall k: nat :: holds(k) == OiAt(es, k) && guard(k) == OiGuardAt(es, k);
  }

  /** Open a long of 1000 in market 0, then liquidate it. */
  function OpenedAndLiquidated(): seq<IndexedEvent> {
    [IndexedEvent(1, 0, 0, 0, 0, PositionOpened(1, 10, 0, true, 1000, 10, 67000, 20, 100)),
     IndexedEvent(2, 0, 0, 0, 0, Liquidation(1, 10, 0, 60000, 5, 30))]
  }

  /** After the liquidation no long is open in market 0, yet its long open interest is still 1000. */
  lemma LiquidationDrifts()
    ensures var s := Run(OpenedAndLiquidated());
            |s.markets| == MARKET_COUNT && OpenSize(s.positions.rows, 0, true) == 0 && Oi(s.markets[0], true) == 1000
  {
    hide OpenSize, Run;
    var es := OpenedAndLiquidated();
    RunOfTwo(es[0], es[1]);
    assert es == [es[0], es[1]];
    OiEmpty();
    OiStepIff(Empty(), es[0]);
    OpenedLong(es[0]);
    LiquidatedSize(LiveStep(Empty(), es[0]), es[1]);
  }

  lemma RunOfTwo(a: IndexedEvent, b: IndexedEvent)
    ensures Run([a, b]) == LiveStep(LiveStep(Empty(), a), b)
  {
    assert [a, b][..1] == [a] && [a][..0] == [];
    assert Run([]) == Empty();
    assert Run([a]) == LiveStep(Empty(), a);
  }

  lemma OpenedLong(ie: IndexedEvent)
    requires ie.event.PositionOpened? && ie.event.isLong && ie.event.market == 0
    ensures var e, s := ie.event, LiveStep(Empty(), ie);
            && |s.markets| == MARKET_COUNT && Oi(s.markets[0], true) == e.sizeUsd
            && e.positionId in s.positions.rows
            && var p := s.positions.rows[e.positionId];
               p.market == 0 && p.isLong && Contribution(p, 0, true) == e.sizeUsd
  {
  }

  lemma LiquidatedSize(s: State, ie: IndexedEvent)
    requires ie.event.Liquidation? && ie.event.positionId in s.positions.rows
    ensures var p, t := s.positions.rows[ie.event.positionId], LiveStep(s, ie);
            && t.markets == s.markets
            && OpenSize(t.positions.rows, p.market, p.isLong)
               == OpenSize(s.positions.rows, p.market, p.isLong) - Contribution(p, p.market, p.isLong)
  {
    hide OpenSize;
    var p := s.positions.rows[ie.event.positionId];
    OpenSizeWrite(s.positions.rows, ie.event.positionId, LiquidateLive(ie, p), p.market, p.isLong);
  }

  /* ---------- the open-position counter ---------- */

  ghost predicate CountersMatch(ts: Traders, t: Positions) {
    forall u :: Row(ts, u).openPositions == |t.OpenScan(u)|
  }

  predicate IsOpen(t: Positions, id: Hash) {
    id in t.rows && t.rows[id].status == Open
  }

  /** The event ends a position: a full close or a liquidation. */
  predicate Ends(e: Event) {
    (e.PositionClosed? && e.isFullClose) || e.Liquidation?
  }

  /** The event keeps the counters.  An opening must not overwrite an open position; what ends must
      be open and belong to the named trader, or else the trader has nothing open at all (where the
      saturating subtraction hides the mistake). */
  predicate CounterGuard(t: Positions, e: Event) {
    && (e.PositionOpened? ==> !IsOpen(t, e.positionId))
    && (Ends(e) ==> if IsOpen(t, e.positionId) then t.rows[e.positionId].user == e.user
                    else t.OpenScan(e.user) == {})
  }

  lemma OpenScanWrite(t: Positions, rows: map<Hash, Position>, id: Hash, p: Position, u: Address)
    requires rows == t.rows[id := p]
    ensures var before, after := t.OpenScan(u), t.(rows := rows).OpenScan(u);
            |after| == |before| + (if p.status == Open && p.user == u then 1 else 0)
                                - (if IsOpen(t, id) && t.rows[id].user == u then 1 else 0)
  {
    var before, after := t.OpenScan(u), t.(rows := rows).OpenScan(u);
    assert after - {id} == before - {id};
    SizeChange(before, after, id);
  }

  lemma RowAfterOpening(ts: Traders, user: Address, u: Address)
    ensures Row(IncrementOpen(WithTrader(ts, user), user), u).openPositions
            == Row(ts, u).openPositions + if user == u then 1 else 0
  {
  }

  lemma CounterOpened(ts: Traders, t: Positions, ie: IndexedEvent)
    requires ie.event.PositionOpened? && CountersMatch(ts, t)
    ensures CountersMatch(NextTraders(ts, ie), NextPositions(t, ie)) <==> CounterGuard(t, ie.event)
  {
    hide IncrementOpen, WithTrader, Row;
    var e := ie.event;
    var ts', t' := NextTraders(ts, ie), NextPositions(t, ie);
    forall u
      ensures Row(ts', u).openPositions - |t'.OpenScan(u)|
              == if IsOpen(t, e.positionId) && t.rows[e.positionId].user == u then 1 else 0
    {
      OpenScanWrite(t, t'.rows, e.positionId, NewPosition(ie, e.entryPrice), u);
      assert t'.OpenScan(u) == t.(rows := t'.rows).OpenScan(u);
      assert Row(ts, u).openPositions == |t.OpenScan(u)|;
      RowAfterOpening(ts, e.user, u);
    }
    if IsOpen(t, e.positionId) {
      var u := t.rows[e.positionId].user;
      assert Row(ts', u).openPositions != |t'.OpenScan(u)|;
    }
  }

  /** Closing, liquidating or modifying rewrites at most one row and never reopens it. */
  lemma CounterUpdated(ts: Traders, t: Positions, ie: IndexedEvent, p: Position)
    requires !ie.event.PositionOpened? && CountersMatch(ts, t)
    requires ie.event.PositionClosed? || ie.event.Liquidation?
    requires ie.event.positionId in t.rows && NextPositions(t, ie) == t.(rows := t.rows[ie.event.positionId := p])
    requires p.user == t.rows[ie.event.positionId].user
    requires p.status == if Ends(ie.event) then p.status else t.rows[ie.event.positionId].status
    requires Ends(ie.event) ==> p.status != Open
    ensures CountersMatch(NextTraders(ts, ie), NextPositions(t, ie)) <==> CounterGuard(t, ie.event)
  {
    hide TradersAfterClose, TradersAfterLiquidation, Row;
    var e := ie.event;
    var id := e.positionId;
    var ts', t' := NextTraders(ts, ie), NextPositions(t, ie);
    forall u
      ensures |t'.OpenScan(u)| == |t.OpenScan(u)| - (if Ends(e) && IsOpen(t, id) && t.rows[id].user == u then 1 else 0)
      ensures Row(ts', u).openPositions ==
              if Ends(e) && e.user == u && |t.OpenScan(u)| > 0 then |t.OpenScan(u)| - 1 else |t.OpenScan(u)|
    {
      OpenScanWrite(t, t'.rows, id, p, u);
      assert Row(ts, u).openPositions == |t.OpenScan(u)|;
      if e.Liquidation? {
        RowAfterLiquidation(ts, ie, u);
      } else {
        RowAfterClose(ts, ie, u);
      }
    }
    if Ends(e) && !CounterGuard(t, e) {
      var u := if IsOpen(t, id) then t.rows[id].user else e.user;
      if IsOpen(t, id) {
        assert id in t.OpenScan(u);
      }
      assert Row(ts', u).openPositions != |t'.OpenScan(u)|;
    } else if Ends(e) && IsOpen(t, id) {
      assert id in t.OpenScan(e.user);
    }
  }

  /** The event names a position that does not exist: only the counter may move. */
  lemma CounterMissing(ts: Traders, t: Positions, ie: IndexedEvent)
    requires CountersMatch(ts, t)
    requires ie.event.PositionClosed? || ie.event.Liquidation?
    requires ie.event.positionId !in t.rows
    ensures CountersMatch(NextTraders(ts, ie), NextPositions(t, ie)) <==> CounterGuard(t, ie.event)
  {
    hide TradersAfterClose, TradersAfterLiquidation, Row;
    var e := ie.event;
    var ts' := NextTraders(ts, ie);
    forall u
      ensures Row(ts', u).openPositions ==
              if Ends(e) && e.user == u && |t.OpenScan(u)| > 0 then |t.OpenScan(u)| - 1 else |t.OpenScan(u)|
    {
      assert Row(ts, u).openPositions == |t.OpenScan(u)|;
      if e.Liquidation? {
        RowAfterLiquidation(ts, ie, u);
      } else {
        RowAfterClose(ts, ie, u);
      }
    }
    if Ends(e) && t.OpenScan(e.user) != {} {
      assert Row(ts', e.user).openPositions != |t.OpenScan(e.user)|;
    }
  }

  lemma CounterModified(ts: Traders, t: Positions, ie: IndexedEvent)
    requires ie.event.PositionModified? && CountersMatch(ts, t)
    ensures CountersMatch(NextTraders(ts, ie), NextPositions(t, ie))
  {
    var t' := NextPositions(t, ie);
    forall u
      ensures t'.OpenScan(u) == t.OpenScan(u)
    {
    }
    forall u
      ensures Row(ts, u).openPositions == |t'.OpenScan(u)|
    {
      assert Row(ts, u).openPositions == |t.OpenScan(u)|;
    }
  }

  /** One event keeps every trader's `open_positions` equal to the number of that trader's open
      positions exactly when it passes the guard. */
  lemma CounterStepIff(ts: Traders, t: Positions, ie: IndexedEvent)
    requires CountersMatch(ts, t)
    ensures CountersMatch(NextTraders(ts, ie), NextPositions(t, ie)) <==> CounterGuard(t, ie.event)
  {
    match ie.event {
      case PositionOpened(_, _, _, _, _, _, _, _, _) => CounterOpened(ts, t, ie);
      case PositionClosed(id, _, _, _, _, _, _) =>
        if id in t.rows {
          CounterUpdated(ts, t, ie, CloseLive(ie, t.rows[id]));
        } else {
          CounterMissing(ts, t, ie);
        }
      case Liquidation(id, _, _, _, _, _) =>
        if id in t.rows {
          CounterUpdated(ts, t, ie, LiquidateLive(ie, t.rows[id]));
        } else {
          CounterMissing(ts, t, ie);
        }
      case PositionModified(_, _, _, _) => CounterModified(ts, t, ie);
      case _ =>
    }
  }

  ghost predicate CountersAt(es: seq<IndexedEvent>, k: nat) {
    k <= |es| && CountersMatch(Run(es[..k]).traders, Run(es[..k]).positions)
  }

  predicate CounterGuardAt(es: seq<IndexedEvent>, k: nat) {
    k < |es| && CounterGuard(Run(es[..k]).positions, es[k].event)
  }

  lemma CounterPrefixIff(es: seq<IndexedEvent>, k: nat)
    requires k < |es| && CountersAt(es, k)
    ensures CountersAt(es, k + 1) <==> CounterGuardAt(es, k)
  {
    hide LiveApply, NextPositions, NextTraders;
    RunPrefix(es, k);
    var s := Run(es[..k]);
    StoreByStore(s, es[k]);
    CounterStepIff(s.traders, s.positions, es[k]);
  }

  /** Throughout a run every trader's counter equals the number of that trader's open positions,
      if and only if every event of the run passes the guard. */
  lemma OpenCounterIff(es: seq<IndexedEvent>)
    ensures (forall k: nat :: k <= |es| ==> CountersAt(es, k)) <==> (forall k: nat :: k < |es| ==> CounterGuardAt(es, k))
  {
    assert es[..0] == [];
    assert forall u :: NO_POSITIONS.OpenScan(u) == {};
    forall k: nat | k < |es| && CountersAt(es, k)
      ensures CountersAt(es, k + 1) <==> CounterGuardAt(es, k)
    {
      CounterPrefixIff(es, k);
    }
    var holds, guard := (k: nat) => CountersAt(es, k), (k: nat) => CounterGuardAt(es, k);
    ThroughoutIff(holds, guard, |es|);
    assert forall k: nat :: holds(k) == CountersAt(es, k) && guard(k) == CounterGuardAt(es, k);
  }

  /** In such a run an event that ends an open position never meets a counter at zero: the
      saturating subtraction does not saturate. */
  lemma NeverSaturates(es: seq<IndexedEvent>, k: nat)
    requires forall j: nat :: j < |es| ==> CounterGuardAt(es, j)
    requires k < |es| && Ends(es[k].event) && IsOpen(Run(es[..k]).positions, es[k].event.positionId)
    ensures Row(Run(es[..k]).traders, es[k].event.user).openPositions > 0
  {
    hide Run;
    OpenCounterIff(es);
    assert CountersAt(es, k) && CounterGuardAt(es, k);
    var t, e := Run(es[..k]).positions, es[k].event;
    assert e.positionId in t.OpenScan(e.user);
  }

  lemma {:induction false} PositionsConsistent(es: seq<IndexedEvent>)
    requires forall k :: 0 <= k < |es| ==> Snapshots.FreshIds(Run(es[..k]), es[k])
    ensures Run(es).positions.Consistent()
  {
    hide LiveApply, NextPositions;
    if es != [] {
      var init := es[..|es| - 1];
      forall k | 0 <= k < |init|
        ensures Snapshots.FreshIds(Run(init[..k]), init[k])
      {
        assert init[..k] == es[..k] && init[k] == es[k];
      }
      PositionsConsistent(init);
      assert es[..|es| - 1] == init;
      StoreByStore(Run(init), es[|es| - 1]);
      Snapshots.InvPositions(Run(init).positions, es[|es| - 1]);
    }
  }

  /** With fresh ids and guarded ends, the counter a trader shows is the length of the trader's
      open-position list as the user index returns it. */
  lemma CounterIsListLength(es: seq<IndexedEvent>, user: Address)
    requires forall k :: 0 <= k < |es| ==> Snapshots.FreshIds(Run(es[..k]), es[k])
    requires forall k: nat :: k < |es| ==> CounterGuardAt(es, k)
    ensures Row(Run(es).traders, user).openPositions == |Run(es).positions.OpenByUser(user)|
  {
    PositionsConsistent(es);
    OpenCounterIff(es);
    assert CountersAt(es, |es|);
    assert es[..|es|] == es;
    OpenByUserIsScan(Run(es).positions, user);
  }
}
