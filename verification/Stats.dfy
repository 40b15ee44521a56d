/** Trader and daily statistics of `src/aggregation/stats.rs`. */
module StatsStore {
  import opened Collections
  import opened Types

  type Traders = map<Address, TraderStats>

  function TraderKey(s: TraderStats): Address { s.address }

  function FreshStats(address: Address): TraderStats {
    TraderStats(address, 0, 0, 0, 0, 0, 0, 0, 0, 0, 0, 0, 0, 0, 0, 0, None, None)
  }

  function WithTrader(ts: Traders, address: Address): Traders {
    if address in ts then ts else ts[address := FreshStats(address)]
  }

  function Traded(s: TraderStats, volume: Fixed, pnl: Fixed, fee: Fixed, isWin: bool, isLiquidation: bool,
                  timestamp: nat): TraderStats {
    s.(totalTrades := s.totalTrades + 1,
       totalVolume := s.totalVolume + volume,
       totalPnl := s.totalPnl + pnl,
       totalFeesPaid := s.totalFeesPaid + fee,
       winCount := if isWin then s.winCount + 1 else s.winCount,
       lossCount := if !isWin && !isLiquidation then s.lossCount + 1 else s.lossCount,
       liquidationCount := if isLiquidation then s.liquidationCount + 1 else s.liquidationCount,
       bestTradePnl := if pnl > s.bestTradePnl then pnl else s.bestTradePnl,
       worstTradePnl := if pnl < s.worstTradePnl then pnl else s.worstTradePnl,
       firstTradeAt := if s.firstTradeAt.None? then Some(timestamp) else s.firstTradeAt,
       lastTradeAt := Some(timestamp))
  }

  function WithTrade(ts: Traders, address: Address, volume: Fixed, pnl: Fixed, fee: Fixed,
                     isWin: bool, isLiquidation: bool, timestamp: nat): Traders {
    if address in ts
    then ts[address := Traded(ts[address], volume, pnl, fee, isWin, isLiquidation, timestamp)]
    else ts
  }

  function IncrementOpen(ts: Traders, address: Address): Traders {
    if address !in ts then ts
    else var s := ts[address];
         ts[address := s.(totalPositions := s.totalPositions + 1, openPositions := s.openPositions + 1)]
  }

  /** `saturating_sub(1)`. */
  function DecrementOpen(ts: Traders, address: Address): Traders {
    if address !in ts then ts
    else var s := ts[address];
         ts[address := s.(openPositions := if s.openPositions == 0 then 0 else s.openPositions - 1)]
  }

  type DailyKey = (Address, int)
  type Daily = map<DailyKey, DailyStats>

  function Accumulate(daily: Daily, address: Address, date: int, volume: Fixed, pnl: Fixed, fee: Fixed): Daily {
    daily[(address, date) :=
            if (address, date) in daily
            then var s := daily[(address, date)];
                 s.(volume := s.volume + volume, pnl := s.pnl + pnl, trades := s.trades + 1, fees := s.fees + fee)
            else DailyStats(date, pnl, volume, 1, fee)]
  }

  /** Every row carries the date it is filed under. */
  ghost predicate Dated(daily: Daily) {
    forall k :: k in daily ==> daily[k].date == k.1
  }

  /* ---------- the per-trader history and its snapshot ---------- */

  function Dates(daily: Daily, address: Address): set<int> {
    set k | k in daily && k.0 == address :: k.1
  }

  function Newest(daily: Daily, address: Address, limit: nat): (dates: seq<int>)
    ensures forall d :: d in dates ==> d in Dates(daily, address)
  {
    var all := Reverse(Ascending(Dates(daily, address)));
    assert forall i :: 0 <= i < |all| ==> all[i] in Ascending(Dates(daily, address));
    if limit < |all| then all[..limit] else all
  }

  /** `trader_daily_history`: the trader's rows, newest first, at most `limit`. */
  function History(daily: Daily, address: Address, limit: nat): seq<DailyStats> {
    var dates := Newest(daily, address, limit);
    seq(|dates|, i requires 0 <= i < |dates| => assert dates[i] in dates; daily[(address, dates[i])])
  }

  /** Newest first, as many as asked for and there are, and none left out is newer than one listed. */
  lemma NewestAreNewest(daily: Daily, address: Address, limit: nat)
    ensures var dates, all := Newest(daily, address, limit), Dates(daily, address);
            && |dates| == (if limit < |all| then limit else |all|)
            && (forall i, j :: 0 <= i < j < |dates| ==> dates[i] > dates[j])
            && (forall d, i :: d in all && d !in dates && 0 <= i < |dates| ==> dates[i] > d)
            && (forall i :: 0 <= i < |dates| ==>
                  dates[i] in all && History(daily, address, limit)[i] == daily[(address, dates[i])])
  {
    hide Ascending;
    var up := Ascending(Dates(daily, address));
    var down, dates := Reverse(up), Newest(daily, address, limit);
    assert forall x :: 0 <= x < |dates| ==> dates[x] == down[x] && down[x] in dates;
    forall d, i | d in Dates(daily, address) && d !in dates && 0 <= i < |dates|
      ensures dates[i] > d
    {
      var j :| 0 <= j < |up| && up[j] == d;
      assert down[|up| - 1 - j] == d;
      assert |up| - 1 - j >= |dates|;
    }
  }

  const SNAPSHOT_DAYS := 1000

  datatype DailyEntry = DailyEntry(address: Address, stats: DailyStats)

  /** What a snapshot keeps of one trader's days: the newest thousand rows. */
  function TraderEntries(daily: Daily, address: Address): seq<DailyEntry> {
    var rows := History(daily, address, SNAPSHOT_DAYS);
    seq(|rows|, i requires 0 <= i < |rows| => DailyEntry(address, rows[i]))
  }

  /** The daily rows a snapshot takes, trader by trader. */
  function SnapshotDaily(daily: Daily, addresses: seq<Address>): seq<DailyEntry>
    decreases |addresses|
  {
    if addresses == [] then []
    else SnapshotDaily(daily, addresses[..|addresses| - 1]) + TraderEntries(daily, addresses[|addresses| - 1])
  }

  lemma SnapshotDailySnoc(daily: Daily, addresses: seq<Address>, a: Address)
    ensures SnapshotDaily(daily, addresses + [a]) == SnapshotDaily(daily, addresses) + TraderEntries(daily, a)
    ensures SnapshotDaily(daily, []) == []
  {
    assert (addresses + [a])[..|addresses|] == addresses;
  }

  function RestoreDaily(daily: Daily, entries: seq<DailyEntry>): Daily
    decreases |entries|
  {
    if entries == [] then daily
    else
      var e := entries[|entries| - 1];
      RestoreDaily(daily, entries[..|entries| - 1])[(e.address, e.stats.date) := e.stats]
  }

  /** Row `k` is among its trader's newest thousand. */
  ghost predicate Recent(daily: Daily, k: DailyKey) {
    k in daily && k.1 in Newest(daily, k.0, SNAPSHOT_DAYS)
  }

  function EntryKey(e: DailyEntry): DailyKey { (e.address, e.stats.date) }

  /** Entry `e` is row `k` of the table. */
  ghost predicate IsRow(daily: Daily, e: DailyEntry, k: DailyKey) {
    k in daily && e == DailyEntry(k.0, daily[k])
  }

  lemma TraderEntriesRows(daily: Daily, a: Address, k: DailyKey)
    requires Dated(daily) && k in daily
    ensures DailyEntry(k.0, daily[k]) in TraderEntries(daily, a) <==> k.0 == a && Recent(daily, k)
  {
    var dates, entries := Newest(daily, a, SNAPSHOT_DAYS), TraderEntries(daily, a);
    assert |entries| == |dates|;
    assert forall i :: 0 <= i < |dates| ==> dates[i] in dates && entries[i] == DailyEntry(a, daily[(a, dates[i])]);
    if i :| 0 <= i < |entries| && entries[i] == DailyEntry(k.0, daily[k]) {
      assert k == (a, dates[i]);
    }
    if k.0 == a && Recent(daily, k) {
      var i :| 0 <= i < |dates| && dates[i] == k.1;
      assert entries[i] == DailyEntry(k.0, daily[k]);
    }
  }

  lemma TraderEntriesAreRows(daily: Daily, a: Address, e: DailyEntry)
    requires Dated(daily) && e in TraderEntries(daily, a)
    ensures IsRow(daily, e, EntryKey(e))
  {
    var dates := Newest(daily, a, SNAPSHOT_DAYS);
    var i :| 0 <= i < |dates| && e == TraderEntries(daily, a)[i];
    assert dates[i] in dates;
  }

  lemma {:induction false} SnapshotDailyRows(daily: Daily, addresses: seq<Address>)
    requires Dated(daily)
    ensures forall k :: k in daily ==>
              (DailyEntry(k.0, daily[k]) in SnapshotDaily(daily, addresses) <==> k.0 in addresses && Recent(daily, k))
    ensures forall e :: e in SnapshotDaily(daily, addresses) ==> IsRow(daily, e, EntryKey(e))
    decreases |addresses|
  {
    if addresses != [] {
      var init, a := addresses[..|addresses| - 1], addresses[|addresses| - 1];
      assert addresses == init + [a];
      SnapshotDailyRows(daily, init);
      forall k | k in daily
        ensures DailyEntry(k.0, daily[k]) in SnapshotDaily(daily, addresses) <==> k.0 in addresses && Recent(daily, k)
      {
        TraderEntriesRows(daily, a, k);
      }
      forall e | e in TraderEntries(daily, a)
        ensures IsRow(daily, e, EntryKey(e))
      {
        TraderEntriesAreRows(daily, a, e);
      }
    }
  }

  lemma {:induction false} RestoreDailyRows(daily: Daily, entries: seq<DailyEntry>)
    requires Dated(daily)
    requires forall e :: e in entries ==> IsRow(daily, e, EntryKey(e))
    ensures forall k :: k in RestoreDaily(map[], entries) ==>
              k in daily && RestoreDaily(map[], entries)[k] == daily[k]
    ensures forall k :: k in daily ==>
              (k in RestoreDaily(map[], entries) <==> DailyEntry(k.0, daily[k]) in entries)
    decreases |entries|
  {
    if entries != [] {
      var init, e := entries[..|entries| - 1], entries[|entries| - 1];
      assert entries == init + [e];
      RestoreDailyRows(daily, init);
      assert IsRow(daily, e, EntryKey(e));
      forall k | k in daily && DailyEntry(k.0, daily[k]) == e
        ensures k == EntryKey(e)
      {
      }
    }
  }

  /** Restored daily rows: exactly the recent rows of the listed traders, unchanged. */
  lemma RestoredDaily(daily: Daily, addresses: seq<Address>, k: DailyKey)
    requires Dated(daily)
    ensures var r := RestoreDaily(map[], SnapshotDaily(daily, addresses));
            && (k in r <==> k.0 in addresses && Recent(daily, k))
            && (k in r ==> r[k] == daily[k])
  {
    SnapshotDailyRows(daily, addresses);
    RestoreDailyRows(daily, SnapshotDaily(daily, addresses));
  }

  /** The trader's dates that are newer than the given one. */
  function Newer(daily: Daily, a: Address, date: int): set<int> {
    set d | d in Dates(daily, a) && d > date
  }

  /** In a descending list of a set, an element's index is the number of greater ones. */
  lemma IndexIsRank(down: seq<int>, all: set<int>, at: nat)
    requires at < |down| && forall x, y :: 0 <= x < y < |down| ==> down[x] > down[y]
    requires (forall x :: 0 <= x < |down| ==> down[x] in all) && forall d :: d in all ==> d in down
    ensures |set d | d in all && d > down[at]| == at
  {
    var front := down[..at];
    forall d
      ensures d in all && d > down[at] <==> d in front
    {
      if d in all && d > down[at] {
        var i :| 0 <= i < |down| && down[i] == d;
        assert i < at && front[i] == d;
      }
    }
    assert (set d | d in all && d > down[at]) == Elems(front);
    ElemsCount(front);
  }

  lemma DescendingDates(daily: Daily, a: Address)
    ensures var down, all := Reverse(Ascending(Dates(daily, a))), Dates(daily, a);
            && (forall x, y :: 0 <= x < y < |down| ==> down[x] > down[y])
            && (forall x :: 0 <= x < |down| ==> down[x] in all) && (forall d :: d in all ==> d in down)
            && |down| == |all|
  {
    hide Ascending;
    var up, down := Ascending(Dates(daily, a)), Reverse(Ascending(Dates(daily, a)));
    assert forall x :: 0 <= x < |up| ==> up[x] in up;
    forall d | d in Dates(daily, a)
      ensures d in down
    {
      var i :| 0 <= i < |up| && up[i] == d;
      assert down[|up| - 1 - i] == d;
    }
  }

  /** A date is among the newest thousand exactly when fewer than a thousand are newer. */
  lemma NewestByRank(daily: Daily, a: Address, date: int)
    requires date in Dates(daily, a)
    ensures date in Newest(daily, a, SNAPSHOT_DAYS) <==> |Newer(daily, a, date)| < 1000
  {
    hide Ascending, Reverse;
    var down, dates := Reverse(Ascending(Dates(daily, a))), Newest(daily, a, SNAPSHOT_DAYS);
    DescendingDates(daily, a);
    var at :| 0 <= at < |down| && down[at] == date;
    IndexIsRank(down, Dates(daily, a), at);
    assert |dates| == (if 1000 < |down| then 1000 else |down|) && forall x :: 0 <= x < |dates| ==> dates[x] == down[x];
    if date in dates {
      var x :| 0 <= x < |dates| && dates[x] == date;
      assert x == at;
    }
    assert at < |dates| ==> dates[at] in dates;
  }

  /** What a snapshot brings back of the daily statistics: the rows of listed traders with fewer than a
      thousand newer ones, unchanged. */
  lemma SnapshotKeepsNewest(daily: Daily, addresses: seq<Address>, k: DailyKey)
    requires Dated(daily)
    ensures var r := RestoreDaily(map[], SnapshotDaily(daily, addresses));
            && (k in r <==> k.0 in addresses && k in daily && |Newer(daily, k.0, k.1)| < 1000)
            && (k in r ==> r[k] == daily[k])
  {
    hide Newest, SnapshotDaily, RestoreDaily;
    RestoredDaily(daily, addresses, k);
    if k in daily {
      assert k.1 in Dates(daily, k.0);
      NewestByRank(daily, k.0, k.1);
    }
  }

  /** The snapshot loses no daily row exactly when every trader has at most a thousand of them. */
  lemma DailyRoundTripIff(daily: Daily, addresses: seq<Address>)
    requires Dated(daily)
    requires forall k :: k in daily ==> k.0 in addresses
    ensures (RestoreDaily(map[], SnapshotDaily(daily, addresses)) == daily) <==>
            (forall a :: a in addresses ==> |Dates(daily, a)| <= 1000)
  {
    var r := RestoreDaily(map[], SnapshotDaily(daily, addresses));
    if a :| a in addresses && |Dates(daily, a)| > 1000 {
      OldestDropped(daily, a);
      var d :| d in Dates(daily, a) && d !in Newest(daily, a, SNAPSHOT_DAYS);
      RestoredDaily(daily, addresses, (a, d));
      assert (a, d) in daily && (a, d) !in r;
    } else {
      forall k
        ensures k in r <==> k in daily
        ensures k in r ==> r[k] == daily[k]
      {
        RestoredDaily(daily, addresses, k);
        if k in daily {
          assert k.1 in Dates(daily, k.0);
          AllNewest(daily, k.0, k.1);
        }
      }
      assert r == daily;
    }
  }

  lemma AllNewest(daily: Daily, a: Address, d: int)
    requires |Dates(daily, a)| <= SNAPSHOT_DAYS && d in Dates(daily, a)
    ensures d in Newest(daily, a, SNAPSHOT_DAYS)
  {
    var up := Ascending(Dates(daily, a));
    var i :| 0 <= i < |up| && up[i] == d;
    assert Reverse(up)[|up| - 1 - i] == d;
  }

  lemma OldestDropped(daily: Daily, a: Address)
    requires |Dates(daily, a)| > SNAPSHOT_DAYS
    ensures exists d :: d in Dates(daily, a) && d !in Newest(daily, a, SNAPSHOT_DAYS)
  {
    var up := Ascending(Dates(daily, a));
    var down := Reverse(up);
    assert forall i :: 0 <= i < SNAPSHOT_DAYS ==> down[i] == up[|up| - 1 - i] > up[0];
    assert up[0] in up;
  }

  /* ---------- the stores, updated in place ---------- */

  class TraderStatsTable {
    var rows: Traders

    constructor ()
      ensures rows == map[]
    {
      rows := map[];
    }

    method Ensure(address: Address)
      modifies this
      ensures rows == WithTrader(old(rows), address)
    {
      if address !in rows {
        rows := rows[address := FreshStats(address)];
      }
    }

    method Update(address: Address, f: TraderStats -> TraderStats) returns (found: bool)
      modifies this
      ensures found <==> address in old(rows)
      ensures rows == if found then old(rows)[address := f(old(rows)[address])] else old(rows)
    {
      found := address in rows;
      if found {
        rows := rows[address := f(rows[address])];
      }
    }

    method IncrementTrade(address: Address, volume: Fixed, pnl: Fixed, fee: Fixed,
                          isWin: bool, isLiquidation: bool, timestamp: nat) returns (found: bool)
      modifies this
      ensures found <==> address in old(rows)
      ensures rows == WithTrade(old(rows), address, volume, pnl, fee, isWin, isLiquidation, timestamp)
    {
      if address !in rows {
        return false;
      }
      var s := rows[address];
      s := s.(totalTrades := s.totalTrades + 1, totalVolume := s.totalVolume + volume,
              totalPnl := s.totalPnl + pnl, totalFeesPaid := s.totalFeesPaid + fee);
      if isWin {
        s := s.(winCount := s.winCount + 1);
      } else if !isLiquidation {
        s := s.(lossCount := s.lossCount + 1);
      }
      if isLiquidation {
        s := s.(liquidationCount := s.liquidationCount + 1);
      }
      if pnl > s.bestTradePnl {
        s := s.(bestTradePnl := pnl);
      }
      if pnl < s.worstTradePnl {
        s := s.(worstTradePnl := pnl);
      }
      if s.firstTradeAt.None? {
        s := s.(firstTradeAt := Some(timestamp));
      }
      rows := rows[address := s.(lastTradeAt := Some(timestamp))];
      found := true;
    }

    method IncrementOpenPositions(address: Address)
      modifies this
      ensures rows == IncrementOpen(old(rows), address)
    {
      if address in rows {
        var s := rows[address];
        rows := rows[address := s.(totalPositions := s.totalPositions + 1, openPositions := s.openPositions + 1)];
      }
    }

    method DecrementOpenPositions(address: Address)
      modifies this
      ensures rows == DecrementOpen(old(rows), address)
    {
      if address in rows {
        var s := rows[address];
        rows := rows[address := s.(openPositions := if s.openPositions == 0 then 0 else s.openPositions - 1)];
      }
    }
  }

  /** One column of the daily table, restricted to rows satisfying nothing, a date or a trader. */
  ghost function Column(daily: Daily, f: DailyStats -> int): map<DailyKey, int> {
    map k | k in daily :: f(daily[k])
  }

  function KeyDate(k: DailyKey): int { k.1 }
  function KeyTrader(k: DailyKey): Address { k.0 }
  function Volume(s: DailyStats): int { s.volume }
  function Pnl(s: DailyStats): int { s.pnl }
  function Trades(s: DailyStats): int { s.trades }
  function Fees(s: DailyStats): int { s.fees }

  /** One column summed over the rows of one date. */
  ghost function DateTotal(daily: Daily, f: DailyStats -> int, date: int): int {
    MapSum(Class(Column(daily, f), KeyDate, date))
  }

  /** One column summed over the rows of one trader. */
  ghost function TraderTotal(daily: Daily, f: DailyStats -> int, address: Address): int {
    MapSum(Class(Column(daily, f), KeyTrader, address))
  }

  class DailyStatsTable {
    var rows: Daily

    constructor ()
      ensures rows == map[]
    {
      rows := map[];
    }

    method SetTraderDaily(address: Address, date: int, stats: DailyStats)
      modifies this
      ensures rows == old(rows)[(address, date) := stats]
    {
      rows := rows[(address, date) := stats];
    }

    method AccumulateTrade(address: Address, date: int, volume: Fixed, pnl: Fixed, fee: Fixed)
      modifies this
      ensures rows == Accumulate(old(rows), address, date, volume, pnl, fee)
    {
      var k := (address, date);
      if k in rows {
        var s := rows[k];
        rows := rows[k := s.(volume := s.volume + volume, pnl := s.pnl + pnl,
                             trades := s.trades + 1, fees := s.fees + fee)];
      } else {
        rows := rows[k := DailyStats(date, pnl, volume, 1, fee)];
      }
    }

    /** `protocol_daily`: one pass over all rows, in whatever order the hash map gives them, adds
        up exactly the rows of the date, in every column. */
    method ProtocolDaily(date: int) returns (agg: DailyStats)
      ensures agg.date == date && TotalsOf(rows, date, agg)
    {
      hide TotalsOf;
      agg := DailyStats(date, 0, 0, 0, 0);
      var todo := rows.Keys;
      EmptyTotals(date);
      ghost var done: Daily := map[];
      while todo != {}
        invariant todo <= rows.Keys && done.Keys == rows.Keys - todo
        invariant forall k :: k in done ==> done[k] == rows[k]
        invariant agg.date == date && TotalsOf(done, date, agg)
        decreases |todo|
      {
        var k :| k in todo;
        var s := rows[k];
        AddRowTotals(done, k, s, date, agg);
        if k.1 == date {
          agg := agg.(volume := agg.volume + s.volume, pnl := agg.pnl + s.pnl,
                      trades := agg.trades + s.trades, fees := agg.fees + s.fees);
        }
        done := done[k := s];
        todo := todo - {k};
      }
      assert done == rows;
    }
  }

  ghost predicate TotalsOf(daily: Daily, date: int, agg: DailyStats) {
    && agg.volume == DateTotal(daily, Volume, date) && agg.pnl == DateTotal(daily, Pnl, date)
    && agg.trades == DateTotal(daily, Trades, date) && agg.fees == DateTotal(daily, Fees, date)
  }

  lemma AddRowTotals(done: Daily, k: DailyKey, s: DailyStats, date: int, agg: DailyStats)
    requires k !in done && TotalsOf(done, date, agg)
    ensures TotalsOf(done[k := s], date,
                     if k.1 == date
                     then agg.(volume := agg.volume + s.volume, pnl := agg.pnl + s.pnl,
                               trades := agg.trades + s.trades, fees := agg.fees + s.fees)
                     else agg)
  {
    AddRow(done, k, s, Volume, date);
    AddRow(done, k, s, Pnl, date);
    AddRow(done, k, s, Trades, date);
    AddRow(done, k, s, Fees, date);
  }

  lemma EmptyTotals(date: int)
    ensures TotalsOf(map[], date, DailyStats(date, 0, 0, 0, 0))
  {
    forall f: DailyStats -> int
      ensures DateTotal(map[], f, date) == 0
    {
      assert Class(Column(map[], f), KeyDate, date) == map[];
    }
  }

  lemma AddRow(done: Daily, k: DailyKey, s: DailyStats, f: DailyStats -> int, date: int)
    requires k !in done
    ensures DateTotal(done[k := s], f, date) == DateTotal(done, f, date) + (if k.1 == date then f(s) else 0)
  {
    var before := Class(Column(done, f), KeyDate, date);
    var after := Class(Column(done[k := s], f), KeyDate, date);
    if k.1 == date {
      assert after == before[k := f(s)];
      MapSumUpdate(before, k, f(s));
    } else {
      assert after == before;
    }
  }

  /** Summing `protocol_daily` over all dates equals summing over all traders, column by column. */
  lemma DatesAndTradersAgree(daily: Daily, f: DailyStats -> int, dates: set<int>, traders: set<Address>)
    requires forall k :: k in daily ==> k.1 in dates && k.0 in traders
    ensures MapSum(map d | d in dates :: DateTotal(daily, f, d))
            == MapSum(map a | a in traders :: TraderTotal(daily, f, a))
  {
    var column := Column(daily, f);
    SumByClass(column, KeyDate, dates);
    SumByClass(column, KeyTrader, traders);
    assert ClassSums(column, KeyDate, dates) == map d | d in dates :: DateTotal(daily, f, d);
    assert ClassSums(column, KeyTrader, traders) == map a | a in traders :: TraderTotal(daily, f, a);
  }
}
