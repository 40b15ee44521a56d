# PerfDB in Dafny

PerfDB is an embedded, event-sourced database for a perpetuals exchange. An indexer thread hands it
chain events, a price feed hands it ticks. Both are written ahead to a segmented log, applied to
in-memory stores, and rebuilt after a crash from the latest snapshot and the log. Ticks are folded
into candles of 16 timeframes that live in growable mapped files.

The project models those parts and proves how they fit together. `dafny verify dfyconfig.toml`
checks everything.

| module | file | what it holds |
|---|---|---|
| `Types`, `Engine` | `Types.dfy`, `Engine.dfy` | the 17 events, the state, and the two interpreters: live step and recovery step |
| `PositionStore`, `OrderStore`, `BalanceStore`, `UserStore`, `EventLogStore`, `CheckpointStore`, `StatsStore`, `MarketStore` | `Positions.dfy`, `Orders.dfy`, `Ledger.dfy`, `Stats.dfy`, `Markets.dfy` | each store as a class updated in place, a value that specifies it, and the invariants of its indexes |
| `Recovery`, `Exactness`, `Snapshots`, `Sessions`, `Threads` | same names | replay against the live run, exact recovery, snapshot and restore, any number of sessions, two threads |
| `Accounting` | `Accounting.dfy` | statistics, balances, open interest and counters over whole runs |
| `Histories`, `RowHistories` | `Histories.dfy`, `Rows.dfy` | what every store shows after a run, in terms of the run's events alone |
| `Wal`, `WalProtocol` | same names | frames, parser, buffered writer, rotation, crash and restart |
| `Timeframes`, `Bars`, `Candles`, `CandleFiles` | same names | buckets, streaming against batch, roll-up, candle files over many sessions, range queries |
| `CivilDate`, `Bytes`, `Mmap`, `TickStore` | `CivilDate.dfy`, `Bytes.dfy`, `Mmap.dfy`, `Ticks.dfy` | calendar dates, little-endian numbers, the mapped file, the tick files |
| `Database` | `Database.dfy` | the engine object with all its stores, and the end-to-end recovery theorems |
| `Collections`, `Index` | same names | sums over maps, sorted keys, listings of hash maps, secondary indexes |

How the pieces are modelled:

- Stores, writer, candle builder, candle files, mapped file and the engine are classes whose methods
  follow the source statement by statement. Each method's postcondition ties the new state to a
  function of the old one; the theorems are about those functions.
- Hash maps are maps. Where the source walks one, the model walks it in an arbitrary order, so
  every result holds for every order.
- Fixed-point numbers are integers, prices are reals, addresses and hashes are integers. Division is
  truncating as in Rust. Wrap-around is written out where it shows: the u32 date packing, the u32
  frame length, the saturating u64 growth of the mapped file and the saturating counters.
- Serialisation and checksum are an arbitrary `Codec`. Theorems that need it assume, of the entries
  written to the log and of no others, that decoding undoes encoding and that the encoding has at most
  128 MiB (`Wal.Codable`). `Database.RecoveryTheoremsApply` gives an engine log, over any checksum,
  that meets all hypotheses of the two end-to-end theorems.
- A crash keeps, per segment, any byte prefix that contains the synced part. The time that decides an
  `Interval` sync is a parameter of each append.
- Opening the log syncs nothing. How much of the current segment found on opening is really on disk is
  a parameter (`mark`): everything after a power loss, only the synced part after a mere process kill.

What recovery promises is the relation `Recovery.Agree`: equal orders, order books, balances,
users, trader and daily statistics, prices, funding, pause flags, checkpoint and event log, and for
every position its identity, status, exit price, realized pnl and indexes; sizes and collateral too,
except of positions named by a `PositionModified`. Order books are compared level by level as multisets when
a snapshot is involved, since a snapshot lists orders in hash-map order.

Where code and documentation differ, the model follows the code:

- The frame comment (`src/storage/wal.rs:92-101`) describes a type byte; the writer stores length,
  checksum and payload only (`src/storage/wal.rs:152-169`).
- README promises that an acknowledged write survives a crash (`README.md:278`). Replay does not redo
  the entry price, the closing transaction, block and time, modifications and open interest.
  `Exactness.ExactRecoveryIff` says exactly when nothing is lost; `Exactness.OpeningIsLost` and
  `Exactness.ModificationIsLost` are concrete losses.
- The log is not trimmed on reopening. `WalProtocol.TornTailLosesSynced` is, for every codec, a run in
  which a synced entry is never replayed; `Wal.AppendIsLostIff` and `Wal.AppendBehindTorn` say exactly
  when that happens, and when replay makes up an entry instead.
- `snapshot` does not sync the log, only `shutdown` does. `Snapshots.SnapshotAheadOfLog` is a run in which
  recovery puts an older price over the newer one of the snapshot.
- A snapshot in the middle of a block loses the rest of the block: `Snapshots.MidBlockSnapshot`.
- The snapshot asks for a thousand daily rows per trader; `StatsStore.DailyRoundTripIff` says that
  older ones are lost, and only those; `Accounting.ThousandAndOneDays` is a run that loses one.
- Reopening seeds each candle buffer with the last stored candle, so the next closing, or a shutdown, stores
  that bucket again: `CandleFiles.SeededCandleRepeats`; `CandleFiles.OncePerBucketIff` says exactly when a
  file holds a bucket twice.
- Open interest drifts on liquidations and modifications; `Accounting.OpenInterestIff` gives the exact
  guard, `Accounting.LiquidationDrifts` a run.

## Model

| member | source | states |
|---|---|---|
| `Recovery.AgreeStep` | src/engine.rs:281-1054 | the simulation step: if a live state and a recovered state agree, one `process_event` on the one and one replayed event on the other agree again, for all 17 events |
| `Recovery.AgreeRun` | src/engine.rs:832-1054 | from agreeing states, the live run and the replay of any log above the snapshot block agree |
| `Recovery.AgreeLiveRun` | src/engine.rs:281-599 | agreeing states stay in agreement under the same live calls |
| `Recovery.WalRecoveryIff` | src/engine.rs:127-189 | recovery without a snapshot agrees with the live run, event log included, if and only if no event carries block 0 |
| `Exactness.StepExactIff` | src/engine.rs:895-958 | replaying one event gives the very same state as the live step, from any state, if and only if the event is faithful there (a condition on event and state before the call) |
| `Exactness.ExactRecoveryIff` | src/engine.rs:832-1054 | recovery equals the whole live state at every crash point of a run if and only if every logged event was faithful |
| `Exactness.OpeningIsLost` | src/engine.rs:872-911 | a plain opening comes back with entry price 0 and no open interest |
| `Exactness.ModificationIsLost` | src/engine.rs:1046-1046 | a modification is dropped by replay, so the size of the position differs and the states disagree |
| `Engine.StoreByStore` | src/engine.rs:281-599 | each store after an event depends on that store and the event alone, except that open interest also reads the positions |
| `Snapshots.InvStep` | src/engine.rs:281-599 | every event with fresh ids keeps indexes and books equal to a scan, rows under their own keys, and a trader row for every daily row |
| `Snapshots.InvRun` | src/engine.rs:281-599 | that invariant holds after every run of events and ticks |
| `Snapshots.KeyedStep` | src/engine.rs:281-599 | every event, ids reused or not, keeps each row under its own key, which is all a snapshot needs |
| `Snapshots.KeyedReplayRun` | src/engine.rs:832-1054 | so does recovery of any log |
| `Snapshots.KeyedRestore` | src/engine.rs:766-828 | and restoring any snapshot, whatever it holds |
| `Snapshots.RestoreUndoesSnapshot` | src/engine.rs:663-828 | restoring a snapshot gives every store back, whatever order the hash maps were listed in; the event log comes back empty |
| `Snapshots.CoveredReplayIff` | src/engine.rs:845-869 | replaying entries a snapshot covers changes nothing if and only if the snapshot shows the last logged tick of each market |
| `Snapshots.SnapshotAheadOfLog` | src/engine.rs:663-702 | a snapshot written ahead of the durable log: recovery overwrites the newer price by the older one |
| `Snapshots.RecoverFrom` | src/engine.rs:120-189 | restore plus replay of covered and later entries agrees with the live run from the snapshot's state |
| `Snapshots.SnapshotRecovery` | src/engine.rs:120-189 | live run, snapshot on a block boundary, more events, recovery from any log suffix that still holds everything after the snapshot: same projected state as the uninterrupted run |
| `Snapshots.AheadRecoveryIff` | src/engine.rs:845-869 | recovery from a snapshot ahead of its log agrees with the state it was taken of if and only if that state shows the last tick of each market left in the log |
| `Sessions.RecoverSaved` | src/engine.rs:120-189 | a snapshot of any state a session reached, itself recovered or not, restored and followed by the log from anywhere before it on, agrees with that session and with an engine that never stopped |
| `Sessions.NextOk` | src/engine.rs:120-721 | every call, snapshot, and crash with the next opening keeps: the live engine agrees with one that made the surviving calls without stopping, and so did the snapshot's state |
| `Sessions.EverySessionAgrees` | src/engine.rs:120-721 | over any number of sessions, at every moment, the live engine agrees with one that made the surviving calls without ever stopping, and its indexes and books equal a scan |
| `Snapshots.SortedRunIsCovered` | src/engine.rs:596-596 | with non-decreasing blocks the checkpoint covers every logged event, so any block boundary is a valid snapshot point |
| `Snapshots.DeliveredOnceIff` | src/engine.rs:866-869 | the events replay does not skip are exactly the later ones, once each, if and only if the snapshot sits on a block boundary |
| `Snapshots.ReplayFiles` | src/engine.rs:866-872 | the event log after any replay is the old one with exactly those delivered events filed, in log order |
| `Snapshots.ReplayedOnceIff` | src/engine.rs:866-872 | seen on the recovered state: its event log is the snapshot's with the later events filed once each if and only if every keyed event lies on its own side of the snapshot block and as many events were delivered as came later; where every later event has a market or a trader, that is the block boundary |
| `Snapshots.MidBlockSnapshot` | src/engine.rs:866-869 | two pauses in one block and a snapshot between them: the second market is paused live and running after recovery |
| `Threads.StepsCommute` | src/engine.rs:242-599 | applying an event and applying a tick commute on every state |
| `Threads.InvNext` | src/engine.rs:242-599 | every log or apply step of either thread keeps: what is applied or in flight is logged, and finishing the work in flight gives the live run of the log in logged order |
| `Threads.CrashDuringRun` | src/engine.rs:242-599 | in every interleaving, at every moment, replaying the log agrees with the state after finishing the work in flight |
| `Threads.QuiescentRun` | src/engine.rs:242-599 | at quiescence the live state, latest prices included, is what replay rebuilds |
| `Accounting.StatsConserved` | src/engine.rs:363-379 | in every run: daily volumes sum to total volume, daily trades to trades without liquidations, daily pnl to pnl plus penalties, and wins, losses and liquidations partition the trades |
| `Histories.TraderHistory` | src/engine.rs:290-521 | after every run a trader's counters are the numbers of the trader's own openings, closes with a gain, closes without, and liquidations, and the totals add up what those closed and gained |
| `Histories.TraderTimes` | src/aggregation/stats.rs:63-106 | a trader has a row exactly when there was any of these, and the first and last trade times are those of the first and last close or liquidation |
| `Histories.TraderExtremes` | src/aggregation/stats.rs:63-106 | best and worst are the greatest and least gain among the trader's closes and liquidations, 0 included |
| `Histories.DailyHistory` | src/aggregation/stats.rs:205-228 | a trader's row of a day holds the number, the sizes and the gains of the trader's own closes of that day, and is there exactly when there were any |
| `Histories.KeysAreFields` | src/engine.rs:735-761 | each of the 17 events is filed under its own market field and its own user field, where it has them |
| `Histories.EventHistory` | src/storage/event_store.rs:38-62 | after every run the partition of a market is the run's events of that market and the partition of a trader those of that user, in order, and every event is counted |
| `Histories.ReplayHistory` | src/engine.rs:866-872 | replay adds to each partition the events of that market or user that it does not skip, in log order |
| `Histories.UserHistory` | src/relational/users.rs:73-102 | after every run a user exists exactly when some event made sure of it: created at the first such event, last active at the last, with the vault of the last `VaultCreated`, otherwise as a new user |
| `Histories.MarketHistory` | src/state/market_state.rs:129-227 | after every run a market shows the two rates of its last funding update, is paused exactly when some event paused it, and otherwise looks as at the start, open interest apart |
| `Histories.OpeningInterest` | src/state/market_state.rs:173-184 | an opening moves the long or the short open interest of its own market by its size, and no other |
| `Histories.CheckpointHistory` | src/relational/checkpoint.rs:80-83 | after every run the checkpoint shows the block of the last event |
| `Histories.OtherEntries` | src/engine.rs:852-1053 | entries no call writes: a logged balance is set as it stands, a logged block moves the checkpoint, candle and batch entries change nothing |
| `RowHistories.OrderHistory` | src/engine.rs:417-480 | after every run an order exists exactly when it was placed, with the fields of its last placement, the price, position and time of its last execution since, and the status the later of execution and cancellation gave it |
| `RowHistories.PlacementRests` | src/state/orders.rs:140-165 | a placement in a known market rests at its trigger price, on the bids exactly when it is long, else on the asks |
| `RowHistories.PlacedOrderRests` | src/state/orders.rs:140-237 | the same over every run with fresh ids, for every order neither executed nor cancelled since its placement |
| `RowHistories.ArrivalOrder` | src/state/orders.rs:34-58 | over every run with fresh ids the orders of a price level stand in the order they were placed in |
| `RowHistories.PositionHistory` | src/engine.rs:291-415 | after every run a position exists exactly when it was opened, with the fields of its last opening; exit price, stamps, pnl and status come from its last exits since; size and collateral from its last opening or modification, less the partial closes since |
| `Types.TruncDivTruncates` | src/engine.rs:308-308 | the collateral quotient is cut off toward zero |
| `Accounting.BalanceClosedForm` | src/engine.rs:541-578 | every run, amounts of any sign, leaves each balance at the sum of its moves minus the least prefix sum at a clamped moment (behind a withdrawal, or at the start before a first deposit), nothing locked, all available, present exactly when touched |
| `Accounting.ProperBalance` | src/engine.rs:541-578 | with non-negative amounts that is the sum minus the least prefix sum, the empty prefix included |
| `Accounting.TokenIndex` | src/state/balances.rs:31-41 | in every run a user's token index lists exactly the tokens some move touched |
| `Accounting.OiStepIff` | src/engine.rs:290-521 | one event keeps each market's long and short open interest equal to the open sizes if and only if it passes the guard |
| `Accounting.OpenInterestIff` | src/engine.rs:290-521 | throughout a run open interest equals the open sizes if and only if every event passes the guard |
| `Accounting.LiquidationDrifts` | src/engine.rs:482-521 | an opening and its liquidation leave 1000 of long open interest and no open size |
| `Accounting.CounterStepIff` | src/engine.rs:290-521 | one event keeps every trader's counter equal to the number of open positions if and only if it passes the counter guard |
| `Accounting.OpenCounterIff` | src/aggregation/stats.rs:109-121 | the same throughout a run |
| `Accounting.NeverSaturates` | src/aggregation/stats.rs:117-121 | in a guarded run an event that ends an open position never meets a counter at zero |
| `Accounting.CounterIsListLength` | src/state/positions.rs:104-109 | in guarded runs with fresh ids the counter is the length of the list `open_by_user` returns |
| `PositionStore.InsertConsistentIff` | src/state/positions.rs:33-49 | insert keeps both indexes equal to a scan if and only if it does not re-home an existing id |
| `PositionStore.UpdateConsistent` | src/state/positions.rs:60-68 | an update that keeps user and market keeps the indexes |
| `PositionStore.RemoveConsistent` | src/state/positions.rs:71-91 | remove keeps the indexes equal to a scan |
| `PositionStore.RemoveTakesRow` | src/state/positions.rs:71-91 | exactly the named position goes |
| `PositionStore.OpenByUserIsScan` | src/state/positions.rs:104-155 | the indexed query for open positions returns what a full scan finds |
| `PositionStore.RestorePositions` | src/engine.rs:783-785 | re-inserting the listed rows, in any order, rebuilds rows and indexes |
| `PositionStore.PositionTable.Insert` | src/state/positions.rs:33-49 | rows and both indexes updated in place as the value specifies |
| `PositionStore.PositionTable.Update` | src/state/positions.rs:60-68 | the row is rewritten if present; answers whether it was |
| `PositionStore.PositionTable.Remove` | src/state/positions.rs:71-91 | the row leaves the table and both indexes |
| `OrderStore.InsertBooksIff` | src/state/orders.rs:140-165 | insert keeps the books equal to a scan if and only if it does not overwrite an order resting in a known market |
| `OrderStore.BooksEqualScan` | src/state/orders.rs:140-237 | in every run of insert, cancel, execute and remove each active order of a known market stands exactly once on its side at its trigger price, nothing else does, no level is empty, and the user index equals a scan |
| `OrderStore.RemoveTakesRow` | src/state/orders.rs:221-237 | exactly the named order goes |
| `OrderStore.EndsShow` | src/state/orders.rs:173-218 | cancelling sets the status of the named order and nothing else, executing its status, price, position and time; no other row changes |
| `OrderStore.BestPrices` | src/state/orders.rs:61-68 | best bid and ask are the greatest and least prices of resting orders, and absent exactly when there are none |
| `OrderStore.SpreadIsGap` | src/state/orders.rs:71-73 | there is a spread exactly when both sides have resting orders, and it is least resting ask minus greatest resting bid |
| `OrderStore.DepthIsSortedScan` | src/state/orders.rs:76-98 | depth lists the best levels in order, with the number of orders a scan finds at each |
| `OrderStore.BookCountsAddUp` | src/state/orders.rs:101-108 | bid and ask counts over all books sum to the active orders of known markets |
| `OrderStore.RestoreOrders` | src/engine.rs:787-789 | re-inserting the listed orders, in any order, rebuilds rows, user index and books up to the order within a level |
| `OrderStore.OrderTable.Insert` | src/state/orders.rs:140-165 | row, user index and book updated in place |
| `OrderStore.OrderTable.Cancel` | src/state/orders.rs:173-190 | status changed and the order taken off its book, by the order as it was |
| `OrderStore.OrderTable.Execute` | src/state/orders.rs:193-218 | the same with execution price, position and time |
| `OrderStore.OrderTable.Remove` | src/state/orders.rs:221-237 | the row leaves table, index and book |
| `BalanceStore.SetConsistent` | src/state/balances.rs:31-41 | set keeps the token index equal to a scan |
| `BalanceStore.RemoveConsistent` | src/state/balances.rs:102-114 | remove keeps the token index equal to a scan and leaves no empty set |
| `BalanceStore.RemoveTakesRow` | src/state/balances.rs:102-114 | exactly the named balance goes |
| `BalanceStore.RestoreBalances` | src/engine.rs:791-793 | setting the listed balances, in any order, rebuilds balances and token index |
| `BalanceStore.BalanceCache.Set` | src/state/balances.rs:31-41 | row and token index updated in place |
| `BalanceStore.BalanceCache.Remove` | src/state/balances.rs:102-114 | row and token leave; the removed balance is returned |
| `UserStore.UserTable.Ensure` | src/relational/users.rs:73-89 | a missing user is created at the given time; of a present one only the time of the last activity changes |
| `EventLogStore.EventTable.Append` | src/storage/event_store.rs:38-62 | the event goes to the partitions its keys name and is counted once |
| `StatsStore.TraderStatsTable.IncrementTrade` | src/aggregation/stats.rs:63-106 | the row of a known trader gets the trade's totals, counters, extremes and times |
| `StatsStore.TraderStatsTable.DecrementOpenPositions` | src/aggregation/stats.rs:117-121 | the counter goes down by one and stops at zero |
| `StatsStore.DailyStatsTable.AccumulateTrade` | src/aggregation/stats.rs:205-228 | the row of that trader and date grows by the trade, or starts with it |
| `StatsStore.DailyStatsTable.ProtocolDaily` | src/aggregation/stats.rs:249-269 | one pass in any hash order returns, in every column, the sum of all rows of the date |
| `StatsStore.DatesAndTradersAgree` | src/aggregation/stats.rs:249-269 | summing the protocol totals over dates equals summing the trader totals over traders, for every column |
| `StatsStore.NewestAreNewest` | src/aggregation/stats.rs:231-246 | the history of a trader lists the newest dates, newest first, as many as asked for and there are, each with its own row |
| `StatsStore.RestoredDaily` | src/engine.rs:666-679 | the rows that come back through a snapshot are exactly the newest thousand of each listed trader, unchanged |
| `StatsStore.SnapshotKeepsNewest` | src/engine.rs:666-679 | what comes back through a snapshot are, unchanged, the rows of listed traders that have fewer than a thousand newer ones |
| `StatsStore.DailyRoundTripIff` | src/engine.rs:666-679 | daily statistics survive a snapshot if and only if no trader has more than a thousand rows |
| `Accounting.ThousandAndOneDays` | src/engine.rs:666-679 | a run of 1001 closes on 1001 days whose daily rows no snapshot gives back in full |
| `MarketStore.RestoredMarkets` | src/engine.rs:808-827 | restoring the market part of a snapshot into fresh slots gives every slot back |
| `MarketStore.MarketTable.AddOpenInterest` | src/state/market_state.rs:173-184 | one side of a known market moves by the delta; unknown markets are ignored |
| `CivilDate.CivilIsCalendar` | src/engine.rs:1057-1069 | for every day number the shift-and-divide algorithm gives the date reached by counting calendar days from 1970-01-01 with the month lengths and leap rule of section 5.7 and Appendix C of RFC 3339 |
| `CivilDate.DateIsCalendarIff` | src/engine.rs:1057-1071 | the packed u32 shows the calendar date if and only if the year is at most 429496 |
| `CivilDate.DatesGrow` | src/engine.rs:1057-1071 | within those years packed dates are ordered exactly as days, so the day key is injective |
| `Bytes.LeRoundTrip` | src/storage/wal.rs:152-169 | little-endian numbers that fit read back |
| `Bytes.LeastFirst` | src/storage/wal.rs:274-275 | the first of four bytes counts least |
| `Wal.FrameFields` | src/storage/wal.rs:152-169 | a frame is four bytes of length, four of checksum, then the payload |
| `Wal.ParseFrames` | src/storage/wal.rs:268-328 | print and parse: whole frames of codable entries in front of any bytes are read back in order and parsing continues behind them |
| `Wal.OversizedIff` | src/storage/wal.rs:152-169 | below 4 GiB an entry is read back if and only if its encoding is at most 128 MiB, which the writer does not check; from there on the stored length wraps and the parser judges the front of the encoding |
| `Wal.ParseCut` | src/storage/wal.rs:268-328 | a segment cut at any byte replays exactly the frames that are whole |
| `Wal.AppendIsLostIff` | src/storage/wal.rs:119-129 | for every codec and all bytes: what is appended on reopening is lost altogether if and only if the parser rejects the frame that the leftover bytes form with it |
| `Wal.AppendBehindClean` | src/storage/wal.rs:119-129 | where every byte belongs to a valid frame, all appended entries are replayed |
| `Wal.CleanTailIsConsumed` | src/storage/wal.rs:268-328 | a segment of whole frames of codable entries leaves the parser nothing |
| `Wal.AppendBehindCorrupt` | src/storage/wal.rs:119-129 | entries appended behind a complete but invalid frame are all lost |
| `Wal.AppendBehindTorn` | src/storage/wal.rs:119-129 | behind a torn frame with a whole header everything appended is lost if and only if it does not complete the frame, or completes it to a payload that fails checksum or decoding; otherwise replay makes up the entry the mixed payload decodes to and goes on behind it |
| `Wal.ReplaySegment` | src/storage/wal.rs:268-328 | the cursor loop ends on any bytes and delivers the maximal valid prefix |
| `Wal.ReplayAll` | src/storage/wal.rs:244-332 | all segments in ascending order, a bad frame ending its own segment only; the count is the number delivered |
| `Wal.TruncateBefore` | src/storage/wal.rs:336-357 | exactly the segments below the cut go, and their number is returned |
| `Wal.TruncationKeepsSuffix` | src/storage/wal.rs:336-357 | the full replay is the replay of the dropped segments followed by the replay of the kept ones |
| `WalProtocol.AppendKeeps` | src/storage/wal.rs:146-190 | every append keeps the frame invariant, adds its entry at the end of the log, takes no durability away, and is durable on return if it synced |
| `WalProtocol.AppendSyncs` | src/storage/wal.rs:173-183 | on return of an append under `EveryWrite`, or under `Interval` once the interval has elapsed, nothing is buffered and every byte of every segment is synced; otherwise an append that does not fill the segment syncs nothing |
| `WalProtocol.RotatesIff` | src/storage/wal.rs:185-189 | an append moves on to the next, empty segment if and only if the current one, this frame included, has reached the configured size, and leaves it whole on disk |
| `WalProtocol.AppendBuffers` | src/storage/wal.rs:146-190 | no more than 64 KiB ever wait in the buffer |
| `WalProtocol.SyncKeeps` | src/storage/wal.rs:193-204 | a sync makes the whole log durable |
| `WalProtocol.RotateKeeps` | src/storage/wal.rs:216-237 | a rotation keeps the log and leaves it all durable, so only the current segment ever holds unsynced bytes |
| `WalProtocol.CrashReplay` | src/storage/wal.rs:244-332 | replay after any crash of a log of codable entries delivers a prefix of the appended entries that contains every durable one |
| `WalProtocol.CrashedTailIff` | src/storage/wal.rs:119-129 | the tail a crash leaves is clean if and only if the cut falls between two frames |
| `WalProtocol.OpenKeeps` | src/storage/wal.rs:113-143 | opening a clean directory starts on exactly the replayed entries; durable are those within the part known to be on disk, all of them when that is everything |
| `WalProtocol.RestartKeeps` | src/storage/wal.rs:113-143 | a restart on a clean tail, after a power loss or a process kill, starts on exactly the replayed entries, keeps every durable one durable, and has all durable when all that was found is on disk |
| `WalProtocol.NextProgress` | src/storage/wal.rs:113-237 | no append of a codable entry, sync or clean restart loses a durable entry, and after a sync, an append under `EveryWrite`, or one under `Interval` with the interval elapsed everything is durable |
| `WalProtocol.CrashSafety` | src/storage/wal.rs:113-332 | over every run of appends of codable entries, syncs, rotations and clean restarts, a crash at any later moment replays everything appended up to a sync, up to any append under `EveryWrite`, and up to any append under `Interval` once the interval has elapsed |
| `WalProtocol.TornTailLosesSynced` | src/storage/wal.rs:119-129 | for every codec: a torn frame, a reopening and a synced append of a shorter entry; the entry is in the file, synced, and replay delivers nothing |
| `WalProtocol.TornTailArises` | src/storage/wal.rs:146-190 | such a tail is a crash of the writer: an entry as large as the buffer, written unsynced, may be cut anywhere |
| `WalProtocol.WalWriter.Open` | src/storage/wal.rs:113-143 | continues the highest segment behind its last byte, or starts segment 0, and syncs nothing |
| `WalProtocol.WalWriter.Append` | src/storage/wal.rs:146-190 | three buffered writes, the policy's sync and the rotation, in place |
| `WalProtocol.WalWriter.Sync` | src/storage/wal.rs:193-204 | buffer to the file, file to disk |
| `WalProtocol.WalWriter.Rotate` | src/storage/wal.rs:216-237 | sync, then the next segment |
| `Timeframes.NameTellsLength` | src/core/timeframe.rs:49-68 | each of the 16 timeframes lasts as long as its name says: its number times its unit of seconds, minutes of 60 seconds, hours of 60 minutes, days of 24 hours, weeks of 7 days |
| `Timeframes.NamesInOrder` | src/core/timeframe.rs:29-46 | the index order of the timeframes, by their names |
| `Timeframes.NameIsRead` | src/core/timeframe.rs:91-133 | parsing the name of a timeframe gives it back |
| `Timeframes.ClockBucket` | src/core/timeframe.rs:84-87 | a tick in second `s` of day `d` falls in the bucket that starts at the last whole multiple of the timeframe since that midnight |
| `Timeframes.CalendarBucket` | src/core/timeframe.rs:84-87 | daily buckets start at midnight of the timestamp's day, weekly ones at midnight of the first of the seven days it belongs to, counted from 1 January 1970 |
| `Timeframes.BucketsNest` | src/core/timeframe.rs:76-87 | a bucket of a multiple duration is the bucket of the finer bucket's start |
| `Candles.TimeframesNest` | src/core/timeframe.rs:49-87 | whenever one timeframe's duration divides another's, its buckets nest in the other's |
| `Bars.StreamIsBatch` | src/aggregation/candle_builder.rs:98-132 | one bar at a time gives the first/max/min/last folds of the maximal same-bucket runs, for every sequence and bucket function |
| `Bars.RollUp` | src/core/timeframe.rs:76-87 | where buckets nest, streaming the fine candles gives the coarse candles, sorted input or not |
| `Bars.OneCandlePerBucket` | src/aggregation/candle_builder.rs:98-132 | on non-decreasing times and a monotone bucket function there is exactly one candle per occupied bucket, strictly increasing |
| `Bars.CandleOfBucket` | src/aggregation/candle_builder.rs:98-132 | on bars in time every candle is the first open, highest high, lowest low and last close of all bars of its bucket |
| `Candles.CandleBuilder.OnTick` | src/aggregation/candle_builder.rs:98-132 | the loop over 16 timeframes updates exactly the tick's market and emits the closed and live candles in order |
| `Candles.CandleBuilder.FlushAll` | src/aggregation/candle_builder.rs:142-154 | the live candles of all pairs, market by market |
| `Candles.CandleBuilder.Seed` | src/aggregation/candle_builder.rs:159-172 | the pair's buffer restarts from the stored candle; out of range is ignored |
| `Candles.CandleStore.Append` | src/storage/candle_store.rs:63-70 | the candle goes behind its own pair's file; an unknown timeframe or market is refused and changes nothing |
| `Candles.CandleStore.Upsert` | src/storage/candle_store.rs:77-96 | the last candle is overwritten when it has the same start, else the candle is appended |
| `Candles.CandleStore.AppendClosed` | src/engine.rs:256-263 | the persistence loop stores the closed candles only |
| `Candles.TickStored` | src/engine.rs:256-263 | a tick's outputs change the file of each pair of its market as one push does, and no other file |
| `Candles.SessionIsStream` | src/aggregation/candle_builder.rs:98-132 | per market and timeframe, the file followed by the live candle is the stream of that market's ticks alone, and the upsert mode stores the same records |
| `Candles.SessionIsBatch` | src/storage/candle_store.rs:63-96 | both write modes leave the batch aggregation of the market's ticks |
| `Candles.SessionOnePerBucket` | src/aggregation/candle_builder.rs:98-132 | in a session with in-time ticks, each file followed by its live candle is strictly increasing and holds exactly one candle per bucket a tick of its market falls into |
| `Candles.CandleIsItsTicks` | src/aggregation/candle_builder.rs:98-132 | in a session with in-time ticks every candle of a file, the live one included, has first price, last price and extremes of exactly the market's ticks in its bucket |
| `Candles.CalendarCandle` | src/aggregation/candle_builder.rs:98-132 | so every daily candle starts at midnight and is the candle of exactly that day's ticks, every weekly one of seven days' |
| `Candles.SessionRollsUp` | src/core/timeframe.rs:49-87 | a session's coarse file and live candle are the batch aggregation of its fine file and live candle whenever the durations divide, for every tick sequence |
| `CandleFiles.RangeIsFilter` | src/query/time_range.rs:45-49 | on an ordered file the range query is the plain filter, and panics exactly when reversed bounds enclose a candle |
| `CandleFiles.InclusiveRangeIsFilter` | src/query/time_range.rs:52-60 | the same with the end included |
| `CandleFiles.FindIsLastBefore` | src/query/time_range.rs:70-82 | the point query returns the last candle starting at or before the time, and nothing exactly when there is none |
| `CandleFiles.FilesStayInOrder` | src/engine.rs:199-206 | over every run of ticks, shutdowns, process ends and seeded reopenings, with per-market non-decreasing times, every candle file stays in order |
| `CandleFiles.OncePerBucketIff` | src/engine.rs:199-206 | over every run of ticks, shutdowns, process ends and seeded reopenings, a file holds each bucket once if and only if no step stored a candle whose bucket the file already ended with |
| `CandleFiles.SeededCandleRepeats` | src/engine.rs:199-206 | after a reopening the first tick in another bucket stores the last candle a second time |
| `CandleFiles.QueriesAreRight` | src/query/time_range.rs:35-82 | so in every such run both queries are right on every file |
| `CandleFiles.CandleSide.Open` | src/engine.rs:199-206 | the nested seeding loop fills each buffer from the last candle of its file |
| `CandleFiles.CandleSide.Shutdown` | src/engine.rs:705-713 | every live candle ends up behind its own file |
| `Mmap.GrownCapacity` | src/storage/mmap.rs:238-242 | the doubling loop ends with enough room, and less than twice that unless it is the initial size |
| `Mmap.MmapFile.Open` | src/storage/mmap.rs:44-101 | the logical length is the header's, a new file is empty |
| `Mmap.MmapFile.Append` | src/storage/mmap.rs:116-137 | contents are the old ones followed by the data, header equal to the new length, growing when needed |
| `Mmap.MmapFile.Grow` | src/storage/mmap.rs:238-275 | growing keeps contents and header |
| `Mmap.MmapFile.ReadAt` | src/storage/mmap.rs:150-158 | the slice of the logical contents, or nothing out of range |
| `Mmap.MmapFile.WriteAt` | src/storage/mmap.rs:202-214 | a splice inside the logical region; out of range is refused and changes nothing |
| `Mmap.MmapFile.AsSlice` | src/storage/mmap.rs:186-196 | all whole records |
| `Mmap.MmapFile.IterRecords` | src/storage/mmap.rs:173-179 | draining the iterator returns the same records |
| `Mmap.RecordIter.Next` | src/storage/mmap.rs:288-292 | the record at the offset, which moves behind it; nothing, and no move, where it is not whole |
| `Mmap.MmapFile.AppendRecord` | src/storage/mmap.rs:140-145 | the record behind the old contents at the offset returned; whole records stay whole records |
| `Mmap.Reopen` | src/storage/mmap.rs:44-101 | reopening the bytes of a file gives its contents back, in a new mapping that can be written to |
| `Mmap.RecordsReadBack` | src/storage/mmap.rs:161-196 | slice, iterator and positional read all return the appended records |
| `TickStore.TickTable.Append` | src/storage/tick_store.rs:55-68 | the tick goes behind its market's file; an unknown market is refused and changes nothing |
| `TickStore.FilesHoldTheirTicks` | src/storage/tick_store.rs:55-68 | after any ticks each file holds its own market's ticks behind what it held, in the order they came |
| `Database.Stores.StepLive` | src/engine.rs:281-599 | the in-place event handler does what the live step says to every store and nothing else |
| `Database.Stores.ReplayOne` | src/engine.rs:832-1054 | the in-place recovery handler does what the recovery step says, block filter included |
| `Database.Stores.ReplayLog` | src/engine.rs:174-189 | replaying a whole log in place |
| `Database.Stores.TakeSnapshot` | src/engine.rs:663-702 | the snapshot lists every store completely, in whatever order the hash maps give |
| `Database.Stores.RestoreSnapshot` | src/engine.rs:766-828 | restoring in place gives the restored state |
| `Database.PerfDb.Open` | src/engine.rs:120-230 | the opened engine, all of it new objects, is what snapshot and log recover to, rows under their own keys, whatever the log's tail; on a clean log the new session is recoverable again |
| `Database.PerfDb.ProcessEvent` | src/engine.rs:281-599 | the log grows by the event first and the state takes the live step, on any log; on a clean one the logged history grows by the event and what recovery would rebuild still agrees |
| `Database.PerfDb.IngestTick` | src/engine.rs:242-275 | the log grows by the tick first, then tick file, price and candles; an unknown market is an error that leaves everything but the log alone; on a clean log recovery still agrees |
| `Database.PerfDb.SyncWal` | src/engine.rs:724-726 | the current segment goes to disk; on a clean log every logged call is durable afterwards |
| `Database.PerfDb.Shutdown` | src/engine.rs:705-721 | live candles stored, log synced, and a snapshot of the unchanged state that is never ahead of the log |
| `Database.Session` | src/engine.rs:120-721 | open on whatever is there, any calls, shutdown: the stores end as the live run of the calls from the recovered state, the snapshot is of that state, and a clean log ends as the replayed entries followed by the calls, all durable |
| `Database.StillRecoverable` | src/engine.rs:242-599 | one logged call keeps what recovery would rebuild in agreement with the live state |
| `Database.CrashRecovery` | src/engine.rs:120-189 | bytes to state: whatever unsynced bytes a crash takes of a log of codable entries, `open` rebuilds a state that agrees with the live engine after some prefix of the calls that contains every durable one |
| `Database.SnapshotCrashRecovery` | src/engine.rs:120-189 | the same from a snapshot taken in any session, with older segments truncated away: when the surviving log reaches the snapshot (always when its calls were durable) the rebuilt state agrees with that session run on over the surviving calls and with an engine that never stopped; when the snapshot is ahead, it agrees with the snapshot's state if and only if that shows the last replayed tick of each market |
| `Database.RecoveryTheoremsApply` | src/engine.rs:120-189 | an engine log of two events with a snapshot between them, over any checksum, meets every hypothesis of both recovery theorems |

## Left out

- Command line (`src/main.rs`), pub/sub, tracing, timing and benches: no state that other parts read.
- Alerts, API keys, competitions, referrals and the leaderboard: neither logged nor part of a snapshot; they would only add easy members.
- Readers of the tick files (`src/storage/tick_store.rs`): a dispatch per market over the mapped file.
- bincode, crc32fast, the file system and directory durability: an arbitrary codec and a durable prefix per segment stand for them; I/O errors are not modelled.
- Snapshot files on disk (bytes, atomic rename, choice of the latest by block, clean-up): the snapshot that `open` loads is a parameter.
- Event queries of `src/storage/event_store.rs` and the tick half of `src/query/time_range.rs`: plain filters, the latter the same code as for candles.
- Direct mutators that no event reaches (referral codes, oracle prices, market configuration, 24-hour statistics) and `save_checkpoint`, which is not logged.
- Floating point: prices are reals, so NaN and rounding are outside the model.
- i128 overflow of amounts and u32/u64 overflow of counters, block numbers and segment numbers.
- The file system's view of a mapped file (flush order, page-level tearing): the mapped bytes are the file.
- Wal.AppendBehindClean: one direction. A leftover does not lose entries under every codec (one whose frames are all zero bytes reads on behind a single zero byte); when entries are lost is `Wal.AppendIsLostIff`, for every codec.
- WalProtocol.CrashSafety: restarts inside a run are restarts on a clean tail, because behind a torn one the property fails (`WalProtocol.TornTailLosesSynced`); `WalProtocol.CrashedTailIff` says when the tail is clean.
- Mmap.MmapFile.IterRecords: records have a positive size; for a zero-size type the source's iterator never ends (`Mmap.RecordIter.Next` covers it step by step).
