/** Candle files across sessions, and the range queries of `src/query/time_range.rs` that rely on
    their order. */
module CandleFiles {
  import opened Collections
  import opened Types
  import opened Timeframes
  import opened Bars
  import opened Candles

  /* ---------- queries ---------- */

  predicate InOrder(file: seq<CandleRecord>) {
    forall i, j :: 0 <= i < j < |file| ==> file[i].bar.start <= file[j].bar.start
  }

  /** The candle lies in front of the cut: `start < target`, or `<=` for the inclusive bound. */
  predicate Passes(c: CandleRecord, target: int, inclusive: bool) {
    c.bar.start < target || (inclusive && c.bar.start == target)
  }

  /** `partition_point`: binary search for the end of the front part that passes. */
  function PartitionPoint(file: seq<CandleRecord>, target: int, inclusive: bool, lo: nat, hi: nat): (p: nat)
    requires lo <= hi <= |file|
    ensures lo <= p <= hi
    decreases hi - lo
  {
    if lo == hi then lo
    else
      var mid := (lo + hi) / 2;
      if Passes(file[mid], target, inclusive)
      then PartitionPoint(file, target, inclusive, mid + 1, hi)
      else PartitionPoint(file, target, inclusive, lo, mid)
  }

  function LowerBound(file: seq<CandleRecord>, target: int): nat {
    PartitionPoint(file, target, false, 0, |file|)
  }

  function UpperBound(file: seq<CandleRecord>, target: int): nat {
    PartitionPoint(file, target, true, 0, |file|)
  }

  lemma PassesMonotone(file: seq<CandleRecord>, target: int, inclusive: bool, i: nat, j: nat)
    requires InOrder(file) && i <= j < |file|
    ensures Passes(file[j], target, inclusive) ==> Passes(file[i], target, inclusive)
  {
  }

  /** On an ordered file the point splits it in front of the first candle that does not pass. */
  lemma {:induction false} PartitionSplits(file: seq<CandleRecord>, target: int, inclusive: bool, lo: nat, hi: nat)
    requires InOrder(file) && lo <= hi <= |file|
    ensures var p := PartitionPoint(file, target, inclusive, lo, hi);
            && (forall i :: lo <= i < p ==> Passes(file[i], target, inclusive))
            && (forall i :: p <= i < hi ==> !Passes(file[i], target, inclusive))
    decreases hi - lo
  {
    hide Passes, InOrder;
    if lo < hi {
      var mid := (lo + hi) / 2;
      if Passes(file[mid], target, inclusive) {
        PartitionSplits(file, target, inclusive, mid + 1, hi);
        forall i | lo <= i <= mid
          ensures Passes(file[i], target, inclusive)
        {
          PassesMonotone(file, target, inclusive, i, mid);
        }
      } else {
        PartitionSplits(file, target, inclusive, lo, mid);
        forall i | mid <= i < hi
          ensures !Passes(file[i], target, inclusive)
        {
          PassesMonotone(file, target, inclusive, mid, i);
        }
      }
    }
  }

  /** The slice between two cut points; a reversed slice panics. */
  function Slice(file: seq<CandleRecord>, lo: nat, hi: nat): Option<seq<CandleRecord>>
    requires lo <= |file| && hi <= |file|
  {
    if lo <= hi then Some(file[lo..hi]) else None
  }

  function QueryCandleRange(file: seq<CandleRecord>, startNs: int, endNs: int): Option<seq<CandleRecord>> {
    Slice(file, LowerBound(file, startNs), LowerBound(file, endNs))
  }

  function QueryCandleRangeInclusive(file: seq<CandleRecord>, startNs: int, endNs: int): Option<seq<CandleRecord>> {
    Slice(file, LowerBound(file, startNs), UpperBound(file, endNs))
  }

  function FindCandleAt(file: seq<CandleRecord>, ns: int): Option<CandleRecord> {
    var idx := UpperBound(file, ns);
    if file == [] then None
    else if idx == 0 then (if file[0].bar.start <= ns then Some(file[0]) else None)
    else Some(file[idx - 1])
  }

  /** The candles starting in `[lo, hi)`, by a plain scan. */
  function Filter(file: seq<CandleRecord>, lo: int, hi: int): seq<CandleRecord> {
    if file == [] then []
    else (if lo <= file[0].bar.start < hi then [file[0]] else []) + Filter(file[1..], lo, hi)
  }

  lemma {:induction false} FilterAll(file: seq<CandleRecord>, lo: int, hi: int)
    requires forall i :: 0 <= i < |file| ==> lo <= file[i].bar.start < hi
    ensures Filter(file, lo, hi) == file
  {
    if file != [] {
      FilterAll(file[1..], lo, hi);
    }
  }

  lemma {:induction false} FilterNone(file: seq<CandleRecord>, lo: int, hi: int)
    requires forall i :: 0 <= i < |file| ==> !(lo <= file[i].bar.start < hi)
    ensures Filter(file, lo, hi) == []
  {
    if file != [] {
      FilterNone(file[1..], lo, hi);
    }
  }

  lemma FilterCons(c: CandleRecord, rest: seq<CandleRecord>, lo: int, hi: int)
    ensures Filter([c] + rest, lo, hi) == (if lo <= c.bar.start < hi then [c] else []) + Filter(rest, lo, hi)
  {
    assert ([c] + rest)[1..] == rest;
  }

  lemma {:induction false} FilterConcat(a: seq<CandleRecord>, b: seq<CandleRecord>, lo: int, hi: int)
    ensures Filter(a + b, lo, hi) == Filter(a, lo, hi) + Filter(b, lo, hi)
  {
    if a == [] {
      assert a + b == b && Filter(a, lo, hi) == [];
    } else {
      hide Filter;
      var c, rest := a[0], a[1..];
      assert a == [c] + rest && a + b == [c] + (rest + b);
      FilterCons(c, rest, lo, hi);
      FilterCons(c, rest + b, lo, hi);
      FilterConcat(rest, b, lo, hi);
    }
  }

  lemma FilterOfSlice(file: seq<CandleRecord>, p: nat, q: nat, lo: int, hi: int)
    requires p <= q <= |file|
    requires forall i :: 0 <= i < |file| ==> (lo <= file[i].bar.start < hi <==> p <= i < q)
    ensures Filter(file, lo, hi) == file[p..q]
  {
    hide Filter;
    var front, mid, back := file[..p], file[p..q], file[q..];
    assert file == front + mid + back;
    assert forall i :: 0 <= i < |front| ==> front[i] == file[i];
    assert forall i :: 0 <= i < |mid| ==> mid[i] == file[p + i];
    assert forall i :: 0 <= i < |back| ==> back[i] == file[q + i];
    FilterConcat(front + mid, back, lo, hi);
    FilterConcat(front, mid, lo, hi);
    FilterNone(front, lo, hi);
    FilterNone(back, lo, hi);
    FilterAll(mid, lo, hi);
  }

  /** On an ordered file a range query is the plain filter, and it panics exactly when the bounds
      are reversed around some candle. */
  lemma RangeIsFilter(file: seq<CandleRecord>, startNs: int, endNs: int)
    requires InOrder(file)
    ensures QueryCandleRange(file, startNs, endNs) ==
            if exists i :: 0 <= i < |file| && endNs <= file[i].bar.start < startNs
            then None else Some(Filter(file, startNs, endNs))
  {
    PartitionSplits(file, startNs, false, 0, |file|);
    PartitionSplits(file, endNs, false, 0, |file|);
    var p, q := LowerBound(file, startNs), LowerBound(file, endNs);
    forall i | 0 <= i < |file|
      ensures startNs <= file[i].bar.start < endNs <==> p <= i < q
      ensures endNs <= file[i].bar.start < startNs <==> q <= i < p
    {
      assert i < p <==> Passes(file[i], startNs, false);
      assert i < q <==> Passes(file[i], endNs, false);
    }
    if p <= q {
      FilterOfSlice(file, p, q, startNs, endNs);
    } else {
      assert endNs <= file[q].bar.start < startNs;
    }
  }

  /** The same with the end included. */
  lemma InclusiveRangeIsFilter(file: seq<CandleRecord>, startNs: int, endNs: int)
    requires InOrder(file)
    ensures QueryCandleRangeInclusive(file, startNs, endNs) ==
            if exists i :: 0 <= i < |file| && endNs < file[i].bar.start < startNs
            then None else Some(Filter(file, startNs, endNs + 1))
  {
    PartitionSplits(file, startNs, false, 0, |file|);
    PartitionSplits(file, endNs, true, 0, |file|);
    var p, q := LowerBound(file, startNs), UpperBound(file, endNs);
    forall i | 0 <= i < |file|
      ensures startNs <= file[i].bar.start < endNs + 1 <==> p <= i < q
      ensures endNs < file[i].bar.start < startNs <==> q <= i < p
    {
      assert i < p <==> Passes(file[i], startNs, false);
      assert i < q <==> Passes(file[i], endNs, true);
    }
    if p <= q {
      FilterOfSlice(file, p, q, startNs, endNs + 1);
    } else {
      assert endNs < file[q].bar.start < startNs;
    }
  }

  /** `found` is the last candle starting at or before `ns`, or nothing where there is none. */
  ghost predicate IsLastBefore(file: seq<CandleRecord>, ns: int, found: Option<CandleRecord>) {
    if found.None? then forall i :: 0 <= i < |file| ==> file[i].bar.start > ns
    else exists k :: && 0 <= k < |file| && found.value == file[k] && file[k].bar.start <= ns
                     && forall i :: k < i < |file| ==> file[i].bar.start > ns
  }

  /** `find_candle_at` returns the last candle starting at or before `ns`, and nothing exactly when
      there is none. */
  lemma FindIsLastBefore(file: seq<CandleRecord>, ns: int)
    requires InOrder(file)
    ensures IsLastBefore(file, ns, FindCandleAt(file, ns))
  {
    PartitionSplits(file, ns, true, 0, |file|);
    var p := UpperBound(file, ns);
    assert forall i :: 0 <= i < |file| ==> (i < p <==> Passes(file[i], ns, true));
    if p > 0 {
      assert Passes(file[p - 1], ns, true);
    }
  }

  /* ---------- files across sessions ---------- */

  /** The candle side of the engine: files on disk, buffers while running, and the time of each
      market's latest tick ever ingested. */
  datatype Db = Db(files: Files, buffers: Buffers, running: bool, latest: seq<nat>)

  datatype Step =
    | Tick(t: PriceTick)
    | Shutdown
    | Exit
    | Reopen

  /** `shutdown` appends every live candle to its file; here for the first `n` pairs. */
  function Flushed(files: Files, buffers: Buffers, n: nat): Files
    requires |files| == PAIRS && |buffers| == PAIRS
  {
    seq(PAIRS, i requires 0 <= i < PAIRS =>
      if i < n then files[i] + LiveOf(buffers[i], i / TF_COUNT, i % TF_COUNT) else files[i])
  }

  /** `open` seeds each buffer with the last stored candle of its file; here for the first `n`. */
  function Seeds(files: Files, n: nat): Buffers
    requires |files| == PAIRS
  {
    seq(PAIRS, i requires 0 <= i < PAIRS => if i >= n || files[i] == [] then None else Some(Seeded(Last(files[i]))))
  }

  /** The candle builder and the candle files, as the engine object holds them. */
  class CandleSide {
    const builder: CandleBuilder
    const store: CandleStore

    /** Opening on existing files: the nested seeding loop. */
    constructor Open(files: Files)
      requires |files| == PAIRS
      ensures store.files == files && builder.buffers == Seeds(files, PAIRS)
      ensures fresh(store) && fresh(builder)
    {
      builder := new CandleBuilder();
      store := new CandleStore();
      new;
      store.files := files;
      for market := 0 to MARKET_COUNT
        invariant store.files == files && builder.buffers == Seeds(files, market * TF_COUNT)
      {
        for tf := 0 to TF_COUNT
          invariant store.files == files && builder.buffers == Seeds(files, market * TF_COUNT + tf)
        {
          var last := store.Latest(market, tf);
          if last.Some? {
            builder.Seed(market, tf, last.value);
          }
          SeedsStep(files, FlatIndex(market, tf));
        }
      }
    }

    /** The candle part of `ingest_tick`. */
    method Tick(t: PriceTick) returns (outputs: seq<CandleOutput>)
      requires |builder.buffers| == PAIRS
      modifies builder, store
      ensures outputs == OnTickOutputs(old(builder.buffers), t)
      ensures builder.buffers == NextBuffers(old(builder.buffers), t, TF_COUNT)
      ensures store.files == StoreClosed(old(store.files), outputs)
    {
      outputs := builder.OnTick(t);
      store.AppendClosed(outputs);
    }

    /** The candle part of `shutdown`. */
    method Shutdown()
      requires |builder.buffers| == PAIRS && |store.files| == PAIRS
      modifies store
      ensures store.files == Flushed(old(store.files), builder.buffers, PAIRS)
    {
      var candles := builder.FlushAll();
      for i := 0 to |candles|
        invariant store.files == AppendAll(old(store.files), candles[..i])
      {
        assert Init(candles[..i + 1]) == candles[..i];
        var _ := store.Append(candles[i]);
      }
      assert candles[..|candles|] == candles;
      FlushedByAppends(old(store.files), builder.buffers, PAIRS);
    }
  }

  function AppendAll(files: Files, candles: seq<CandleRecord>): Files {
    if candles == [] then files else AppendCandle(AppendAll(files, Init(candles)), Last(candles))
  }

  lemma SeedsStep(files: Files, i: nat)
    requires |files| == PAIRS && i < PAIRS
    ensures Seeds(files, i + 1)
            == if files[i] == [] then Seeds(files, i) else Seeds(files, i)[i := Some(Seeded(Last(files[i])))]
  {
  }

  lemma FlushedStep(files: Files, buffers: Buffers, i: nat)
    requires |files| == PAIRS && |buffers| == PAIRS && i < PAIRS
    ensures var before, live := Flushed(files, buffers, i), LiveOf(buffers[i], i / TF_COUNT, i % TF_COUNT);
            |before| == PAIRS && Flushed(files, buffers, i + 1) == before[i := before[i] + live]
  {
  }

  lemma FlushedNone(files: Files, buffers: Buffers)
    requires |files| == PAIRS && |buffers| == PAIRS
    ensures Flushed(files, buffers, 0) == files
  {
  }

  lemma PairOf(i: nat)
    requires i < PAIRS
    ensures FlatIndex(i / TF_COUNT, i % TF_COUNT) == i && i % TF_COUNT < TF_COUNT
  {
  }

  lemma FlushOne(files: Files, buf: CandleBuffer, i: nat)
    requires |files| == PAIRS && i < PAIRS
    ensures var candle := ToRecord(buf, i / TF_COUNT, i % TF_COUNT);
            AppendCandle(files, candle) == files[i := files[i] + [candle]]
  {
    PairOf(i);
  }

  lemma LiveRecordsStep(buffers: Buffers, i: nat)
    requires i < |buffers|
    ensures LiveRecords(buffers, i + 1) == LiveRecords(buffers, i) + LiveOf(buffers[i], i / TF_COUNT, i % TF_COUNT)
    ensures LiveRecords(buffers, 0) == []
  {
  }

  lemma AppendAllStep(files: Files, candles: seq<CandleRecord>, c: CandleRecord)
    ensures AppendAll(files, candles + [c]) == AppendCandle(AppendAll(files, candles), c)
  {
    assert Init(candles + [c]) == candles && Last(candles + [c]) == c;
  }

  /** Appending the flushed candles one by one puts each behind its own pair's file. */
  lemma {:induction false} FlushedByAppends(files: Files, buffers: Buffers, n: nat)
    requires |files| == PAIRS && |buffers| == PAIRS && n <= PAIRS
    ensures AppendAll(files, LiveRecords(buffers, n)) == Flushed(files, buffers, n)
  {
    if n == 0 {
      FlushedNone(files, buffers);
    } else {
      hide Flushed, LiveRecords, AppendAll, AppendCandle, ToRecord;
      var i := n - 1;
      FlushedByAppends(files, buffers, i);
      FlushedStep(files, buffers, i);
      LiveRecordsStep(buffers, i);
      var before := Flushed(files, buffers, i);
      if buffers[i].Some? {
        FlushOne(before, buffers[i].value, i);
        AppendAllStep(files, LiveRecords(buffers, i), ToRecord(buffers[i].value, i / TF_COUNT, i % TF_COUNT));
      } else {
        assert LiveRecords(buffers, n) == LiveRecords(buffers, i);
        assert before[i] + [] == before[i] && before[i := before[i]] == before;
      }
    }
  }

  predicate Sized(s: Db) {
    |s.files| == PAIRS && |s.buffers| == PAIRS && |s.latest| == MARKET_COUNT
  }

  ghost predicate Next(s: Db, step: Step, u: Db)
    requires Sized(s)
  {
    match step
    case Tick(t) =>
      && s.running && (t.market < MARKET_COUNT ==> s.latest[t.market] <= t.timestampNs)
      && u == Db(StoreClosed(s.files, OnTickOutputs(s.buffers, t)), NextBuffers(s.buffers, t, TF_COUNT), true,
                 if t.market < MARKET_COUNT then s.latest[t.market := t.timestampNs] else s.latest)
    case Shutdown => s.running && u == s.(files := Flushed(s.files, s.buffers, PAIRS))
    case Exit => s.running && u == s.(buffers := NoBuffers(), running := false)
    case Reopen => !s.running && u == s.(buffers := Seeds(s.files, PAIRS), running := true)
  }

  /** One pair: the file is in order, its last start and the buffer's start are bucket starts in
      this order, and neither lies after the market's latest tick. */
  ghost predicate PairOk(file: seq<CandleRecord>, buf: Option<CandleBuffer>, f: int -> int, latest: nat) {
    && InOrder(file)
    && (file != [] ==> f(Last(file).bar.start) == Last(file).bar.start && Last(file).bar.start <= latest)
    && (buf.Some? ==> f(buf.value.bar.start) == buf.value.bar.start && buf.value.bar.start <= latest
                      && (file != [] ==> Last(file).bar.start <= buf.value.bar.start))
  }

  ghost predicate PairAt(s: Db, market: nat, tf: nat)
    requires Sized(s)
    requires market < MARKET_COUNT && tf < TF_COUNT
  {
    PairOk(s.files[FlatIndex(market, tf)], s.buffers[FlatIndex(market, tf)], BucketOf(ALL[tf]), s.latest[market])
  }

  ghost predicate Inv(s: Db) {
    && Sized(s)
    && forall market, tf :: 0 <= market < MARKET_COUNT && 0 <= tf < TF_COUNT ==> PairAt(s, market, tf)
  }

  lemma InOrderSnoc(file: seq<CandleRecord>, c: CandleRecord)
    requires InOrder(file) && (file != [] ==> Last(file).bar.start <= c.bar.start)
    ensures InOrder(file + [c])
  {
    assert forall i :: 0 <= i < |file| ==> file[i].bar.start <= Last(file).bar.start;
  }

  /** A tick no older than the market's latest keeps a pair in order. */
  lemma TickPair(file: seq<CandleRecord>, buf: Option<CandleBuffer>, tf: nat, latest: nat, t: PriceTick)
    requires tf < TF_COUNT && PairOk(file, buf, BucketOf(ALL[tf]), latest) && latest <= t.timestampNs
    ensures PairOk(FileAfter(file, buf, BucketOf(ALL[tf]), t, tf), Some(StepBuffer(buf, BucketOf(ALL[tf]), t)),
                   BucketOf(ALL[tf]), t.timestampNs)
  {
    var d := DurationNs(ALL[tf]);
    BucketIdempotent(d, t.timestampNs);
    BucketBounds(d, t.timestampNs);
    if buf.Some? {
      BucketMonotone(d, buf.value.bar.start, t.timestampNs);
      InOrderSnoc(file, ToRecord(buf.value, t.market, tf));
    }
    if file != [] {
      BucketMonotone(d, Last(file).bar.start, t.timestampNs);
    }
  }

  lemma FlatIndexFacts(market: nat, tf: nat)
    requires market < MARKET_COUNT && tf < TF_COUNT
    ensures FlatIndex(market, tf) < PAIRS
    ensures FlatIndex(market, tf) / TF_COUNT == market && FlatIndex(market, tf) % TF_COUNT == tf
  {
  }

  lemma TickKeepsPair(s: Db, t: PriceTick, u: Db, market: nat, tf: nat)
    requires Inv(s) && Next(s, Tick(t), u) && market < MARKET_COUNT && tf < TF_COUNT
    ensures Sized(u) && PairAt(u, market, tf)
  {
    var i := FlatIndex(market, tf);
    FlatIndexFacts(market, tf);
    assert PairAt(s, market, tf);
    if t.market < MARKET_COUNT {
      TickStored(s.files, s.buffers, t, TF_COUNT, market, tf);
      if t.market == market {
        TickPair(s.files[i], s.buffers[i], tf, s.latest[market], t);
      }
    }
  }

  lemma StopKeepsPair(s: Db, step: Step, u: Db, market: nat, tf: nat)
    requires Inv(s) && Next(s, step, u) && !step.Tick? && market < MARKET_COUNT && tf < TF_COUNT
    ensures Sized(u) && PairAt(u, market, tf)
  {
    var i := FlatIndex(market, tf);
    FlatIndexFacts(market, tf);
    assert PairAt(s, market, tf);
    if step.Shutdown? && s.buffers[i].Some? {
      InOrderSnoc(s.files[i], ToRecord(s.buffers[i].value, market, tf));
    }
  }

  lemma InvNext(s: Db, step: Step, u: Db)
    requires Inv(s) && Next(s, step, u)
    ensures Inv(u)
  {
    forall market, tf | 0 <= market < MARKET_COUNT && 0 <= tf < TF_COUNT
      ensures Sized(u) && PairAt(u, market, tf)
    {
      if step.Tick? {
        TickKeepsPair(s, step.t, u, market, tf);
      } else {
        StopKeepsPair(s, step, u, market, tf);
      }
    }
    TickSizes(s, step, u);
  }

  lemma TickSizes(s: Db, step: Step, u: Db)
    requires Inv(s) && Next(s, step, u)
    ensures Sized(u)
  {
    if step.Tick? {
      TickKeepsPair(s, step.t, u, 0, 0);
    } else {
      StopKeepsPair(s, step, u, 0, 0);
    }
  }

  function FirstOpen(): Db {
    Db(NoFiles(), NoBuffers(), true, seq(MARKET_COUNT, _ => 0))
  }

  ghost predicate IsRun(states: seq<Db>, steps: seq<Step>) {
    && |states| == |steps| + 1 && states[0] == FirstOpen()
    && forall i :: 0 <= i < |steps| ==> Sized(states[i]) && Next(states[i], steps[i], states[i + 1])
  }

  /** Over every run of ticks, shutdowns, process ends (after a shutdown or by a crash) and
      reopenings with seeding, under per-market non-decreasing ticks, every candle file stays in
      timestamp order. */
  lemma {:induction false} FilesStayInOrder(states: seq<Db>, steps: seq<Step>, k: nat)
    requires IsRun(states, steps) && k < |states|
    ensures Inv(states[k])
  {
    if k > 0 {
      FilesStayInOrder(states, steps, k - 1);
      InvNext(states[k - 1], steps[k - 1], states[k]);
    }
  }

  /** So over any file a run produces the range query equals the plain filter, and the point query
      finds the last candle starting at or before the time asked for. */
  lemma QueriesAreRight(states: seq<Db>, steps: seq<Step>, k: nat, market: nat, tf: nat, startNs: int, endNs: int)
    requires IsRun(states, steps) && k < |states| && market < MARKET_COUNT && tf < TF_COUNT && startNs <= endNs
    ensures |states[k].files| == PAIRS && FlatIndex(market, tf) < PAIRS
    ensures var file := states[k].files[FlatIndex(market, tf)];
            && InOrder(file) && QueryCandleRange(file, startNs, endNs) == Some(Filter(file, startNs, endNs))
            && IsLastBefore(file, startNs, FindCandleAt(file, startNs))
  {
    FilesStayInOrder(states, steps, k);
    FlatIndexFacts(market, tf);
    assert PairAt(states[k], market, tf);
    RangeIsFilter(states[k].files[FlatIndex(market, tf)], startNs, endNs);
    FindIsLastBefore(states[k].files[FlatIndex(market, tf)], startNs);
  }

  /* ---------- a bucket stored twice ---------- */

  predicate Strict(file: seq<CandleRecord>) {
    forall i, j :: 0 <= i < j < |file| ==> file[i].bar.start < file[j].bar.start
  }

  /** The step appends the pair's buffered candle: a tick of its market in another bucket, or a
      shutdown. */
  predicate Stores(s: Db, step: Step, market: nat, tf: nat)
    requires Sized(s) && market < MARKET_COUNT && tf < TF_COUNT
  {
    var buf := s.buffers[FlatIndex(market, tf)];
    buf.Some? && (step.Shutdown? || (step.Tick? && step.t.market == market && !Continues(buf, BucketOf(ALL[tf]), step.t)))
  }

  /** It does so although the file already ends with a candle of that bucket. */
  predicate Repeats(s: Db, step: Step, market: nat, tf: nat)
    requires Sized(s) && market < MARKET_COUNT && tf < TF_COUNT
  {
    var i := FlatIndex(market, tf);
    Stores(s, step, market, tf) && s.files[i] != [] && Last(s.files[i]).bar.start == s.buffers[i].value.bar.start
  }

  /** What a step does to the file of one pair. */
  lemma StepFile(s: Db, step: Step, u: Db, market: nat, tf: nat)
    requires Sized(s) && Next(s, step, u) && market < MARKET_COUNT && tf < TF_COUNT
    ensures Sized(u)
    ensures var i := FlatIndex(market, tf);
            u.files[i] == if Stores(s, step, market, tf) then s.files[i] + [ToRecord(s.buffers[i].value, market, tf)]
                          else s.files[i]
  {
    var i := FlatIndex(market, tf);
    FlatIndexFacts(market, tf);
    if step.Tick? && step.t.market < MARKET_COUNT {
      TickStored(s.files, s.buffers, step.t, TF_COUNT, market, tf);
    }
  }

  lemma StrictSnoc(file: seq<CandleRecord>, c: CandleRecord)
    requires InOrder(file) && (file != [] ==> Last(file).bar.start <= c.bar.start)
    ensures Strict(file + [c]) <==> Strict(file) && (file == [] || Last(file).bar.start < c.bar.start)
  {
    var more := file + [c];
    assert forall i :: 0 <= i < |file| ==> more[i] == file[i];
    if Strict(more) && file != [] {
      assert more[|file| - 1].bar.start < more[|file|].bar.start;
    }
    assert forall i :: 0 <= i < |file| ==> file[i].bar.start <= Last(file).bar.start;
  }

  /** One step keeps a file free of repeated buckets if and only if it is not such a step. */
  lemma StrictStepIff(s: Db, step: Step, u: Db, market: nat, tf: nat)
    requires Inv(s) && Next(s, step, u) && market < MARKET_COUNT && tf < TF_COUNT
    ensures Sized(u) && FlatIndex(market, tf) < PAIRS
    ensures var i := FlatIndex(market, tf);
            Strict(u.files[i]) <==> Strict(s.files[i]) && !Repeats(s, step, market, tf)
  {
    hide InOrder, Strict, Next;
    var i := FlatIndex(market, tf);
    FlatIndexFacts(market, tf);
    StepFile(s, step, u, market, tf);
    assert PairAt(s, market, tf);
    if Stores(s, step, market, tf) {
      StrictSnoc(s.files[i], ToRecord(s.buffers[i].value, market, tf));
    }
  }

  /** No step of the run up to moment `k` repeats a bucket of the pair. */
  predicate NoRepeat(states: seq<Db>, steps: seq<Step>, k: nat, market: nat, tf: nat)
    requires k <= |steps| <= |states| && market < MARKET_COUNT && tf < TF_COUNT
    requires forall j :: 0 <= j < |steps| ==> Sized(states[j])
  {
    forall j :: 0 <= j < k ==> !Repeats(states[j], steps[j], market, tf)
  }

  /** Over sessions a file may hold a bucket twice.  At every moment of every run it holds each bucket
      once, in strictly increasing order, if and only if no step so far stored a candle whose bucket
      the file already ended with. */
  lemma {:induction false} OncePerBucketIff(states: seq<Db>, steps: seq<Step>, k: nat, market: nat, tf: nat)
    requires IsRun(states, steps) && k < |states| && market < MARKET_COUNT && tf < TF_COUNT
    ensures |states[k].files| == PAIRS && FlatIndex(market, tf) < PAIRS
    ensures Strict(states[k].files[FlatIndex(market, tf)]) <==> NoRepeat(states, steps, k, market, tf)
  {
    hide Next, Repeats, Strict, PairAt;
    FlatIndexFacts(market, tf);
    FilesStayInOrder(states, steps, k);
    if k == 0 {
      EmptyIsStrict(states[0].files[FlatIndex(market, tf)]);
    } else {
      OncePerBucketIff(states, steps, k - 1, market, tf);
      FilesStayInOrder(states, steps, k - 1);
      StrictStepIff(states[k - 1], steps[k - 1], states[k], market, tf);
    }
  }

  lemma EmptyIsStrict(file: seq<CandleRecord>)
    requires file == []
    ensures Strict(file)
  {
  }

  /** Such a step is near after every reopening: seeding puts the last stored candle back into the
      buffer, and the first tick in another bucket stores it again. */
  lemma SeededCandleRepeats(s: Db, u: Db, t: PriceTick, v: Db, market: nat, tf: nat)
    requires Sized(s) && Next(s, Reopen, u) && Sized(u) && Next(u, Tick(t), v)
    requires market < MARKET_COUNT && tf < TF_COUNT && t.market == market
    requires s.files[FlatIndex(market, tf)] != []
    requires BucketOf(ALL[tf])(t.timestampNs) != Last(s.files[FlatIndex(market, tf)]).bar.start
    ensures Sized(v)
    ensures var file := s.files[FlatIndex(market, tf)];
            && v.files[FlatIndex(market, tf)] == file + [ToRecord(Seeded(Last(file)), market, tf)]
            && ToRecord(Seeded(Last(file)), market, tf).bar == Last(file).bar
            && Repeats(u, Tick(t), market, tf)
  {
    FlatIndexFacts(market, tf);
    StepFile(u, Tick(t), v, market, tf);
  }
}
