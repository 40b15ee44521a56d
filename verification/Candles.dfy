/** The candle builder of `src/aggregation/candle_builder.rs` feeding the candle files of
    `src/storage/candle_store.rs`: 18 markets times 16 timeframes, one buffer and one file each. */
module Candles {
  import opened Collections
  import opened Types
  import opened Timeframes
  import opened Bars

  const PAIRS := MARKET_COUNT * TF_COUNT

  datatype CandleBuffer = CandleBuffer(bar: Bar, volume: real, tickCount: nat)

  datatype CandleRecord = CandleRecord(bar: Bar, volume: real, market: nat, timeframe: nat)

  datatype CandleOutput = Closed(candle: CandleRecord) | Live(candle: CandleRecord)

  type Buffers = seq<Option<CandleBuffer>>
  type Files = seq<seq<CandleRecord>>

  /** `flat_index`. */
  function FlatIndex(market: nat, tf: nat): nat {
    market * TF_COUNT + tf
  }

  function BucketFn(i: nat): int -> int
    requires i < PAIRS
  {
    BucketOf(ALL[i % TF_COUNT])
  }

  function TickBar(t: PriceTick): Bar {
    Bar(t.timestampNs, t.price, t.price, t.price, t.price)
  }

  /** `CandleBuffer::new` and `CandleBuffer::update`. */
  function NewBuffer(bucket: int, price: real): CandleBuffer {
    CandleBuffer(Bar(bucket, price, price, price, price), 0.0, 1)
  }

  function UpdateBuffer(buf: CandleBuffer, price: real): CandleBuffer {
    var b := buf.bar;
    CandleBuffer(b.(high := if price > b.high then price else b.high,
                    low := if price < b.low then price else b.low,
                    close := price),
                 buf.volume, buf.tickCount + 1)
  }

  function ToRecord(buf: CandleBuffer, market: nat, tf: nat): CandleRecord {
    CandleRecord(buf.bar, buf.volume, market, tf)
  }

  /** The tick stays in the buffer's bucket. */
  predicate Continues(buf: Option<CandleBuffer>, f: int -> int, t: PriceTick) {
    buf.Some? && buf.value.bar.start == f(t.timestampNs)
  }

  function StepBuffer(buf: Option<CandleBuffer>, f: int -> int, t: PriceTick): CandleBuffer {
    if Continues(buf, f, t) then UpdateBuffer(buf.value, t.price) else NewBuffer(f(t.timestampNs), t.price)
  }

  /** What one timeframe emits for one tick: a closed candle when the bucket changed, then the live one. */
  function StepOutputs(buf: Option<CandleBuffer>, f: int -> int, t: PriceTick, tf: nat): seq<CandleOutput> {
    (if buf.Some? && !Continues(buf, f, t) then [CandleOutput.Closed(ToRecord(buf.value, t.market, tf))] else [])
    + [Live(ToRecord(StepBuffer(buf, f, t), t.market, tf))]
  }

  /** The buffers after a tick whose market is handled for the first `n` timeframes. */
  function NextBuffers(buffers: Buffers, t: PriceTick, n: nat): Buffers
    requires |buffers| == PAIRS
  {
    seq(PAIRS, i requires 0 <= i < PAIRS =>
      if i / TF_COUNT == t.market && i % TF_COUNT < n
      then Some(StepBuffer(buffers[i], BucketFn(i), t)) else buffers[i])
  }

  function TickOutputs(buffers: Buffers, t: PriceTick, n: nat): seq<CandleOutput>
    requires |buffers| == PAIRS && t.market < MARKET_COUNT && n <= TF_COUNT
  {
    if n == 0 then []
    else
      var i := FlatIndex(t.market, n - 1);
      TickOutputs(buffers, t, n - 1) + StepOutputs(buffers[i], BucketOf(ALL[n - 1]), t, n - 1)
  }

  /** The whole output of `on_tick`; a tick of an unknown market has none. */
  function OnTickOutputs(buffers: Buffers, t: PriceTick): seq<CandleOutput>
    requires |buffers| == PAIRS
  {
    if t.market < MARKET_COUNT then TickOutputs(buffers, t, TF_COUNT) else []
  }

  function NoBuffers(): Buffers {
    seq(PAIRS, _ => None)
  }

  class CandleBuilder {
    var buffers: Buffers

    constructor ()
      ensures buffers == NoBuffers()
    {
      buffers := NoBuffers();
    }

    /** One pass over the 16 timeframes, updating the market's buffers in place. */
    method OnTick(t: PriceTick) returns (output: seq<CandleOutput>)
      requires |buffers| == PAIRS
      modifies this
      ensures buffers == NextBuffers(old(buffers), t, TF_COUNT)
      ensures output == OnTickOutputs(old(buffers), t)
    {
      hide ToRecord, NewBuffer, UpdateBuffer, NextBuffers;
      output := [];
      if t.market >= MARKET_COUNT {
        NextBuffersIdle(buffers, t, TF_COUNT);
        return;
      }
      NextBuffersIdle(buffers, t, 0);
      for tf := 0 to TF_COUNT
        invariant buffers == NextBuffers(old(buffers), t, tf)
        invariant output == TickOutputs(old(buffers), t, tf)
      {
        var bucket := BucketOf(ALL[tf])(t.timestampNs);
        var idx := FlatIndex(t.market, tf);
        NextBuffersStep(old(buffers), t, tf, idx);
        ghost var before := buffers;
        match buffers[idx] {
          case Some(buf) =>
            if buf.bar.start == bucket {
              buffers := buffers[idx := Some(UpdateBuffer(buf, t.price))];
              output := output + [Live(ToRecord(UpdateBuffer(buf, t.price), t.market, tf))];
            } else {
              output := output + [CandleOutput.Closed(ToRecord(buf, t.market, tf))];
              buffers := buffers[idx := Some(NewBuffer(bucket, t.price))];
              output := output + [Live(ToRecord(NewBuffer(bucket, t.price), t.market, tf))];
            }
          case None =>
            buffers := buffers[idx := Some(NewBuffer(bucket, t.price))];
            output := output + [Live(ToRecord(NewBuffer(bucket, t.price), t.market, tf))];
        }
        assert buffers == before[idx := Some(StepBuffer(old(buffers)[idx], BucketFn(idx), t))];
      }
    }

    /** `flush_all`: the live candles of all pairs, market by market. */
    method FlushAll() returns (out: seq<CandleRecord>)
      requires |buffers| == PAIRS
      ensures out == LiveRecords(buffers, PAIRS)
    {
      out := [];
      for market := 0 to MARKET_COUNT
        invariant out == LiveRecords(buffers, market * TF_COUNT)
      {
        for tf := 0 to TF_COUNT
          invariant out == LiveRecords(buffers, market * TF_COUNT + tf)
        {
          var idx := FlatIndex(market, tf);
          if buffers[idx].Some? {
            out := out + [ToRecord(buffers[idx].value, market, tf)];
          }
          assert idx / TF_COUNT == market && idx % TF_COUNT == tf;
        }
      }
    }

    method Seed(market: nat, tf: nat, candle: CandleRecord)
      requires |buffers| == PAIRS && tf < TF_COUNT
      modifies this
      ensures buffers == if FlatIndex(market, tf) < PAIRS
                         then old(buffers)[FlatIndex(market, tf) := Some(Seeded(candle))] else old(buffers)
    {
      var idx := FlatIndex(market, tf);
      if idx < |buffers| {
        buffers := buffers[idx := Some(CandleBuffer(candle.bar, candle.volume, 0))];
      }
    }
  }

  /** Nothing changes while no timeframe is handled, or for an unknown market. */
  lemma NextBuffersIdle(buffers: Buffers, t: PriceTick, n: nat)
    requires |buffers| == PAIRS && (n == 0 || t.market >= MARKET_COUNT)
    ensures NextBuffers(buffers, t, n) == buffers
  {
  }

  lemma NextBuffersStep(buffers: Buffers, t: PriceTick, tf: nat, idx: nat)
    requires |buffers| == PAIRS && t.market < MARKET_COUNT && tf < TF_COUNT && idx == FlatIndex(t.market, tf)
    ensures idx < PAIRS == |NextBuffers(buffers, t, tf)| && NextBuffers(buffers, t, tf)[idx] == buffers[idx]
    ensures BucketFn(idx) == BucketOf(ALL[tf])
    ensures NextBuffers(buffers, t, tf + 1)
            == NextBuffers(buffers, t, tf)[idx := Some(StepBuffer(buffers[idx], BucketFn(idx), t))]
  {
    assert idx / TF_COUNT == t.market && idx % TF_COUNT == tf;
    forall i | 0 <= i < PAIRS && i != idx
      ensures !(i / TF_COUNT == t.market && i % TF_COUNT == tf)
    {
    }
  }

  function Seeded(candle: CandleRecord): CandleBuffer {
    CandleBuffer(candle.bar, candle.volume, 0)
  }

  /** The live candles of the first `n` pairs. */
  function LiveRecords(buffers: Buffers, n: nat): seq<CandleRecord>
    requires n <= |buffers|
  {
    if n == 0 then []
    else
      var i := n - 1;
      LiveRecords(buffers, i)
      + if buffers[i].Some? then [ToRecord(buffers[i].value, i / TF_COUNT, i % TF_COUNT)] else []
  }

  /* ---------- the candle files ---------- */

  /** The file a candle goes to, by its own market and timeframe fields. */
  function FileOf(c: CandleRecord): nat {
    FlatIndex(c.market, c.timeframe)
  }

  /** The timeframe index is valid and the market is in range. */
  predicate Accepts(files: Files, c: CandleRecord) {
    c.timeframe < TF_COUNT && FileOf(c) < |files|
  }

  function AppendCandle(files: Files, c: CandleRecord): Files {
    if Accepts(files, c) then files[FileOf(c) := files[FileOf(c)] + [c]] else files
  }

  /** Overwrite the last candle when it has the same start, else append. */
  function Upsert(file: seq<CandleRecord>, c: CandleRecord): seq<CandleRecord> {
    if file != [] && Last(file).bar.start == c.bar.start then file[|file| - 1 := c] else file + [c]
  }

  function UpsertCandle(files: Files, c: CandleRecord): Files {
    if Accepts(files, c) then files[FileOf(c) := Upsert(files[FileOf(c)], c)] else files
  }

  class CandleStore {
    var files: Files

    constructor ()
      ensures files == NoFiles()
    {
      files := NoFiles();
    }

    method Latest(market: nat, tf: nat) returns (last: Option<CandleRecord>)
      ensures last == if FlatIndex(market, tf) < |files| && files[FlatIndex(market, tf)] != []
                      then Some(Last(files[FlatIndex(market, tf)])) else None
    {
      var idx := FlatIndex(market, tf);
      if idx >= |files| || files[idx] == [] {
        return None;
      }
      last := Some(files[idx][|files[idx]| - 1]);
    }

    method Append(c: CandleRecord) returns (ok: bool)
      modifies this
      ensures ok <==> Accepts(old(files), c)
      ensures files == AppendCandle(old(files), c)
    {
      if c.timeframe >= TF_COUNT || FileOf(c) >= |files| {
        return false;
      }
      files := files[FileOf(c) := files[FileOf(c)] + [c]];
      ok := true;
    }

    method Upsert(c: CandleRecord) returns (ok: bool)
      modifies this
      ensures ok <==> Accepts(old(files), c)
      ensures files == UpsertCandle(old(files), c)
    {
      if c.timeframe >= TF_COUNT || FileOf(c) >= |files| {
        return false;
      }
      var file := files[FileOf(c)];
      var count := |file|;
      if count > 0 && file[count - 1].bar.start == c.bar.start {
        files := files[FileOf(c) := file[count - 1 := c]];
      } else {
        files := files[FileOf(c) := file + [c]];
      }
      ok := true;
    }

    /** The persistence loop of `ingest_tick`: closed candles are appended, live ones ignored. */
    method AppendClosed(outputs: seq<CandleOutput>)
      modifies this
      ensures files == StoreClosed(old(files), outputs)
    {
      for i := 0 to |outputs|
        invariant files == StoreClosed(old(files), outputs[..i])
      {
        assert Init(outputs[..i + 1]) == outputs[..i] && Last(outputs[..i + 1]) == outputs[i];
        if outputs[i].Closed? {
          var _ := Append(outputs[i].candle);
        }
      }
      assert outputs[..|outputs|] == outputs;
    }
  }

  /** The engine's mode: append every closed candle of an output list. */
  function StoreClosed(files: Files, outputs: seq<CandleOutput>): Files {
    if outputs == [] then files
    else
      var before := StoreClosed(files, Init(outputs));
      if Last(outputs).Closed? then AppendCandle(before, Last(outputs).candle) else before
  }

  /** The other mode the store offers: upsert every live candle. */
  function StoreLive(files: Files, outputs: seq<CandleOutput>): Files {
    if outputs == [] then files
    else
      var before := StoreLive(files, Init(outputs));
      if Last(outputs).Live? then UpsertCandle(before, Last(outputs).candle) else before
  }

  lemma {:induction false} StoreClosedConcat(files: Files, a: seq<CandleOutput>, b: seq<CandleOutput>)
    ensures StoreClosed(files, a + b) == StoreClosed(StoreClosed(files, a), b)
    decreases |b|
  {
    if b == [] {
      assert a + b == a;
    } else {
      StoreClosedConcat(files, a, Init(b));
      assert Init(a + b) == a + Init(b) && Last(a + b) == Last(b);
    }
  }

  lemma {:induction false} StoreLiveConcat(files: Files, a: seq<CandleOutput>, b: seq<CandleOutput>)
    ensures StoreLive(files, a + b) == StoreLive(StoreLive(files, a), b)
    decreases |b|
  {
    if b == [] {
      assert a + b == a;
    } else {
      StoreLiveConcat(files, a, Init(b));
      assert Init(a + b) == a + Init(b) && Last(a + b) == Last(b);
    }
  }

  /** One pair's file after one tick, in append mode and in upsert mode. */
  function FileAfter(file: seq<CandleRecord>, buf: Option<CandleBuffer>, f: int -> int, t: PriceTick, tf: nat)
    : seq<CandleRecord>
  {
    if buf.Some? && !Continues(buf, f, t) then file + [ToRecord(buf.value, t.market, tf)] else file
  }

  function UpsertedAfter(file: seq<CandleRecord>, buf: Option<CandleBuffer>, f: int -> int, t: PriceTick, tf: nat)
    : seq<CandleRecord>
  {
    Upsert(file, ToRecord(StepBuffer(buf, f, t), t.market, tf))
  }

  lemma StepStored(files: Files, buf: Option<CandleBuffer>, f: int -> int, t: PriceTick, tf: nat)
    requires |files| == PAIRS && t.market < MARKET_COUNT && tf < TF_COUNT
    ensures var i := FlatIndex(t.market, tf);
            && i < PAIRS
            && StoreClosed(files, StepOutputs(buf, f, t, tf)) == files[i := FileAfter(files[i], buf, f, t, tf)]
            && StoreLive(files, StepOutputs(buf, f, t, tf)) == files[i := UpsertedAfter(files[i], buf, f, t, tf)]
  {
    var outs, i := StepOutputs(buf, f, t, tf), FlatIndex(t.market, tf);
    var live := Live(ToRecord(StepBuffer(buf, f, t), t.market, tf));
    assert files[i := files[i]] == files;
    if buf.Some? && !Continues(buf, f, t) {
      var closed := CandleOutput.Closed(ToRecord(buf.value, t.market, tf));
      assert outs == [closed, live] && Init(outs) == [closed] && Last(outs) == live;
      assert Init([closed]) == [] && Last([closed]) == closed;
      assert StoreClosed(files, [closed]) == AppendCandle(files, closed.candle) && StoreLive(files, [closed]) == files;
    } else {
      assert outs == [live] && Init(outs) == [] && Last(outs) == live;
    }
  }

  /** What the outputs of the first `n` timeframes do to the file of one pair. */
  ghost predicate StoredAt(files: Files, buffers: Buffers, t: PriceTick, n: nat, market: nat, tf: nat, c: Files, l: Files)
    requires |files| == PAIRS && |buffers| == PAIRS && market < MARKET_COUNT && tf < TF_COUNT
  {
    var i := FlatIndex(market, tf);
    && |c| == PAIRS && |l| == PAIRS
    && if market == t.market && tf < n
       then && c[i] == FileAfter(files[i], buffers[i], BucketOf(ALL[tf]), t, tf)
            && l[i] == UpsertedAfter(files[i], buffers[i], BucketOf(ALL[tf]), t, tf)
       else c[i] == files[i] && l[i] == files[i]
  }

  /** The outputs of one more timeframe touch one more file. */
  lemma OutputsStep(files: Files, buffers: Buffers, t: PriceTick, n: nat, c: Files, l: Files)
    requires |files| == PAIRS && |buffers| == PAIRS && t.market < MARKET_COUNT && n < TF_COUNT
    requires c == StoreClosed(files, TickOutputs(buffers, t, n)) && l == StoreLive(files, TickOutputs(buffers, t, n))
    requires |c| == PAIRS && |l| == PAIRS
    ensures var k, f := FlatIndex(t.market, n), BucketOf(ALL[n]);
            && StoreClosed(files, TickOutputs(buffers, t, n + 1)) == c[k := FileAfter(c[k], buffers[k], f, t, n)]
            && StoreLive(files, TickOutputs(buffers, t, n + 1)) == l[k := UpsertedAfter(l[k], buffers[k], f, t, n)]
  {
    var k, f := FlatIndex(t.market, n), BucketOf(ALL[n]);
    var init, outs := TickOutputs(buffers, t, n), StepOutputs(buffers[k], f, t, n);
    StoreClosedConcat(files, init, outs);
    StoreLiveConcat(files, init, outs);
    StepStored(c, buffers[k], f, t, n);
    StepStored(l, buffers[k], f, t, n);
  }

  /** The files after the outputs of the first `n` timeframes: each candle lands in its own pair's
      file and nothing else changes. */
  lemma {:induction false} TickStored(files: Files, buffers: Buffers, t: PriceTick, n: nat, market: nat, tf: nat)
    requires |files| == PAIRS && |buffers| == PAIRS && t.market < MARKET_COUNT && n <= TF_COUNT
    requires market < MARKET_COUNT && tf < TF_COUNT
    ensures StoredAt(files, buffers, t, n, market, tf,
                     StoreClosed(files, TickOutputs(buffers, t, n)), StoreLive(files, TickOutputs(buffers, t, n)))
    decreases n
  {
    hide FileAfter, UpsertedAfter, TickOutputs, StoreClosed, StoreLive;
    if n == 0 {
      StoredNothing(files, buffers, t, market, tf);
    } else {
      var c, l := StoreClosed(files, TickOutputs(buffers, t, n - 1)), StoreLive(files, TickOutputs(buffers, t, n - 1));
      TickStored(files, buffers, t, n - 1, market, tf);
      TickStored(files, buffers, t, n - 1, t.market, n - 1);
      OutputsStep(files, buffers, t, n - 1, c, l);
      StoredStep(files, buffers, t, n - 1, market, tf, c, l);
    }
  }

  lemma StoredNothing(files: Files, buffers: Buffers, t: PriceTick, market: nat, tf: nat)
    requires |files| == PAIRS && |buffers| == PAIRS && t.market < MARKET_COUNT && market < MARKET_COUNT && tf < TF_COUNT
    ensures StoredAt(files, buffers, t, 0, market, tf,
                     StoreClosed(files, TickOutputs(buffers, t, 0)), StoreLive(files, TickOutputs(buffers, t, 0)))
  {
  }

  lemma StoredStep(files: Files, buffers: Buffers, t: PriceTick, n: nat, market: nat, tf: nat, c: Files, l: Files)
    requires |files| == PAIRS && |buffers| == PAIRS && t.market < MARKET_COUNT && n < TF_COUNT
    requires market < MARKET_COUNT && tf < TF_COUNT
    requires StoredAt(files, buffers, t, n, market, tf, c, l) && StoredAt(files, buffers, t, n, t.market, n, c, l)
    ensures var k, f := FlatIndex(t.market, n), BucketOf(ALL[n]);
            StoredAt(files, buffers, t, n + 1, market, tf,
                     c[k := FileAfter(c[k], buffers[k], f, t, n)], l[k := UpsertedAfter(l[k], buffers[k], f, t, n)])
  {
  }

  /* ---------- a session ---------- */

  datatype Session = Session(files: Files, upserted: Files, buffers: Buffers)

  function NoFiles(): Files {
    seq(PAIRS, _ => [])
  }

  /** `ingest_tick`'s candle part, with the upsert mode run beside the engine's append mode. */
  function Ingest(s: Session, t: PriceTick): Session
    requires |s.buffers| == PAIRS
  {
    var outs := OnTickOutputs(s.buffers, t);
    Session(StoreClosed(s.files, outs), StoreLive(s.upserted, outs), NextBuffers(s.buffers, t, TF_COUNT))
  }

  function IngestAll(ticks: seq<PriceTick>): (s: Session)
    ensures |s.buffers| == PAIRS
  {
    if ticks == [] then Session(NoFiles(), NoFiles(), NoBuffers()) else Ingest(IngestAll(Init(ticks)), Last(ticks))
  }

  /** The bars of one market's ticks. */
  function MarketBars(ticks: seq<PriceTick>, market: nat): seq<Bar> {
    if ticks == [] then []
    else MarketBars(Init(ticks), market) + if Last(ticks).market == market then [TickBar(Last(ticks))] else []
  }

  function Records(bars: seq<Bar>, market: nat, tf: nat): seq<CandleRecord> {
    seq(|bars|, i requires 0 <= i < |bars| => CandleRecord(bars[i], 0.0, market, tf))
  }

  function LiveOf(buf: Option<CandleBuffer>, market: nat, tf: nat): seq<CandleRecord> {
    if buf.Some? then [ToRecord(buf.value, market, tf)] else []
  }

  /** One pair holds the stream: closed candles in the file, the last one live in the buffer; and
      the upserted file holds all of them. */
  ghost predicate Holds(file: seq<CandleRecord>, upserted: seq<CandleRecord>, buf: Option<CandleBuffer>,
                        bars: seq<Bar>, f: int -> int, market: nat, tf: nat) {
    && (buf.None? <==> bars == [])
    && file + LiveOf(buf, market, tf) == Records(Stream(f, bars), market, tf)
    && upserted == Records(Stream(f, bars), market, tf)
  }

  lemma UpdateIsMerge(buf: CandleBuffer, t: PriceTick)
    ensures UpdateBuffer(buf, t.price).bar == Merge(buf.bar, TickBar(t))
  {
  }

  /** One tick of the pair's own market pushes one bar. */
  lemma HoldsTick(file: seq<CandleRecord>, upserted: seq<CandleRecord>, buf: Option<CandleBuffer>,
                  bars: seq<Bar>, f: int -> int, t: PriceTick, tf: nat)
    requires Holds(file, upserted, buf, bars, f, t.market, tf)
    ensures Holds(FileAfter(file, buf, f, t, tf), UpsertedAfter(upserted, buf, f, t, tf),
                  Some(StepBuffer(buf, f, t)), bars + [TickBar(t)], f, t.market, tf)
  {
    hide Stream;
    var s, b, m := Stream(f, bars), TickBar(t), t.market;
    var all := bars + [b];
    StreamSnoc(f, bars, b);
    if buf.None? {
      assert s == [] && file == [] && upserted == [];
    } else {
      assert |file| + 1 == |s|;
      assert Last(Records(s, m, tf)) == ToRecord(buf.value, m, tf);
      assert buf.value.bar == Last(s) && buf.value.volume == 0.0;
      UpdateIsMerge(buf.value, t);
      assert file == Records(s, m, tf)[..|file|] == Records(Init(s), m, tf);
    }
  }

  /** Streaming aggregation, for every tick sequence, market and timeframe: the closed candles in
      the file followed by the live one are the stream of that market's ticks alone, and upserting
      every live candle leaves exactly the same records. */
  lemma {:induction false} SessionIsStream(ticks: seq<PriceTick>, market: nat, tf: nat)
    requires market < MARKET_COUNT && tf < TF_COUNT
    ensures var s, i := IngestAll(ticks), FlatIndex(market, tf);
            && i < PAIRS && |s.files| == PAIRS && |s.upserted| == PAIRS
            && Holds(s.files[i], s.upserted[i], s.buffers[i], MarketBars(ticks, market), BucketOf(ALL[tf]), market, tf)
  {
    var i := FlatIndex(market, tf);
    assert i / TF_COUNT == market && i % TF_COUNT == tf;
    if ticks == [] {
      assert Records([], market, tf) == [];
    } else {
      var init, t := Init(ticks), Last(ticks);
      SessionIsStream(init, market, tf);
      var s := IngestAll(init);
      if t.market < MARKET_COUNT {
        TickStored(s.files, s.buffers, t, TF_COUNT, market, tf);
        TickStored(s.upserted, s.buffers, t, TF_COUNT, market, tf);
        if t.market == market {
          HoldsTick(s.files[i], s.upserted[i], s.buffers[i], MarketBars(init, market), BucketOf(ALL[tf]), t, tf);
        } else {
          assert MarketBars(ticks, market) == MarketBars(init, market);
        }
      } else {
        assert MarketBars(ticks, market) == MarketBars(init, market);
      }
    }
  }

  /** Hence closed candles plus the live one are the first/max/min/last folds of the maximal
      same-bucket runs of that market's ticks, and both write modes store the same. */
  lemma SessionIsBatch(ticks: seq<PriceTick>, market: nat, tf: nat)
    requires market < MARKET_COUNT && tf < TF_COUNT
    ensures var s, i := IngestAll(ticks), FlatIndex(market, tf);
            && i < PAIRS && |s.files| == PAIRS && |s.upserted| == PAIRS
            && s.files[i] + LiveOf(s.buffers[i], market, tf)
               == Records(Batch(BucketOf(ALL[tf]), MarketBars(ticks, market)), market, tf)
            && s.upserted[i] == s.files[i] + LiveOf(s.buffers[i], market, tf)
  {
    SessionIsStream(ticks, market, tf);
    StreamIsBatch(BucketOf(ALL[tf]), MarketBars(ticks, market));
  }

  /* ---------- timeframes ---------- */

  lemma DurationsNest(a: int, b: int, ns: int)
    requires a > 0 && b > 0 && b % a == 0
    ensures Bucket(b * 1_000_000, Bucket(a * 1_000_000, ns)) == Bucket(b * 1_000_000, ns)
  {
    var k := b / a;
    assert b == a * k;
    assert k > 0;
    assert b * 1_000_000 == (a * 1_000_000) * k;
    BucketsNest(a * 1_000_000, k, ns);
  }

  lemma TimeframesNest(fine: Timeframe, coarse: Timeframe)
    requires DurationMs(coarse) % DurationMs(fine) == 0
    ensures Nests(BucketOf(fine), BucketOf(coarse))
  {
    forall ns
      ensures BucketOf(coarse)(BucketOf(fine)(ns)) == BucketOf(coarse)(ns)
    {
      DurationsNest(DurationMs(fine), DurationMs(coarse), ns);
    }
  }

  lemma TimeframeMonotone(tf: Timeframe)
    ensures Monotone(BucketOf(tf))
  {
    forall a, b | a <= b
      ensures BucketOf(tf)(a) <= BucketOf(tf)(b)
    {
      BucketMonotone(DurationNs(tf), a, b);
    }
  }

  /* ---------- sessions, in and out of order ---------- */

  function BarsOf(candles: seq<CandleRecord>): seq<Bar> {
    seq(|candles|, i requires 0 <= i < |candles| => candles[i].bar)
  }

  lemma BarsOfRecords(bars: seq<Bar>, market: nat, tf: nat)
    ensures BarsOf(Records(bars, market, tf)) == bars
  {
  }

  lemma TimeframesRollUp(bars: seq<Bar>, fine: Timeframe, coarse: Timeframe)
    requires DurationMs(coarse) % DurationMs(fine) == 0
    ensures Stream(BucketOf(coarse), bars) == Batch(BucketOf(coarse), Stream(BucketOf(fine), bars))
  {
    TimeframesNest(fine, coarse);
    RollUpBatch(BucketOf(fine), BucketOf(coarse), bars);
  }

  /** Whenever one timeframe's duration divides another's, the coarse candles of a session, stored
      and live, are the batch aggregation of its fine candles, stored and live, for every tick
      sequence. */
  lemma SessionRollsUp(ticks: seq<PriceTick>, market: nat, fine: nat, coarse: nat)
    requires market < MARKET_COUNT && fine < TF_COUNT && coarse < TF_COUNT
    requires DurationMs(ALL[coarse]) % DurationMs(ALL[fine]) == 0
    ensures var s, i, j := IngestAll(ticks), FlatIndex(market, fine), FlatIndex(market, coarse);
            && i < PAIRS && j < PAIRS && |s.files| == PAIRS
            && s.files[j] + LiveOf(s.buffers[j], market, coarse)
               == Records(Batch(BucketOf(ALL[coarse]), BarsOf(s.files[i] + LiveOf(s.buffers[i], market, fine))), market, coarse)
  {
    hide IngestAll, Stream, Batch, Records, BarsOf;
    SessionIsStream(ticks, market, fine);
    SessionIsStream(ticks, market, coarse);
    var bars := MarketBars(ticks, market);
    BarsOfRecords(Stream(BucketOf(ALL[fine]), bars), market, fine);
    TimeframesRollUp(bars, ALL[fine], ALL[coarse]);
  }

  /** The market's ticks arrive with non-decreasing times. */
  predicate InTime(ticks: seq<PriceTick>, market: nat) {
    forall i, j :: 0 <= i < j < |ticks| && ticks[i].market == market && ticks[j].market == market ==>
      ticks[i].timestampNs <= ticks[j].timestampNs
  }

  /** Some tick of the market falls into the bucket. */
  ghost predicate Occupied(ticks: seq<PriceTick>, market: nat, f: int -> int, start: int) {
    exists i :: 0 <= i < |ticks| && ticks[i].market == market && f(ticks[i].timestampNs) == start
  }

  lemma {:induction false} MarketBarsAreTicks(ticks: seq<PriceTick>, market: nat, k: nat) returns (i: nat)
    requires k < |MarketBars(ticks, market)|
    ensures i < |ticks| && ticks[i].market == market && MarketBars(ticks, market)[k] == TickBar(ticks[i])
  {
    var init := MarketBars(Init(ticks), market);
    if k < |init| {
      i := MarketBarsAreTicks(Init(ticks), market, k);
    } else {
      i := |ticks| - 1;
    }
  }

  lemma {:induction false} InTimeBars(ticks: seq<PriceTick>, market: nat)
    requires InTime(ticks, market)
    ensures Sorted(MarketBars(ticks, market))
  {
    if ticks != [] {
      var init := MarketBars(Init(ticks), market);
      InTimeBars(Init(ticks), market);
      forall k | 0 <= k < |init| && Last(ticks).market == market
        ensures init[k].start <= Last(ticks).timestampNs
      {
        var i := MarketBarsAreTicks(Init(ticks), market, k);
        assert Init(ticks)[i] == ticks[i];
      }
    }
  }

  lemma {:induction false} OccupiedBuckets(ticks: seq<PriceTick>, market: nat, f: int -> int, start: int)
    ensures HasBucket(f, MarketBars(ticks, market), start) <==> Occupied(ticks, market, f, start)
  {
    if ticks != [] {
      var init, t := Init(ticks), Last(ticks);
      OccupiedBuckets(init, market, f, start);
      if t.market == market {
        BucketsSnoc(f, MarketBars(init, market), TickBar(t), start);
      } else {
        assert MarketBars(ticks, market) == MarketBars(init, market);
      }
      if i :| 0 <= i < |init| && init[i].market == market && f(init[i].timestampNs) == start {
        assert ticks[i] == init[i];
      }
      if i :| 0 <= i < |ticks| && ticks[i].market == market && f(ticks[i].timestampNs) == start {
        if i < |init| {
          assert init[i] == ticks[i];
        }
      }
    }
  }

  /** In a session whose ticks arrive in time, every file followed by its live candle is strictly
      increasing and holds exactly one candle per bucket that a tick of its market falls into. */
  lemma SessionOnePerBucket(ticks: seq<PriceTick>, market: nat, tf: nat)
    requires market < MARKET_COUNT && tf < TF_COUNT && InTime(ticks, market)
    ensures var s, i := IngestAll(ticks), FlatIndex(market, tf);
            && i < PAIRS && |s.files| == PAIRS
            && var candles := s.files[i] + LiveOf(s.buffers[i], market, tf);
               && (forall a, b :: 0 <= a < b < |candles| ==> candles[a].bar.start < candles[b].bar.start)
               && (forall start :: (exists k :: 0 <= k < |candles| && candles[k].bar.start == start)
                                   <==> Occupied(ticks, market, BucketOf(ALL[tf]), start))
  {
    hide IngestAll, Stream, MarketBars, HasBucket, Occupied;
    SessionIsStream(ticks, market, tf);
    var f, bars := BucketOf(ALL[tf]), MarketBars(ticks, market);
    InTimeBars(ticks, market);
    TimeframeMonotone(ALL[tf]);
    OneCandlePerBucket(f, bars);
    var s, i := IngestAll(ticks), FlatIndex(market, tf);
    var candles, all := s.files[i] + LiveOf(s.buffers[i], market, tf), Stream(f, bars);
    assert candles == Records(all, market, tf);
    forall start
      ensures (exists k :: 0 <= k < |candles| && candles[k].bar.start == start) <==> Occupied(ticks, market, f, start)
    {
      OccupiedBuckets(ticks, market, f, start);
      if k :| 0 <= k < |all| && all[k].start == start {
        assert candles[k].bar.start == start;
      }
      if k :| 0 <= k < |candles| && candles[k].bar.start == start {
        assert all[k].start == start;
      }
    }
  }

  /* ---------- a candle and its ticks ---------- */

  /** The ticks of the market that fall into the bucket, in order. */
  function TicksIn(ticks: seq<PriceTick>, market: nat, f: int -> int, start: int): seq<PriceTick> {
    if ticks == [] then []
    else TicksIn(Init(ticks), market, f, start)
         + if Last(ticks).market == market && f(Last(ticks).timestampNs) == start then [Last(ticks)] else []
  }

  function TickBars(ticks: seq<PriceTick>): seq<Bar> {
    seq(|ticks|, i requires 0 <= i < |ticks| => TickBar(ticks[i]))
  }

  lemma {:induction false} BucketBars(ticks: seq<PriceTick>, market: nat, f: int -> int, start: int)
    ensures InBucket(f, MarketBars(ticks, market), start) == TickBars(TicksIn(ticks, market, f, start))
  {
    if ticks != [] {
      var init, t := Init(ticks), Last(ticks);
      BucketBars(init, market, f, start);
      if t.market == market {
        var bars := MarketBars(init, market) + [TickBar(t)];
        assert MarketBars(ticks, market) == bars && Init(bars) == MarketBars(init, market) && Last(bars) == TickBar(t);
      } else {
        assert MarketBars(ticks, market) == MarketBars(init, market);
      }
    }
  }

  /** The candle of these ticks: the first price, the last, and the extremes in between. */
  ghost predicate IsCandleOf(c: Bar, ticks: seq<PriceTick>) {
    && ticks != [] && c.open == ticks[0].price && c.close == ticks[|ticks| - 1].price
    && (forall i :: 0 <= i < |ticks| ==> c.low <= ticks[i].price <= c.high)
    && (exists i :: 0 <= i < |ticks| && ticks[i].price == c.high)
    && (exists i :: 0 <= i < |ticks| && ticks[i].price == c.low)
  }

  lemma SummaryOfTicks(f: int -> int, ticks: seq<PriceTick>)
    requires ticks != []
    ensures IsCandleOf(Summary(f, TickBars(ticks)), ticks)
  {
    var bars := TickBars(ticks);
    var c := Summary(f, bars);
    assert forall i :: 0 <= i < |bars| ==> bars[i].high == bars[i].low == ticks[i].price;
    var h :| 0 <= h < |bars| && bars[h].high == Highest(bars);
    var l :| 0 <= l < |bars| && bars[l].low == Lowest(bars);
    assert ticks[h].price == c.high && ticks[l].price == c.low;
    assert forall i :: 0 <= i < |ticks| ==> bars[i].high <= c.high && c.low <= bars[i].low;
  }

  /** In a session whose ticks arrive in time, every candle of a file, the live one included, is the
      candle of exactly the market's ticks that fall into its bucket. */
  lemma CandleIsItsTicks(ticks: seq<PriceTick>, market: nat, tf: nat, k: nat)
    requires market < MARKET_COUNT && tf < TF_COUNT && InTime(ticks, market)
    requires var s, i := IngestAll(ticks), FlatIndex(market, tf);
             i < PAIRS && |s.files| == PAIRS && k < |s.files[i] + LiveOf(s.buffers[i], market, tf)|
    ensures var s, i := IngestAll(ticks), FlatIndex(market, tf);
            var c := (s.files[i] + LiveOf(s.buffers[i], market, tf))[k].bar;
            IsCandleOf(c, TicksIn(ticks, market, BucketOf(ALL[tf]), c.start))
  {
    hide IngestAll, Batch, MarketBars, TicksIn, Summary, IsCandleOf, InBucket, TickBars;
    SessionIsBatch(ticks, market, tf);
    var f, bars := BucketOf(ALL[tf]), MarketBars(ticks, market);
    InTimeBars(ticks, market);
    TimeframeMonotone(ALL[tf]);
    CandleOfBucket(f, bars, k);
    var c := Batch(f, bars)[k];
    assert SumsUp(c, f, bars);
    BucketBars(ticks, market, f, c.start);
    NoBars(TicksIn(ticks, market, f, c.start));
    SummaryOfTicks(f, TicksIn(ticks, market, f, c.start));
  }

  lemma NoBars(ticks: seq<PriceTick>)
    ensures TickBars(ticks) == [] <==> ticks == []
  {
    assert |TickBars(ticks)| == |ticks|;
  }

  /** The market's ticks of the `p`-th stretch of so many days, counted from 1 January 1970. */
  function TicksOfDays(ticks: seq<PriceTick>, market: nat, days: nat, p: int): seq<PriceTick>
    requires days > 0
  {
    if ticks == [] then []
    else TicksOfDays(Init(ticks), market, days, p)
         + if Last(ticks).market == market && StretchOf(Last(ticks).timestampNs, days) == p then [Last(ticks)] else []
  }

  lemma {:induction false} CalendarTicks(ticks: seq<PriceTick>, market: nat, tf: Timeframe, p: int)
    requires tf == Day1 || tf == Week1
    ensures var days := if tf == Day1 then 1 else 7;
            TicksIn(ticks, market, BucketOf(tf), StretchStart(p, days)) == TicksOfDays(ticks, market, days, p)
  {
    if ticks != [] {
      hide BucketOf, StretchOf, StretchStart;
      var days := if tf == Day1 then 1 else 7;
      CalendarTicks(Init(ticks), market, tf, p);
      CalendarBucket(tf, Last(ticks).timestampNs);
      StretchesDiffer(StretchOf(Last(ticks).timestampNs, days), p, days);
    }
  }

  /** So in such a session every daily candle starts at midnight of some day and is the candle of
      exactly that day's ticks; every weekly one of the ticks of seven days. */
  lemma CalendarCandle(ticks: seq<PriceTick>, market: nat, tf: nat, k: nat) returns (p: int)
    requires market < MARKET_COUNT && 14 <= tf <= 15 && InTime(ticks, market)
    requires var s, i := IngestAll(ticks), FlatIndex(market, tf);
             i < PAIRS && |s.files| == PAIRS && k < |s.files[i] + LiveOf(s.buffers[i], market, tf)|
    ensures var s, i, days := IngestAll(ticks), FlatIndex(market, tf), if tf == 14 then 1 else 7;
            var c := (s.files[i] + LiveOf(s.buffers[i], market, tf))[k].bar;
            c.start == StretchStart(p, days) && IsCandleOf(c, TicksOfDays(ticks, market, days, p))
  {
    hide IngestAll, IsCandleOf, TicksOfDays, BucketOf, LiveOf, InTime;
    assert ALL[14] == Day1 && ALL[15] == Week1;
    var s, i, days := IngestAll(ticks), FlatIndex(market, tf), if tf == 14 then 1 else 7;
    var c := (s.files[i] + LiveOf(s.buffers[i], market, tf))[k].bar;
    CandleIsItsTicks(ticks, market, tf, k);
    var j := SomeTick(ticks, market, BucketOf(ALL[tf]), c.start, c);
    CalendarBucket(ALL[tf], ticks[j].timestampNs);
    p := StretchOf(ticks[j].timestampNs, days);
    CalendarTicks(ticks, market, ALL[tf], p);
  }

  lemma {:induction false} SomeTick(ticks: seq<PriceTick>, market: nat, f: int -> int, start: int, c: Bar) returns (j: nat)
    requires IsCandleOf(c, TicksIn(ticks, market, f, start))
    ensures j < |ticks| && f(ticks[j].timestampNs) == start
  {
    j := TickFound(ticks, market, f, start);
  }

  lemma {:induction false} TickFound(ticks: seq<PriceTick>, market: nat, f: int -> int, start: int) returns (j: nat)
    requires TicksIn(ticks, market, f, start) != []
    ensures j < |ticks| && f(ticks[j].timestampNs) == start
  {
    if Last(ticks).market == market && f(Last(ticks).timestampNs) == start {
      j := |ticks| - 1;
    } else {
      j := TickFound(Init(ticks), market, f, start);
    }
  }
}
