/** Price bars, their aggregation into buckets, and the two ways of computing it: streaming, one
    bar at a time, and in one batch over maximal runs. */
module Bars {
  /** One open/high/low/close bar; a tick is a bar of a single price. */
  datatype Bar = Bar(start: int, open: real, high: real, low: real, close: real)

  /** Extend a bar by a later one. */
  function Merge(x: Bar, b: Bar): Bar {
    x.(high := if b.high > x.high then b.high else x.high,
       low := if b.low < x.low then b.low else x.low,
       close := b.close)
  }

  function At(f: int -> int, b: Bar): Bar
  {
    b.(start := f(b.start))
  }

  function Last<T>(s: seq<T>): T
    requires s != []
  {
    s[|s| - 1]
  }

  function Init<T>(s: seq<T>): seq<T>
    requires s != []
  {
    s[..|s| - 1]
  }

  /* ---------- streaming ---------- */

  /** One step: update the last bar when the bucket is the same, else start a new one. */
  function Push(f: int -> int, acc: seq<Bar>, b: Bar): seq<Bar>
  {
    if acc != [] && Last(acc).start == f(b.start) then Init(acc) + [Merge(Last(acc), b)]
    else acc + [At(f, b)]
  }

  /** All bars so far, the live one last. */
  function Stream(f: int -> int, bars: seq<Bar>): seq<Bar>
  {
    if bars == [] then [] else Push(f, Stream(f, Init(bars)), Last(bars))
  }

  lemma StreamSnoc(f: int -> int, bars: seq<Bar>, b: Bar)
    ensures Stream(f, bars + [b]) == Push(f, Stream(f, bars), b)
    ensures Stream(f, []) == []
  {
    assert Init(bars + [b]) == bars && Last(bars + [b]) == b;
  }

  lemma {:induction false} StreamLast(f: int -> int, bars: seq<Bar>)
    requires bars != []
    ensures Stream(f, bars) != [] && Last(Stream(f, bars)).start == f(Last(bars).start)
  {
  }

  /* ---------- batch ---------- */

  /** Length of the longest front part that stays in one bucket. */
  function RunLength(f: int -> int, bars: seq<Bar>): (n: nat)
    requires bars != []
    ensures 0 < n <= |bars|
    ensures forall i :: 0 <= i < n ==> f(bars[i].start) == f(bars[0].start)
    ensures n < |bars| ==> f(bars[n].start) != f(bars[0].start)
  {
    if |bars| == 1 || f(bars[1].start) != f(bars[0].start) then 1
    else 1 + RunLength(f, bars[1..])
  }

  function Highest(run: seq<Bar>): (h: real)
    requires run != []
    ensures (exists i :: 0 <= i < |run| && run[i].high == h) && forall i :: 0 <= i < |run| ==> run[i].high <= h
  {
    if |run| == 1 then run[0].high
    else var h := Highest(Init(run)); if Last(run).high > h then Last(run).high else h
  }

  function Lowest(run: seq<Bar>): (l: real)
    requires run != []
    ensures (exists i :: 0 <= i < |run| && run[i].low == l) && forall i :: 0 <= i < |run| ==> l <= run[i].low
  {
    if |run| == 1 then run[0].low
    else var l := Lowest(Init(run)); if Last(run).low < l then Last(run).low else l
  }

  /** First open, highest high, lowest low, last close. */
  function Summary(f: int -> int, run: seq<Bar>): Bar
    requires run != []
  {
    Bar(f(run[0].start), run[0].open, Highest(run), Lowest(run), Last(run).close)
  }

  /** The summaries of the maximal same-bucket runs. */
  function Batch(f: int -> int, bars: seq<Bar>): seq<Bar>
  {
    if bars == [] then []
    else var n := RunLength(f, bars); [Summary(f, bars[..n])] + Batch(f, bars[n..])
  }

  lemma SummarySnoc(f: int -> int, run: seq<Bar>, b: Bar)
    requires run != []
    ensures Summary(f, run + [b]) == Merge(Summary(f, run), b)
  {
    assert Init(run + [b]) == run;
  }

  lemma SummaryOne(f: int -> int, b: Bar)
    ensures Summary(f, [b]) == At(f, b)
  {
  }

  /** Where the front run ends when one more bar arrives. */
  lemma {:induction false} RunLengthSnoc(f: int -> int, bars: seq<Bar>, b: Bar)
    requires bars != []
    ensures RunLength(f, bars + [b]) ==
            if RunLength(f, bars) == |bars| && f(b.start) == f(bars[0].start)
            then |bars| + 1 else RunLength(f, bars)
  {
    RunLengthIs(f, bars + [b],
                if RunLength(f, bars) == |bars| && f(b.start) == f(bars[0].start)
                then |bars| + 1 else RunLength(f, bars));
  }

  lemma RunLengthIs(f: int -> int, bars: seq<Bar>, n: nat)
    requires 0 < n <= |bars|
    requires forall i :: 0 <= i < n ==> f(bars[i].start) == f(bars[0].start)
    requires n < |bars| ==> f(bars[n].start) != f(bars[0].start)
    ensures RunLength(f, bars) == n
  {
  }

  lemma BatchOfRun(f: int -> int, run: seq<Bar>)
    requires run != [] && RunLength(f, run) == |run|
    ensures Batch(f, run) == [Summary(f, run)]
  {
    assert run[..|run|] == run && run[|run|..] == [];
  }

  lemma BatchOfOne(f: int -> int, b: Bar)
    ensures Batch(f, [b]) == [At(f, b)]
  {
    BatchOfRun(f, [b]);
    SummaryOne(f, b);
  }

  lemma PushBehind(f: int -> int, x: Bar, rest: seq<Bar>, b: Bar)
    requires rest != []
    ensures Push(f, [x] + rest, b) == [x] + Push(f, rest, b)
    ensures Last([x] + rest) == Last(rest)
  {
    assert Init([x] + rest) == [x] + Init(rest);
  }

  /** The bars form a single run: the new bar extends it or starts the second one. */
  lemma BatchSnocRun(f: int -> int, run: seq<Bar>, b: Bar)
    requires run != [] && RunLength(f, run) == |run|
    ensures Batch(f, run + [b]) == Push(f, [Summary(f, run)], b)
  {
    var all := run + [b];
    RunLengthSnoc(f, run, b);
    if f(b.start) == f(run[0].start) {
      BatchOfRun(f, all);
      SummarySnoc(f, run, b);
    } else {
      assert all[..|run|] == run && all[|run|..] == [b];
      BatchOfOne(f, b);
    }
  }

  /** One more bar extends the last run or starts a new one. */
  lemma {:induction false} BatchSnoc(f: int -> int, bars: seq<Bar>, b: Bar)
    ensures Batch(f, bars + [b]) == Push(f, Batch(f, bars), b)
    decreases |bars|
  {
    if bars == [] {
      assert bars + [b] == [b];
      BatchOfOne(f, b);
    } else {
      var n := RunLength(f, bars);
      if n == |bars| {
        BatchOfRun(f, bars);
        BatchSnocRun(f, bars, b);
      } else {
        RunLengthSnoc(f, bars, b);
        var all := bars + [b];
        assert all[..n] == bars[..n] && all[n..] == bars[n..] + [b];
        BatchSnoc(f, bars[n..], b);
        PushBehind(f, Summary(f, bars[..n]), Batch(f, bars[n..]), b);
      }
    }
  }

  /** Streaming equals batch, for every sequence of bars. */
  lemma {:induction false} StreamIsBatch(f: int -> int, bars: seq<Bar>)
    ensures Stream(f, bars) == Batch(f, bars)
  {
    if bars != [] {
      hide Stream, Batch, Push;
      var init, b := Init(bars), Last(bars);
      assert bars == init + [b];
      StreamIsBatch(f, init);
      StreamSnoc(f, init, b);
      BatchSnoc(f, init, b);
    }
  }

  /* ---------- rolling up ---------- */

  lemma MergeAssociative(x: Bar, y: Bar, z: Bar)
    ensures Merge(Merge(x, y), z) == Merge(x, Merge(y, z))
  {
  }

  /** Pushing `x` extended by `b` is pushing `x` and then `b`, when `b` belongs to `x`'s bucket. */
  lemma PushMerged(f: int -> int, acc: seq<Bar>, x: Bar, b: Bar)
    requires f(x.start) == f(b.start)
    ensures Push(f, acc, Merge(x, b)) == Push(f, Push(f, acc, x), b)
  {
    var a := Push(f, acc, x);
    assert Last(a).start == f(x.start);
    if acc != [] && Last(acc).start == f(x.start) {
      MergeAssociative(Last(acc), x, b);
      assert Init(a) == Init(acc);
    } else {
      assert Init(a) == acc;
    }
  }

  /** Every fine bucket lies inside one coarse bucket. */
  ghost predicate Nests(fine: int -> int, coarse: int -> int) {
    forall ns :: coarse(fine(ns)) == coarse(ns)
  }

  /** Pushing a bar into the fine candles and streaming those is streaming them and pushing the bar. */
  lemma PushThrough(fine: int -> int, coarse: int -> int, s: seq<Bar>, b: Bar)
    requires Nests(fine, coarse)
    ensures Stream(coarse, Push(fine, s, b)) == Push(coarse, Stream(coarse, s), b)
  {
    hide Stream;
    assert coarse(fine(b.start)) == coarse(b.start);
    if s != [] && Last(s).start == fine(b.start) {
      var front, x := Init(s), Last(s);
      assert s == front + [x];
      StreamSnoc(coarse, front, x);
      StreamSnoc(coarse, front, Merge(x, b));
      PushMerged(coarse, Stream(coarse, front), x, b);
    } else {
      StreamSnoc(coarse, s, At(fine, b));
    }
  }

  /** Roll-up: where fine buckets nest in coarse ones, aggregating the fine candles gives exactly
      the coarse candles, for every sequence of bars, sorted or not. */
  lemma {:induction false} RollUp(fine: int -> int, coarse: int -> int, bars: seq<Bar>)
    requires Nests(fine, coarse)
    ensures Stream(coarse, Stream(fine, bars)) == Stream(coarse, bars)
  {
    if bars != [] {
      hide Stream, Push;
      var init, b := Init(bars), Last(bars);
      assert bars == init + [b];
      RollUp(fine, coarse, init);
      StreamSnoc(fine, init, b);
      StreamSnoc(coarse, init, b);
      PushThrough(fine, coarse, Stream(fine, init), b);
    }
  }

  /** Read with `StreamIsBatch`: each coarse candle is the first open, highest high, lowest low and
      last close of the consecutive fine candles whose start falls in its bucket. */
  lemma RollUpBatch(fine: int -> int, coarse: int -> int, bars: seq<Bar>)
    requires Nests(fine, coarse)
    ensures Batch(coarse, Stream(fine, bars)) == Stream(coarse, bars)
  {
    RollUp(fine, coarse, bars);
    StreamIsBatch(coarse, Stream(fine, bars));
  }

  /* ---------- sorted input ---------- */

  predicate Sorted(bars: seq<Bar>) {
    forall i, j :: 0 <= i < j < |bars| ==> bars[i].start <= bars[j].start
  }

  predicate StrictlySorted(bars: seq<Bar>) {
    forall i, j :: 0 <= i < j < |bars| ==> bars[i].start < bars[j].start
  }

  ghost predicate Monotone(f: int -> int) {
    forall a, b :: a <= b ==> f(a) <= f(b)
  }

  ghost predicate HasBucket(f: int -> int, bars: seq<Bar>, start: int)
  {
    exists i :: 0 <= i < |bars| && f(bars[i].start) == start
  }

  /** With non-decreasing timestamps there is exactly one candle per occupied bucket, in strictly
      increasing order. */
  lemma {:induction false} OneCandlePerBucket(f: int -> int, bars: seq<Bar>)
    requires Monotone(f) && Sorted(bars)
    ensures StrictlySorted(Stream(f, bars))
    ensures forall start :: (exists i :: 0 <= i < |Stream(f, bars)| && Stream(f, bars)[i].start == start)
                            <==> HasBucket(f, bars, start)
  {
    if bars != [] {
      hide Stream, Push, HasBucket;
      var init, b := Init(bars), Last(bars);
      assert bars == init + [b];
      OneCandlePerBucket(f, init);
      var s, t := Stream(f, init), Stream(f, bars);
      StreamSnoc(f, init, b);
      if init != [] {
        StreamLast(f, init);
        assert f(Last(init).start) <= f(b.start);
      }
      PushStrictly(f, s, b);
      forall start
        ensures (exists i :: 0 <= i < |t| && t[i].start == start) <==> HasBucket(f, bars, start)
      {
        StartsSnoc(s, t, f(b.start), start);
        BucketsSnoc(f, init, b, start);
      }
    }
  }

  lemma PushStrictly(f: int -> int, s: seq<Bar>, b: Bar)
    requires StrictlySorted(s) && (s != [] ==> Last(s).start <= f(b.start))
    ensures var t := Push(f, s, b);
            && StrictlySorted(t) && |s| <= |t| <= |s| + 1 && t != [] && Last(t).start == f(b.start)
            && forall i :: 0 <= i < |s| ==> t[i].start == s[i].start
  {
  }

  lemma StartsSnoc(s: seq<Bar>, t: seq<Bar>, b: int, start: int)
    requires |s| <= |t| <= |s| + 1 && t != [] && Last(t).start == b
    requires forall i :: 0 <= i < |s| ==> t[i].start == s[i].start
    ensures (exists i :: 0 <= i < |t| && t[i].start == start) <==>
            (exists i :: 0 <= i < |s| && s[i].start == start) || start == b
  {
    if i :| 0 <= i < |s| && s[i].start == start {
      assert t[i].start == start;
    }
    if start == b {
      assert t[|t| - 1].start == start;
    }
    if i :| 0 <= i < |t| && t[i].start == start {
      if i < |s| {
        assert s[i].start == start;
      }
    }
  }

  lemma BucketsSnoc(f: int -> int, init: seq<Bar>, b: Bar, start: int)
    ensures HasBucket(f, init + [b], start) <==> HasBucket(f, init, start) || start == f(b.start)
  {
    var bars := init + [b];
    if i :| 0 <= i < |init| && f(init[i].start) == start {
      assert f(bars[i].start) == start;
    }
    if start == f(b.start) {
      assert f(bars[|init|].start) == start;
    }
    if i :| 0 <= i < |bars| && f(bars[i].start) == start {
      if i < |init| {
        assert f(init[i].start) == start;
      }
    }
  }

  /* ---------- one bucket at a time ---------- */

  /** The bars of one bucket, in order. */
  function InBucket(f: int -> int, bars: seq<Bar>, start: int): seq<Bar> {
    if bars == [] then []
    else InBucket(f, Init(bars), start) + if f(Last(bars).start) == start then [Last(bars)] else []
  }

  lemma {:induction false} InBucketAll(f: int -> int, bars: seq<Bar>, start: int)
    requires forall i :: 0 <= i < |bars| ==> f(bars[i].start) == start
    ensures InBucket(f, bars, start) == bars
  {
    if bars != [] {
      InBucketAll(f, Init(bars), start);
    }
  }

  lemma {:induction false} InBucketNone(f: int -> int, bars: seq<Bar>, start: int)
    requires forall i :: 0 <= i < |bars| ==> f(bars[i].start) != start
    ensures InBucket(f, bars, start) == []
  {
    if bars != [] {
      InBucketNone(f, Init(bars), start);
    }
  }

  lemma {:induction false} InBucketConcat(f: int -> int, a: seq<Bar>, b: seq<Bar>, start: int)
    ensures InBucket(f, a + b, start) == InBucket(f, a, start) + InBucket(f, b, start)
    decreases |b|
  {
    if b == [] {
      assert a + b == a;
    } else {
      InBucketConcat(f, a, Init(b), start);
      assert Init(a + b) == a + Init(b) && Last(a + b) == Last(b);
    }
  }

  /** A candle's start is the bucket of one of the bars. */
  lemma {:induction false} BatchStarts(f: int -> int, bars: seq<Bar>, k: nat) returns (i: nat)
    requires k < |Batch(f, bars)|
    ensures i < |bars| && f(bars[i].start) == Batch(f, bars)[k].start
    decreases |bars|
  {
    var n := RunLength(f, bars);
    if k == 0 {
      i := 0;
    } else {
      var j := BatchStarts(f, bars[n..], k - 1);
      i := n + j;
      assert bars[n..][j] == bars[i];
    }
  }

  lemma BucketOfFront(f: int -> int, front: seq<Bar>, rest: seq<Bar>, start: int)
    requires forall i :: 0 <= i < |front| ==> f(front[i].start) == start
    requires forall i :: 0 <= i < |rest| ==> f(rest[i].start) != start
    ensures InBucket(f, front + rest, start) == front
  {
    hide InBucket;
    InBucketConcat(f, front, rest, start);
    InBucketAll(f, front, start);
    InBucketNone(f, rest, start);
  }

  lemma BucketOfRest(f: int -> int, front: seq<Bar>, rest: seq<Bar>, start: int)
    requires forall i :: 0 <= i < |front| ==> f(front[i].start) != start
    ensures InBucket(f, front + rest, start) == InBucket(f, rest, start)
  {
    hide InBucket;
    InBucketConcat(f, front, rest, start);
    InBucketNone(f, front, start);
  }

  /** The candle `c` is the summary of all bars of its bucket: first open, highest high, lowest low,
      last close. */
  ghost predicate SumsUp(c: Bar, f: int -> int, bars: seq<Bar>) {
    InBucket(f, bars, c.start) != [] && c == Summary(f, InBucket(f, bars, c.start))
  }

  /** On bars in time every candle sums up its bucket. */
  lemma {:induction false} CandleOfBucket(f: int -> int, bars: seq<Bar>, k: nat)
    requires Monotone(f) && Sorted(bars) && k < |Batch(f, bars)|
    ensures SumsUp(Batch(f, bars)[k], f, bars)
    decreases |bars|
  {
    hide Batch, InBucket, Summary, RunLength, SumsUp;
    BatchSplits(f, bars);
    var n := RunLength(f, bars);
    var front, rest, c := bars[..n], bars[n..], Batch(f, bars)[k];
    assert bars == front + rest;
    RestIsLater(f, bars, n);
    if k == 0 {
      BucketOfFront(f, front, rest, c.start);
      FrontSumsUp(f, bars, front);
    } else {
      CandleOfBucket(f, rest, k - 1);
      var j := BatchStarts(f, rest, k - 1);
      BucketOfRest(f, front, rest, c.start);
      RestSumsUp(c, f, bars, rest);
    }
  }

  lemma FrontSumsUp(f: int -> int, bars: seq<Bar>, front: seq<Bar>)
    requires front != [] && InBucket(f, bars, Summary(f, front).start) == front
    ensures SumsUp(Summary(f, front), f, bars)
  {
  }

  lemma RestSumsUp(c: Bar, f: int -> int, bars: seq<Bar>, rest: seq<Bar>)
    requires SumsUp(c, f, rest) && InBucket(f, bars, c.start) == InBucket(f, rest, c.start)
    ensures SumsUp(c, f, bars)
  {
  }

  lemma BatchSplits(f: int -> int, bars: seq<Bar>)
    requires Batch(f, bars) != []
    ensures bars != []
    ensures var n := RunLength(f, bars);
            && Batch(f, bars) == [Summary(f, bars[..n])] + Batch(f, bars[n..])
            && Summary(f, bars[..n]).start == f(bars[0].start)
  {
  }

  lemma RestIsLater(f: int -> int, bars: seq<Bar>, n: nat)
    requires Monotone(f) && Sorted(bars) && 0 < n <= |bars| && (n < |bars| ==> f(bars[n].start) != f(bars[0].start))
    ensures forall j :: 0 <= j < |bars[n..]| ==> f(bars[n..][j].start) > f(bars[0].start)
    ensures Sorted(bars[n..])
  {
    forall j | 0 <= j < |bars[n..]|
      ensures f(bars[n..][j].start) > f(bars[0].start)
    {
      assert bars[n..][j] == bars[n + j];
      assert f(bars[0].start) <= f(bars[n].start) <= f(bars[n + j].start);
    }
  }
}
