/** The candle timeframes of `src/core/timeframe.rs`. */
module Timeframes {
  import opened Collections

  datatype Timeframe =
    | Sec1 | Sec5 | Sec15 | Sec30 | Min1 | Min2 | Min3 | Min5 | Min15 | Min30
    | Hour1 | Hour2 | Hour4 | Hour8 | Day1 | Week1

  const TF_COUNT := 16

  const ALL: seq<Timeframe> :=
    [Sec1, Sec5, Sec15, Sec30, Min1, Min2, Min3, Min5, Min15, Min30, Hour1, Hour2, Hour4, Hour8, Day1, Week1]

  function DurationMs(tf: Timeframe): (ms: nat)
    ensures ms > 0
  {
    match tf
    case Sec1 => 1_000
    case Sec5 => 5_000
    case Sec15 => 15_000
    case Sec30 => 30_000
    case Min1 => 60_000
    case Min2 => 120_000
    case Min3 => 180_000
    case Min5 => 300_000
    case Min15 => 900_000
    case Min30 => 1_800_000
    case Hour1 => 3_600_000
    case Hour2 => 7_200_000
    case Hour4 => 14_400_000
    case Hour8 => 28_800_000
    case Day1 => 86_400_000
    case Week1 => 604_800_000
  }

  function DurationNs(tf: Timeframe): (d: nat)
    ensures d > 0
  {
    DurationMs(tf) * 1_000_000
  }

  /** `bucket_start_ns` for a bucket of `d` nanoseconds. */
  function Bucket(d: int, ns: int): int
    requires d > 0
  {
    ns - ns % d
  }

  lemma Multiples(a: int, b: int, d: int)
    requires d > 0
    ensures a <= b ==> a * d <= b * d
    ensures a < b ==> (a + 1) * d <= b * d
  {
    assert b - a >= 0 ==> (b - a) * d >= 0;
    assert (b - a) * d == b * d - a * d;
    assert b - a - 1 >= 0 ==> (b - a - 1) * d >= 0;
    assert (b - a - 1) * d == b * d - (a + 1) * d;
  }

  /** The bucket of a timestamp is the only multiple of the duration at most one duration below it. */
  lemma BucketIs(d: int, ns: int, q: int)
    requires d > 0 && q * d <= ns < q * d + d
    ensures Bucket(d, ns) == q * d
  {
    var p := ns / d;
    assert ns == p * d + ns % d;
    Multiples(p, q, d);
    Multiples(q, p, d);
    assert p < q ==> p * d + d <= q * d;
    assert q < p ==> q * d + d <= p * d;
  }

  lemma BucketBounds(d: int, ns: int)
    requires d > 0
    ensures Bucket(d, ns) == (ns / d) * d && Bucket(d, ns) <= ns < Bucket(d, ns) + d
  {
    assert ns == (ns / d) * d + ns % d;
  }

  /** Buckets nest: where one duration divides another, rounding down to the fine bucket first does
      not change the coarse bucket. */
  lemma BucketsNest(fine: int, k: int, ns: int)
    requires fine > 0 && k > 0 && fine * k > 0
    ensures Bucket(fine * k, Bucket(fine, ns)) == Bucket(fine * k, ns)
  {
    var coarse := fine * k;
    var p, q := ns / fine, ns / coarse;
    BucketBounds(fine, ns);
    BucketBounds(coarse, ns);
    assert q * coarse == (q * k) * fine;
    Multiples(p, q * k, fine);
    Multiples(q * k, p, fine);
    assert p < q * k ==> p * fine + fine <= (q * k) * fine;
    BucketIs(coarse, p * fine, q);
  }

  /** Bucket starts are fixed points of the rounding. */
  lemma BucketIdempotent(d: int, ns: int)
    requires d > 0
    ensures Bucket(d, Bucket(d, ns)) == Bucket(d, ns)
  {
    BucketBounds(d, ns);
    BucketIs(d, (ns / d) * d, ns / d);
  }

  /** Bucket starts grow with time. */
  lemma BucketMonotone(d: int, a: int, b: int)
    requires d > 0 && a <= b
    ensures Bucket(d, a) <= Bucket(d, b)
  {
    BucketBounds(d, a);
    BucketBounds(d, b);
    var p, q := a / d, b / d;
    Multiples(q, p, d);
    Multiples(p, q, d);
    assert q < p ==> q * d + d <= p * d;
  }

  /** Rounding to the buckets of one timeframe. */
  function BucketOf(tf: Timeframe): int -> int {
    ns => Bucket(DurationNs(tf), ns)
  }

  /* ---------- names and clock ---------- */

  /** `as_str`. */
  function AsStr(tf: Timeframe): string {
    match tf
    case Sec1 => "1s"
    case Sec5 => "5s"
    case Sec15 => "15s"
    case Sec30 => "30s"
    case Min1 => "1m"
    case Min2 => "2m"
    case Min3 => "3m"
    case Min5 => "5m"
    case Min15 => "15m"
    case Min30 => "30m"
    case Hour1 => "1h"
    case Hour2 => "2h"
    case Hour4 => "4h"
    case Hour8 => "8h"
    case Day1 => "1D"
    case Week1 => "1W"
  }

  /** `from_str`. */
  function FromStr(s: string): Option<Timeframe> {
    match s
    case "1s" => Some(Sec1)
    case "5s" => Some(Sec5)
    case "15s" => Some(Sec15)
    case "30s" => Some(Sec30)
    case "1m" => Some(Min1)
    case "2m" => Some(Min2)
    case "3m" => Some(Min3)
    case "5m" => Some(Min5)
    case "15m" => Some(Min15)
    case "30m" => Some(Min30)
    case "1h" => Some(Hour1)
    case "2h" => Some(Hour2)
    case "4h" => Some(Hour4)
    case "8h" => Some(Hour8)
    case _ =>
      if s == "1D" || s == "1d" then Some(Day1)
      else if s == "1W" || s == "1w" then Some(Week1) else None
  }

  const MINUTE := 60
  const HOUR := 60 * MINUTE
  const DAY := 24 * HOUR

  /** Seconds in the unit a name ends with. */
  function UnitSeconds(unit: char): nat {
    if unit == 's' then 1 else if unit == 'm' then MINUTE else if unit == 'h' then HOUR
    else if unit == 'D' then DAY else 7 * DAY
  }

  function Decimal(digits: string): nat
    requires forall i :: 0 <= i < |digits| ==> '0' <= digits[i] <= '9'
  {
    if digits == [] then 0 else 10 * Decimal(digits[..|digits| - 1]) + (digits[|digits| - 1] - '0') as nat
  }

  /** The length a timeframe's name tells, in seconds: its number times its unit. */
  function ClockSeconds(tf: Timeframe): nat {
    var name := AsStr(tf);
    Decimal(name[..|name| - 1]) * UnitSeconds(name[|name| - 1])
  }

  lemma NameIsRead(tf: Timeframe)
    ensures FromStr(AsStr(tf)) == Some(tf)
  {
  }

  /** A timeframe lasts as long as its name says. */
  lemma NameTellsLength(tf: Timeframe)
    ensures DurationMs(tf) == ClockSeconds(tf) * 1000
  {
    var name := AsStr(tf);
    var digits := name[..|name| - 1];
    if |digits| == 1 {
      assert digits[..0] == [] && Decimal(digits) == (digits[0] - '0') as nat;
    } else {
      assert digits[..1] == [digits[0]] && digits[..1][..0] == [];
      assert Decimal(digits[..1]) == (digits[0] - '0') as nat;
      assert Decimal(digits) == 10 * (digits[0] - '0') as nat + (digits[1] - '0') as nat;
    }
  }

  /** The sixteen timeframes in index order, by their names. */
  lemma NamesInOrder(i: nat)
    requires i < 16
    ensures |ALL| == 16
    ensures AsStr(ALL[i]) == ["1s", "5s", "15s", "30s", "1m", "2m", "3m", "5m", "15m", "30m", "1h", "2h", "4h", "8h", "1D", "1W"][i]
  {
  }

  const SECOND_NS := 1_000_000_000

  lemma DividesDay(tf: Timeframe)
    requires tf != Week1
    ensures ClockSeconds(tf) > 0 && ClockSeconds(tf) * (DAY / ClockSeconds(tf)) == DAY
  {
    hide ClockSeconds;
    NameTellsLength(tf);
    match tf {
      case Sec1 => assert ClockSeconds(tf) == 1;
      case Sec5 => assert ClockSeconds(tf) == 5;
      case Sec15 => assert ClockSeconds(tf) == 15;
      case Sec30 => assert ClockSeconds(tf) == 30;
      case Min1 => assert ClockSeconds(tf) == 60;
      case Min2 => assert ClockSeconds(tf) == 120;
      case Min3 => assert ClockSeconds(tf) == 180;
      case Min5 => assert ClockSeconds(tf) == 300;
      case Min15 => assert ClockSeconds(tf) == 900;
      case Min30 => assert ClockSeconds(tf) == 1800;
      case Hour1 => assert ClockSeconds(tf) == 3600;
      case Hour2 => assert ClockSeconds(tf) == 7200;
      case Hour4 => assert ClockSeconds(tf) == 14400;
      case Hour8 => assert ClockSeconds(tf) == 28800;
      case Day1 => assert ClockSeconds(tf) == 86400;
    }
  }

  /** In clock terms: a tick in second `s` of day `d` falls in the bucket that starts at the last whole
      multiple of the timeframe since midnight. */
  lemma ClockBucket(tf: Timeframe, d: nat, s: nat, f: nat)
    requires tf != Week1 && s < DAY && f < SECOND_NS
    ensures ClockSeconds(tf) > 0
    ensures BucketOf(tf)((d * DAY + s) * SECOND_NS + f)
            == (d * DAY + s / ClockSeconds(tf) * ClockSeconds(tf)) * SECOND_NS
  {
    hide ClockSeconds, DurationMs;
    NameTellsLength(tf);
    DividesDay(tf);
    var len := ClockSeconds(tf);
    assert DurationNs(tf) == len * SECOND_NS;
    ClockRounding(len, DAY / len, d, s, f);
  }

  lemma ClockRounding(len: nat, k: nat, d: nat, s: nat, f: nat)
    requires len > 0 && len * k == DAY && f < SECOND_NS
    ensures Bucket(len * SECOND_NS, (d * DAY + s) * SECOND_NS + f) == (d * DAY + s / len * len) * SECOND_NS
  {
    var p, r := s / len, s % len;
    assert s == p * len + r && r + 1 <= len;
    var q := d * k + p;
    assert d * DAY == (d * k) * len;
    assert q * len == d * DAY + p * len;
    assert q * (len * SECOND_NS) == (q * len) * SECOND_NS;
    assert (r + 1) * SECOND_NS <= len * SECOND_NS;
    BucketIs(len * SECOND_NS, (d * DAY + s) * SECOND_NS + f, q);
  }

  /** Weeks are counted in sevens of days from 1 January 1970, a Thursday. */
  lemma WeekBucket(d: nat, s: nat, f: nat)
    requires s < DAY && f < SECOND_NS
    ensures BucketOf(Week1)((d * DAY + s) * SECOND_NS + f) == (d / 7 * 7) * DAY * SECOND_NS
  {
    NameTellsLength(Week1);
    var q, r := d / 7, d % 7;
    assert d == 7 * q + r;
    BucketIs(7 * DAY * SECOND_NS, (d * DAY + s) * SECOND_NS + f, q);
  }

  /** Which stretch of so many days since 1 January 1970 a timestamp lies in. */
  function StretchOf(ns: nat, days: nat): int
    requires days > 0
  {
    ns / SECOND_NS / DAY / days
  }

  /** When that stretch starts. */
  function StretchStart(p: int, days: nat): int {
    p * days * DAY * SECOND_NS
  }

  lemma StretchesDiffer(p: int, q: int, days: nat)
    requires days == 1 || days == 7
    ensures StretchStart(p, days) == StretchStart(q, days) <==> p == q
  {
  }

  /** The daily and the weekly bucket of a timestamp start at midnight: of its day, and of the first of
      the seven days its day belongs to. */
  lemma CalendarBucket(tf: Timeframe, ns: nat)
    requires tf == Day1 || tf == Week1
    ensures var days := if tf == Day1 then 1 else 7;
            BucketOf(tf)(ns) == StretchStart(StretchOf(ns, days), days)
  {
    hide ClockSeconds, BucketOf;
    var t, f := ns / SECOND_NS, ns % SECOND_NS;
    var d, s := t / DAY, t % DAY;
    assert t == d * DAY + s && ns == t * SECOND_NS + f;
    if tf == Day1 {
      ClockBucket(Day1, d, s, f);
      NameTellsLength(Day1);
      assert s / DAY == 0;
    } else {
      WeekBucket(d, s, f);
    }
  }
}
