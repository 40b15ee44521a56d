/** `timestamp_to_date` of `src/engine.rs` against the Gregorian calendar of section 5.7 and
    Appendix C of RFC 3339, walked one day at a time from 1 January 1970. */
module CivilDate {

  datatype Date = Date(y: int, m: int, d: int)

  /* ---------- the calendar ---------- */

  predicate IsLeap(y: int) {
    y % 4 == 0 && (y % 100 != 0 || y % 400 == 0)
  }

  function DaysInMonth(y: int, m: int): int {
    if m == 2 then (if IsLeap(y) then 29 else 28)
    else if m in {4, 6, 9, 11} then 30
    else 31
  }

  /** The calendar day after `date`. */
  function Next(date: Date): Date {
    if date.d < DaysInMonth(date.y, date.m) then date.(d := date.d + 1)
    else if date.m < 12 then Date(date.y, date.m + 1, 1)
    else Date(date.y + 1, 1, 1)
  }

  /** The date `n` days after 1 January 1970. */
  ghost function CalendarDay(n: nat): Date {
    if n == 0 then Date(1970, 1, 1) else Next(CalendarDay(n - 1))
  }

  /** Digits YYYYMMDD as one number. */
  function Digits(date: Date): int {
    date.y * 10000 + date.m * 100 + date.d
  }

  /* ---------- the code ---------- */

  function YearOfEra(doe: int): int {
    (doe - doe / 1460 + doe / 36524 - doe / 146096) / 365
  }

  function YearStart(yoe: int): int {
    365 * yoe + yoe / 4 - yoe / 100
  }

  /** Year of the March-based calendar, and day of that year, to a civil date. */
  function FromDayOfYear(y: int, doy: int): Date {
    var mp := (5 * doy + 2) / 153;
    var d := doy - (153 * mp + 2) / 5 + 1;
    var m := if mp < 10 then mp + 3 else mp - 9;
    Date(if m <= 2 then y + 1 else y, m, d)
  }

  function CivilFromDays(days: nat): Date {
    var z := days + 719468;
    var era := z / 146097;
    var doe := z - era * 146097;
    var yoe := YearOfEra(doe);
    FromDayOfYear(yoe + era * 400, doe - YearStart(yoe))
  }

  const U32 := 0x1_0000_0000

  /** The packing, with the u32 arithmetic wrapping as in a release build. */
  function PackWrapping(date: Date): int {
    ((date.y % U32) * 10000 % U32 + date.m * 100 + date.d) % U32
  }

  function TimestampToDate(ts: nat): int {
    PackWrapping(CivilFromDays(ts / 86400))
  }

  /* ---------- years ---------- */

  /** Length of the March-based year `yoe` of an era: 366 when it ends in a leap February. */
  function YearLength(yoe: int): int {
    if IsLeap(yoe + 1) then 366 else 365
  }

  /** The year formula puts every day of a 400-year era inside the year it names. */
  lemma YearOfEraBounds(doe: int)
    requires 0 <= doe < 146097
    ensures 0 <= YearOfEra(doe) < 400
    ensures YearStart(YearOfEra(doe)) <= doe < YearStart(YearOfEra(doe)) + YearLength(YearOfEra(doe))
  {
    if doe == 146096 {
      assert YearOfEra(doe) == 399;
    } else {
      var c := doe / 36524;
      var r1 := doe - 36524 * c;
      var q := r1 / 1461;
      var r2 := r1 - 1461 * q;
      QuadYear(doe, c, q, r2);
    }
  }

  /** Century `c`, four-year block `q` of it and day `r2` of the block determine the year. */
  lemma QuadYear(doe: int, c: int, q: int, r2: int)
    requires 0 <= c < 4 && 0 <= q < 25 && 0 <= r2 < 1461
    requires 1461 * q + r2 < 36524
    requires doe == 36524 * c + 1461 * q + r2
    ensures var a := if r2 == 1460 then 3 else r2 / 365;
            YearOfEra(doe) == 100 * c + 4 * q + a
    ensures 0 <= YearOfEra(doe) < 400
    ensures YearStart(YearOfEra(doe)) <= doe < YearStart(YearOfEra(doe)) + YearLength(YearOfEra(doe))
  {
    var a := if r2 == 1460 then 3 else r2 / 365;
    var e := (24 * c + q + r2) / 1460;
    assert doe / 1460 == 25 * c + q + e;
    assert doe / 36524 == c;
    assert doe / 146096 == 0;
    assert (r2 - e) / 365 == a;
    var y := 100 * c + 4 * q + a;
    assert YearOfEra(doe) == y;
    assert 0 <= a < 4;
    assert y / 4 == 25 * c + q;
    assert y / 100 == c;
    assert YearStart(y) == 36524 * c + 1461 * q + 365 * a;
    if a == 3 {
      LeapPattern(c, q);
    }
  }

  lemma LeapPattern(c: int, q: int)
    requires 0 <= c < 4 && 0 <= q < 25
    ensures IsLeap(100 * c + 4 * q + 4) <==> (q != 24 || c == 3)
  {
    var y := 100 * c + 4 * q + 4;
    assert y % 4 == 0;
    assert y % 100 == if q == 24 then 0 else 4 * q + 4;
    assert q == 24 ==> y == 100 * (c + 1);
  }

  /** The year ranges of an era do not overlap, so the formula names the only year possible. */
  lemma YearUnique(y: int, doe: int)
    requires 0 <= y < 400 && 0 <= doe < 146097
    requires YearStart(y) <= doe < YearStart(y) + YearLength(y)
    ensures YearOfEra(doe) == y
  {
    YearOfEraBounds(doe);
    var x := YearOfEra(doe);
    if x < y {
      YearsAbut(x, y);
    } else if y < x {
      YearsAbut(y, x);
    }
  }

  lemma {:induction false} YearsAbut(x: int, y: int)
    requires 0 <= x < y < 400
    ensures YearStart(x) + YearLength(x) <= YearStart(y)
    decreases y - x
  {
    NextYearStart(x);
    if x + 1 < y {
      YearsAbut(x + 1, y);
    }
  }

  lemma NextYearStart(x: int)
    requires 0 <= x < 399
    ensures YearStart(x + 1) == YearStart(x) + YearLength(x)
  {
    assert (x + 1) % 400 == x + 1;
    assert (x + 1) / 4 - x / 4 == if (x + 1) % 4 == 0 then 1 else 0;
    assert (x + 1) / 100 - x / 100 == if (x + 1) % 100 == 0 then 1 else 0;
    if (x + 1) % 100 == 0 {
      assert (x + 1) % 4 == 0;
    }
  }

  /* ---------- days of a year ---------- */

  /** Inside a March-based year the next day of the year is the next calendar day. */
  lemma NextDayOfYear(y: int, doy: int)
    requires 0 <= doy && doy + 1 < (if IsLeap(y + 1) then 366 else 365)
    ensures FromDayOfYear(y, doy + 1) == Next(FromDayOfYear(y, doy))
  {
    var mp := (5 * doy + 2) / 153;
    assert 0 <= mp <= 11;
    if mp < 6 {
      if mp == 0 {} else if mp == 1 {} else if mp == 2 {} else if mp == 3 {} else if mp == 4 {}
    } else {
      if mp == 6 {} else if mp == 7 {} else if mp == 8 {} else if mp == 9 {} else if mp == 10 {}
    }
  }

  /** The last day of a March-based year is the last of February, the first is 1 March. */
  lemma YearEnds(y: int)
    ensures FromDayOfYear(y, (if IsLeap(y + 1) then 366 else 365) - 1) == Date(y + 1, 2, if IsLeap(y + 1) then 29 else 28)
    ensures FromDayOfYear(y, 0) == Date(y, 3, 1)
  {
  }

  lemma LeapPeriodic(y: int, era: int)
    ensures IsLeap(y + era * 400) <==> IsLeap(y)
  {
    AddMultiple(y, 100 * era, 4);
    AddMultiple(y, 4 * era, 100);
    AddMultiple(y, era, 400);
  }

  lemma AddMultiple(y: int, k: int, d: int)
    requires d > 0
    ensures (y + k * d) % d == y % d
  {
    var x, z := y + k * d, y / d + k;
    assert x == z * d + y % d;
    Remainder(x, z, y % d, d);
  }

  lemma Remainder(x: int, q: int, r: int, d: int)
    requires x == q * d + r && 0 <= r < d
    ensures x % d == r
  {
    var k := x / d - q;
    assert k * d == r - x % d;
  }

  lemma YearEndInEra(yoe: int)
    requires 0 <= yoe < 400
    ensures YearStart(yoe) + YearLength(yoe) <= 146097
  {
    if yoe < 399 {
      YearsAbut(yoe, 399);
    }
  }

  /** Day `n` is day `doy` of year `yoe` of era `era`. */
  predicate DayAt(n: int, era: int, yoe: int, doy: int) {
    0 <= yoe < 400 && 0 <= doy < YearLength(yoe) && n + 719468 == era * 146097 + YearStart(yoe) + doy
  }

  lemma CivilAt(n: nat, era: int, yoe: int, doy: int)
    requires DayAt(n, era, yoe, doy)
    ensures CivilFromDays(n) == FromDayOfYear(yoe + era * 400, doy)
  {
    YearEndInEra(yoe);
    var z, doe := n + 719468, YearStart(yoe) + doy;
    assert 0 <= YearStart(yoe);
    assert z / 146097 == era;
    YearUnique(yoe, doe);
  }

  lemma FindDay(n: nat) returns (era: int, yoe: int, doy: int)
    ensures DayAt(n, era, yoe, doy)
  {
    var z := n + 719468;
    era := z / 146097;
    var doe := z - era * 146097;
    YearOfEraBounds(doe);
    yoe := YearOfEra(doe);
    doy := doe - YearStart(yoe);
  }

  /** The day after the last of February is 1 March of the next March-based year. */
  lemma NextYearDay(y: int, doy: int)
    requires doy + 1 == if IsLeap(y + 1) then 366 else 365
    ensures Next(FromDayOfYear(y, doy)) == FromDayOfYear(y + 1, 0)
  {
    YearEnds(y);
    YearEnds(y + 1);
  }

  lemma YearLengthInEra(yoe: int, era: int)
    ensures YearLength(yoe) == if IsLeap(yoe + era * 400 + 1) then 366 else 365
  {
    LeapPeriodic(yoe + 1, era);
  }

  /** Across a year end inside an era, or across an era end. */
  lemma NextYearAt(n: int, era: int, yoe: int, doy: int) returns (era': int, yoe': int)
    requires DayAt(n, era, yoe, doy) && doy + 1 == YearLength(yoe)
    ensures DayAt(n + 1, era', yoe', 0)
    ensures yoe' + era' * 400 == yoe + era * 400 + 1
  {
    if yoe < 399 {
      NextYearStart(yoe);
      return era, yoe + 1;
    }
    return era + 1, 0;
  }

  lemma NextDayAt(n: int, era: int, yoe: int, doy: int) returns (era': int, yoe': int, doy': int)
    requires DayAt(n, era, yoe, doy)
    ensures DayAt(n + 1, era', yoe', doy')
    ensures FromDayOfYear(yoe' + era' * 400, doy') == Next(FromDayOfYear(yoe + era * 400, doy))
  {
    YearLengthInEra(yoe, era);
    if doy + 1 < YearLength(yoe) {
      NextDayOfYear(yoe + era * 400, doy);
      era', yoe', doy' := era, yoe, doy + 1;
    } else {
      NextYearDay(yoe + era * 400, doy);
      era', yoe' := NextYearAt(n, era, yoe, doy);
      doy' := 0;
    }
  }

  /** One more day is the next calendar date. */
  lemma NextCivil(n: nat)
    ensures CivilFromDays(n + 1) == Next(CivilFromDays(n))
  {
    var era, yoe, doy := FindDay(n);
    var era', yoe', doy' := NextDayAt(n, era, yoe, doy);
    CivilAt(n, era, yoe, doy);
    CivilAt(n + 1, era', yoe', doy');
  }

  lemma Epoch()
    ensures CivilFromDays(0) == CalendarDay(0)
  {
    CivilAt(0, 4, 369, 306);
  }

  /** For every day the code's date is the real calendar date. */
  lemma {:induction false} CivilIsCalendar(n: nat)
    ensures CivilFromDays(n) == CalendarDay(n)
  {
    hide CivilFromDays, Next;
    if n == 0 {
      Epoch();
    } else {
      var before: nat := n - 1;
      CivilIsCalendar(before);
      NextCivil(before);
      assert CalendarDay(n) == Next(CalendarDay(before));
    }
  }

  /* ---------- the packed number ---------- */

  lemma {:induction false} CalendarDayValid(n: nat)
    ensures var t := CalendarDay(n); 1 <= t.m <= 12 && 1 <= t.d <= DaysInMonth(t.y, t.m) && t.y >= 1970
  {
    if n > 0 {
      CalendarDayValid(n - 1);
    }
  }

  /** Days pass slower than years could. */
  lemma {:induction false} YearBound(n: nat)
    ensures CalendarDay(n).y <= 1970 + n
  {
    if n > 0 {
      YearBound(n - 1);
    }
  }

  lemma PackIff(date: Date)
    requires 1 <= date.m <= 12 && 1 <= date.d <= 31 && date.y >= 0
    ensures PackWrapping(date) == Digits(date) <==> date.y <= 429496
  {
    if date.y <= 429496 {
      assert date.y % U32 == date.y;
      assert date.y * 10000 % U32 == date.y * 10000;
    } else {
      assert Digits(date) >= U32;
    }
  }

  /** `timestamp_to_date` returns the digits of the calendar date exactly up to the year 429496. */
  lemma DateIsCalendarIff(ts: nat)
    ensures TimestampToDate(ts) == Digits(CalendarDay(ts / 86400)) <==> CalendarDay(ts / 86400).y <= 429496
  {
    CivilIsCalendar(ts / 86400);
    CalendarDayValid(ts / 86400);
    PackIff(CalendarDay(ts / 86400));
  }

  predicate Before(a: Date, b: Date) {
    a.y < b.y || (a.y == b.y && (a.m < b.m || (a.m == b.m && a.d < b.d)))
  }

  lemma {:induction false} CalendarGrows(i: nat, j: nat)
    requires i < j
    ensures Before(CalendarDay(i), CalendarDay(j))
    decreases j
  {
    CalendarDayValid(j - 1);
    if i < j - 1 {
      CalendarGrows(i, j - 1);
    }
  }

  /** Within the packable years, a later day has a greater packed date: distinct days never share
      a daily-stats key, and one day always has the same key. */
  lemma DatesGrow(s: nat, t: nat)
    requires CalendarDay(s / 86400).y <= 429496 && CalendarDay(t / 86400).y <= 429496
    ensures TimestampToDate(s) < TimestampToDate(t) <==> s / 86400 < t / 86400
  {
    DateIsCalendarIff(s);
    DateIsCalendarIff(t);
    CalendarDayValid(s / 86400);
    CalendarDayValid(t / 86400);
    if s / 86400 < t / 86400 {
      CalendarGrows(s / 86400, t / 86400);
    } else if t / 86400 < s / 86400 {
      CalendarGrows(t / 86400, s / 86400);
    }
  }
}
