// Seconds since the epoch to a calendar date (core/src/connectors.rs, iso8601_utc), against the
// Gregorian calendar itself: leap years, month lengths and the day after a date.

module Civil {

  datatype Date = Date(y: int, m: int, d: int)

  datatype Stamp = Stamp(date: Date, hour: int, minute: int, second: int)

  // ---------- as computed ----------

  /** The year within its 400-year era, counted from March. */
  function YearOfEra(doe: int): (y: int) {
    (doe - doe / 1460 + doe / 36524 - doe / 146096) / 365
  }

  /** The days before year `y` of an era, years counted from March. */
  function DaysBefore(y: int): (n: int) { 365 * y + y / 4 - y / 100 }

  /** The days before month `mp` of a year that starts in March. */
  function MonthStart(mp: int): (n: int) { (153 * mp + 2) / 5 }

  function MonthOf(doy: int): (mp: int) { (5 * doy + 2) / 153 }

  function MonthNumber(mp: int): (m: int) { if mp < 10 then mp + 3 else mp - 9 }

  function FromMarch(era: int, yoe: int, doy: int): (r: Date) {
    var mp := MonthOf(doy);
    var d := doy - MonthStart(mp) + 1;
    var m := MonthNumber(mp);
    Date(yoe + era * 400 + (if m <= 2 then 1 else 0), m, d)
  }

  function CivilFromDays(days: nat): (r: Date) {
    var z := days + 719468;
    var era := z / 146097;
    var doe := z % 146097;
    var yoe := YearOfEra(doe);
    FromMarch(era, yoe, doe - DaysBefore(yoe))
  }

  function FromSeconds(secs: nat): (r: Stamp) {
    var rem := secs % 86400;
    Stamp(CivilFromDays(secs / 86400), rem / 3600, rem % 3600 / 60, rem % 60)
  }

  // ---------- the calendar ----------

  predicate Leap(y: int) { y % 4 == 0 && (y % 100 != 0 || y % 400 == 0) }

  function DaysIn(y: int, m: int): (n: int) {
    if m == 2 then (if Leap(y) then 29 else 28)
    else if m == 4 || m == 6 || m == 9 || m == 11 then 30 else 31
  }

  function Tomorrow(t: Date): (r: Date) {
    if t.d < DaysIn(t.y, t.m) then t.(d := t.d + 1)
    else if t.m < 12 then Date(t.y, t.m + 1, 1)
    else Date(t.y + 1, 1, 1)
  }

  predicate Proper(t: Date) { 1 <= t.m <= 12 && 1 <= t.d <= DaysIn(t.y, t.m) }

  /** The date `n` days after the first of January 1970. */
  function DayNumber(n: nat): (r: Date) {
    if n == 0 then Date(1970, 1, 1) else Tomorrow(DayNumber(n - 1))
  }

  // ---------- years ----------

  /** The days of March-year `y` of an era; the last one holds the leap day of the era. */
  function YearLength(y: int): (n: int) {
    if y == 399 then 366 else DaysBefore(y + 1) - DaysBefore(y)
  }

  /** Year `100 c + 4 q + s` of an era, and the day `k` of it. */
  predicate Parts(c: int, q: int, s: int, k: int) {
    && 0 <= c < 4 && 0 <= q < 25 && 0 <= s < 4
    && 0 <= k < (if s == 3 && (q < 24 || c == 3) then 366 else 365)
  }

  lemma {:induction false} Split(doe: int) returns (c: int, q: int, s: int, k: int)
    requires 0 <= doe < 146097
    ensures Parts(c, q, s, k) && doe == 36524 * c + 1461 * q + 365 * s + k
  {
    c := if doe < 36524 then 0 else if doe < 2 * 36524 then 1 else if doe < 3 * 36524 then 2 else 3;
    var r := doe - 36524 * c;
    q := r / 1461;
    var r' := r - 1461 * q;
    s := if r' < 365 then 0 else if r' < 730 then 1 else if r' < 1095 then 2 else 3;
    k := r' - 365 * s;
  }

  lemma {:induction false} PartsYear(c: int, q: int, s: int, k: int)
    requires Parts(c, q, s, k)
    ensures var y := 100 * c + 4 * q + s;
            && 0 <= y < 400 && DaysBefore(y) == 36524 * c + 1461 * q + 365 * s && k < YearLength(y)
  {
    var y := 100 * c + 4 * q + s;
    assert y / 4 == 25 * c + q && y / 100 == c;
    if s == 3 {
      assert (y + 1) / 4 == 25 * c + q + 1;
      assert (y + 1) / 100 == if q == 24 then c + 1 else c;
    } else {
      assert (y + 1) / 4 == 25 * c + q && (y + 1) / 100 == c;
    }
  }

  lemma {:induction false} PartsFormula(c: int, q: int, s: int, k: int)
    requires Parts(c, q, s, k)
    ensures YearOfEra(36524 * c + 1461 * q + 365 * s + k) == 100 * c + 4 * q + s
  {
    var doe := 36524 * c + 1461 * q + 365 * s + k;
    var x := if 24 * c + q + 365 * s + k >= 1460 then 1 else 0;
    assert doe / 1460 == 25 * c + q + x;
    if c == 3 && q == 24 && s == 3 && k == 365 {
      assert doe == 146096;
    } else {
      assert doe / 36524 == c && doe / 146096 == 0;
    }
    assert 0 <= k - x < 365;
    assert doe - doe / 1460 + doe / 36524 - doe / 146096 == 365 * (100 * c + 4 * q + s) + (k - x);
  }

  lemma {:induction false} YearOfEraOk(doe: int)
    requires 0 <= doe < 146097
    ensures var y := YearOfEra(doe);
            0 <= y < 400 && DaysBefore(y) <= doe < DaysBefore(y) + YearLength(y)
  {
    var c, q, s, k := Split(doe);
    PartsYear(c, q, s, k);
    PartsFormula(c, q, s, k);
  }

  lemma {:induction false} YearOfEraUnique(doe: int, y: int)
    requires 0 <= doe < 146097 && 0 <= y < 400 && DaysBefore(y) <= doe < DaysBefore(y) + YearLength(y)
    ensures YearOfEra(doe) == y
  {
    YearOfEraOk(doe);
  }

  lemma {:induction false} AddFours(a: int, t: int)
    ensures (a + 4 * t) % 4 == a % 4
  {
  }

  lemma {:induction false} AddHundreds(a: int, t: int)
    ensures (a + 100 * t) % 100 == a % 100
  {
  }

  lemma {:induction false} AddFourHundreds(a: int, t: int)
    ensures (a + 400 * t) % 400 == a % 400
  {
  }

  lemma {:induction false} EraKeepsLeap(k: int, era: int)
    ensures Leap(k + era * 400) == Leap(k)
  {
    AddFours(k, 100 * era);
    AddHundreds(k, 4 * era);
    AddFourHundreds(k, era);
  }

  lemma {:induction false} LeapYears(era: int, yoe: int)
    requires 0 <= yoe < 400
    ensures YearLength(yoe) == if Leap(yoe + era * 400 + 1) then 366 else 365
  {
    EraKeepsLeap(yoe + 1, era);
    var k := yoe + 1;
    assert yoe / 4 == if k % 4 == 0 then k / 4 - 1 else k / 4;
    assert yoe / 100 == if k % 100 == 0 then k / 100 - 1 else k / 100;
  }

  // ---------- days ----------

  lemma {:induction false} MonthHolds(doy: int)
    requires 0 <= doy < 366
    ensures var mp := MonthOf(doy);
            0 <= mp <= 11 && MonthStart(mp) <= doy < MonthStart(mp + 1)
  {
  }

  lemma {:induction false} MonthUnique(doy: int, mp: int)
    requires 0 <= doy < 366 && 0 <= mp <= 11 && MonthStart(mp) <= doy < MonthStart(mp + 1)
    ensures MonthOf(doy) == mp
  {
  }

  lemma {:induction false} MonthLength(y: int, mp: int)
    requires 0 <= mp < 11
    ensures DaysIn(y, MonthNumber(mp)) == MonthStart(mp + 1) - MonthStart(mp)
  {
  }

  lemma {:induction false} WithinYear(era: int, yoe: int, doy: int)
    requires 0 <= yoe < 400 && 0 <= doy && doy + 1 < YearLength(yoe)
    ensures Tomorrow(FromMarch(era, yoe, doy)) == FromMarch(era, yoe, doy + 1)
  {
    LeapYears(era, yoe);
    MonthHolds(doy);
    hide MonthOf, YearLength, Leap;
    var mp := MonthOf(doy);
    var t := FromMarch(era, yoe, doy);
    if mp == 11 {
      MonthUnique(doy + 1, 11);
    } else {
      MonthLength(t.y, mp);
      MonthUnique(doy + 1, if doy + 1 < MonthStart(mp + 1) then mp else mp + 1);
    }
  }

  lemma {:induction false} YearEnds(era: int, yoe: int)
    requires 0 <= yoe < 400
    ensures Tomorrow(FromMarch(era, yoe, YearLength(yoe) - 1)) ==
            if yoe == 399 then FromMarch(era + 1, 0, 0) else FromMarch(era, yoe + 1, 0)
  {
    hide MonthOf, YearLength, Leap;
    LeapYears(era, yoe);
    var len := YearLength(yoe);
    assert len == 365 || len == 366;
    MonthUnique(len - 1, 11);
    MonthUnique(0, 0);
    assert FromMarch(era, yoe, len - 1) == Date(yoe + era * 400 + 1, 2, len - 337);
  }

  lemma {:induction false} FirstDay()
    ensures CivilFromDays(0) == Date(1970, 1, 1)
  {
    hide YearOfEra, DaysBefore, FromMarch;
    assert 719468 / 146097 == 4 && 719468 % 146097 == 135080;
    FirstYear();
    FirstMonth();
  }

  lemma {:induction false} FirstYear()
    ensures YearOfEra(135080) == 369 && DaysBefore(369) == 134774
  {
    assert 135080 / 1460 == 92 && 135080 / 36524 == 3 && 135080 / 146096 == 0;
    assert 134991 / 365 == 369;
    assert 369 / 4 == 92 && 369 / 100 == 3;
  }

  lemma {:induction false} FirstMonth()
    ensures FromMarch(4, 369, 306) == Date(1970, 1, 1)
  {
    assert 1532 / 153 == 10 && 1532 / 5 == 306;
  }

  /** The day after a computed date is the computed date of the next day. */
  lemma {:induction false} NextDay(days: nat)
    ensures CivilFromDays(days + 1) == Tomorrow(CivilFromDays(days))
  {
    hide FromMarch, Tomorrow, YearOfEra;
    var z := days + 719468;
    var era, doe := z / 146097, z % 146097;
    var yoe := YearOfEra(doe);
    YearOfEraOk(doe);
    var doy := doe - DaysBefore(yoe);
    if doy + 1 < YearLength(yoe) {
      assert (z + 1) / 146097 == era && (z + 1) % 146097 == doe + 1;
      YearOfEraUnique(doe + 1, yoe);
      WithinYear(era, yoe, doy);
    } else {
      YearEnds(era, yoe);
      if yoe == 399 {
        assert doe == 146096;
        assert (z + 1) / 146097 == era + 1 && (z + 1) % 146097 == 0;
        YearOfEraUnique(0, 0);
      } else {
        assert doe + 1 == DaysBefore(yoe + 1) < 146097;
        assert (z + 1) / 146097 == era && (z + 1) % 146097 == doe + 1;
        YearStarts(yoe + 1);
      }
    }
  }

  lemma {:induction false} YearStarts(yoe: int)
    requires 0 <= yoe < 400
    ensures YearOfEra(DaysBefore(yoe)) == yoe
  {
    LeapYears(0, yoe);
    YearOfEraUnique(DaysBefore(yoe), yoe);
  }

  lemma {:induction false} TomorrowProper(n: nat)
    ensures Proper(DayNumber(n))
  {
    if n > 0 { TomorrowProper(n - 1); }
  }

  lemma {:induction false} DateCorrect(n: nat)
    ensures CivilFromDays(n) == DayNumber(n)
  {
    hide CivilFromDays, Tomorrow;
    if n == 0 {
      FirstDay();
    } else {
      DateCorrect(n - 1);
      NextDay(n - 1);
    }
  }

  lemma {:induction false} TimeOfDay(rem: int)
    requires 0 <= rem < 86400
    ensures rem == 3600 * (rem / 3600) + 60 * (rem % 3600 / 60) + rem % 60
    ensures 0 <= rem / 3600 < 24 && 0 <= rem % 3600 / 60 < 60
  {
    assert rem % 3600 % 60 == rem % 60;
  }

  /**
   * For every second since the epoch the date is the Gregorian one: the first of January 1970
   * moved on, a day at a time, by the rules for months and leap years. The time of day is in
   * range and, with the days, recombines to the seconds given.
   */
  lemma {:induction false} CivilCorrect(secs: nat)
    ensures var t := FromSeconds(secs);
            && t.date == DayNumber(secs / 86400) && Proper(t.date)
            && 0 <= t.hour < 24 && 0 <= t.minute < 60 && 0 <= t.second < 60
            && secs == 86400 * (secs / 86400) + 3600 * t.hour + 60 * t.minute + t.second
  {
    hide CivilFromDays, DayNumber, Proper;
    DateCorrect(secs / 86400);
    TomorrowProper(secs / 86400);
    TimeOfDay(secs % 86400);
  }

  // ---------- the text ----------

  /** The decimal digits of a number, with zeros in front up to `width`. */
  function Padded(n: nat, width: nat): (s: string)
    decreases n, width
  {
    if n == 0 && width == 0 then ""
    else Padded(n / 10, if width == 0 then 0 else width - 1) + [('0' as int + n % 10) as char]
  }

  function Number(s: string): (n: int) {
    if s == "" then 0 else 10 * Number(s[..|s| - 1]) + (s[|s| - 1] as int - '0' as int)
  }

  lemma {:induction false} PaddedReads(n: nat, width: nat)
    ensures Number(Padded(n, width)) == n && |Padded(n, width)| >= width
    decreases n, width
  {
    if n != 0 || width != 0 {
      var front := Padded(n / 10, if width == 0 then 0 else width - 1);
      PaddedReads(n / 10, if width == 0 then 0 else width - 1);
      var s := Padded(n, width);
      assert s[..|s| - 1] == front;
    }
  }

  lemma {:induction false} TwoDigits(n: nat)
    requires n < 100
    ensures |Padded(n, 2)| == 2 && Number(Padded(n, 2)) == n
  {
    PaddedReads(n, 2);
    assert Padded(n / 100, 0) == "";
    assert |Padded(n / 10, 1)| == 1;
  }

  /** iso8601_utc: the year with at least four digits, everything else with two. */
  function Iso(t: Stamp): (s: string)
    requires t.date.y >= 0 && t.date.m >= 0 && t.date.d >= 0 && t.hour >= 0 && t.minute >= 0 && t.second >= 0
  {
    Padded(t.date.y, 4) + "-" + Padded(t.date.m, 2) + "-" + Padded(t.date.d, 2)
    + "T" + Padded(t.hour, 2) + ":" + Padded(t.minute, 2) + ":" + Padded(t.second, 2) + "Z"
  }

  lemma {:induction false} YearsFollow(n: nat)
    ensures DayNumber(n).y >= 1970
  {
    if n > 0 { YearsFollow(n - 1); }
  }

  /**
   * The text of every time stamp can be read back: the year in front of the last sixteen
   * characters, of at least four digits, and every other field in its two.
   */
  lemma {:induction false} IsoReadsBack(secs: nat)
    ensures var t := FromSeconds(secs);
            && t.date.y >= 1970 && t.date.m >= 1 && t.date.d >= 1 && t.hour >= 0 && t.minute >= 0 && t.second >= 0
            && var s := Iso(t); var n := |s|;
               && n >= 20 && Number(s[..n - 16]) == t.date.y && s[n - 16] == '-' && Number(s[n - 15..n - 13]) == t.date.m
               && s[n - 13] == '-' && Number(s[n - 12..n - 10]) == t.date.d && s[n - 10] == 'T'
               && Number(s[n - 9..n - 7]) == t.hour && s[n - 7] == ':' && Number(s[n - 6..n - 4]) == t.minute
               && s[n - 4] == ':' && Number(s[n - 3..n - 1]) == t.second && s[n - 1] == 'Z'
  {
    CivilCorrect(secs);
    YearsFollow(secs / 86400);
    var t := FromSeconds(secs);
    hide FromSeconds, DayNumber, Padded, Number;
    PaddedReads(t.date.y, 4);
    TwoDigits(t.date.m);
    TwoDigits(t.date.d);
    TwoDigits(t.hour);
    TwoDigits(t.minute);
    TwoDigits(t.second);
    FieldsStand(Padded(t.date.y, 4), Padded(t.date.m, 2), Padded(t.date.d, 2), Padded(t.hour, 2), Padded(t.minute, 2), Padded(t.second, 2));
  }

  lemma {:induction false} FieldsStand(y: string, m: string, d: string, h: string, k: string, c: string)
    requires |m| == |d| == |h| == |k| == |c| == 2
    ensures var s := y + "-" + m + "-" + d + "T" + h + ":" + k + ":" + c + "Z"; var n := |s|;
            && n == |y| + 16 && s[..n - 16] == y && s[n - 16] == '-' && s[n - 15..n - 13] == m && s[n - 13] == '-'
            && s[n - 12..n - 10] == d && s[n - 10] == 'T' && s[n - 9..n - 7] == h && s[n - 7] == ':'
            && s[n - 6..n - 4] == k && s[n - 4] == ':' && s[n - 3..n - 1] == c && s[n - 1] == 'Z'
  {
  }
}
