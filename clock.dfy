/**
 * Calendar dates as day ordinals, times of day, and the 12-hour clock used both by the
 * scraper's parser (`%I ... %p`) and by the web components' `formatTime`.
 */
module Clock {
  import opened Text

  /** A time of day as the store keeps it ("14:15:00"). */
  datatype Time = Time(hour: nat, minute: nat, second: nat)

  predicate ValidTime(t: Time) {
    t.hour < 24 && t.minute < 60 && t.second < 60
  }

  /** Chronological order of times of day. */
  predicate TimeLe(a: Time, b: Time) {
    a.hour < b.hour
    || (a.hour == b.hour && (a.minute < b.minute || (a.minute == b.minute && a.second <= b.second)))
  }

  // ---------------------------------------------------------------------------------------
  // Dates. A date is its proleptic Gregorian ordinal, as Python's `date.toordinal()` gives
  // it (0001-01-01 is day 1), so that subtracting two dates counts calendar days.
  // ---------------------------------------------------------------------------------------

  predicate IsLeap(y: int) {
    y % 4 == 0 && (y % 100 != 0 || y % 400 == 0)
  }

  function DaysInMonth(y: int, m: int): (n: nat)
    requires 1 <= m <= 12
    ensures 28 <= n <= 31
  {
    if m == 2 then (if IsLeap(y) then 29 else 28)
    else if m == 4 || m == 6 || m == 9 || m == 11 then 30
    else 31
  }

  predicate ValidDate(y: int, m: int, d: int) {
    1 <= y <= 9999 && 1 <= m <= 12 && 1 <= d <= DaysInMonth(y, m)
  }

  function DaysBeforeYear(y: int): int
    requires y >= 1
  {
    var p := y - 1;
    p * 365 + p / 4 - p / 100 + p / 400
  }

  /** Days in the months before `m` of year `y`. */
  function DaysBeforeMonth(y: int, m: int): nat
    requires 1 <= m <= 12
    decreases m
  {
    if m == 1 then 0 else DaysBeforeMonth(y, m - 1) + DaysInMonth(y, m - 1)
  }

  function Ordinal(y: int, m: int, d: int): int
    requires ValidDate(y, m, d)
  {
    DaysBeforeYear(y) + DaysBeforeMonth(y, m) + d
  }

  /** Consecutive calendar days have consecutive ordinals, across months and years. */
  lemma OrdinalNextDay(y: int, m: int, d: int)
    requires ValidDate(y, m, d)
    ensures d < DaysInMonth(y, m) ==> ValidDate(y, m, d + 1) && Ordinal(y, m, d + 1) == Ordinal(y, m, d) + 1
    ensures d == DaysInMonth(y, m) && m < 12 ==> ValidDate(y, m + 1, 1) && Ordinal(y, m + 1, 1) == Ordinal(y, m, d) + 1
    ensures d == DaysInMonth(y, m) && m == 12 && y < 9999 ==> ValidDate(y + 1, 1, 1) && Ordinal(y + 1, 1, 1) == Ordinal(y, m, d) + 1
  {
    if d == DaysInMonth(y, m) && m == 12 && y < 9999 {
      YearLength(y);
    }
  }

  /** A year has 366 days when it is a leap year and 365 otherwise. */
  lemma YearLength(y: int)
    requires 1 <= y
    ensures DaysBeforeYear(y + 1) - DaysBeforeYear(y) == if IsLeap(y) then 366 else 365
    ensures DaysBeforeMonth(y, 12) + DaysInMonth(y, 12) == if IsLeap(y) then 366 else 365
  {
    var p := y - 1;
    DivNext(p, 4);
    DivNext(p, 100);
    DivNext(p, 400);
    DivisorsOfCenturies(y);
    MonthsOfYear(y);
  }

  /** A multiple of 400 is a multiple of 100, and a multiple of 100 is a multiple of 4. */
  lemma DivisorsOfCenturies(y: int)
    ensures y % 400 == 0 ==> y % 100 == 0
    ensures y % 100 == 0 ==> y % 4 == 0
  {
    if y % 400 == 0 {
      MultipleOf(y / 400 * 4, 100);
      assert y == y / 400 * 4 * 100;
    }
    if y % 100 == 0 {
      MultipleOf(y / 100 * 25, 4);
      assert y == y / 100 * 25 * 4;
    }
  }

  lemma MultipleOf(a: int, q: nat)
    requires q == 4 || q == 100
    ensures (a * q) % q == 0 && (a * q) / q == a
  {
  }

  /** Counting one more number raises the count of multiples of `q` exactly when it is one. */
  lemma DivNext(p: nat, q: nat)
    requires q == 4 || q == 100 || q == 400
    ensures p / q + (if (p + 1) % q == 0 then 1 else 0) == (p + 1) / q
  {
    var a, r := p / q, p % q;
    assert p == q * a + r && 0 <= r < q;
    if r + 1 == q {
      assert p + 1 == q * (a + 1);
    } else {
      assert p + 1 == q * a + (r + 1);
    }
  }

  /** The twelve months add up to the year's length. */
  lemma MonthsOfYear(y: int)
    ensures DaysBeforeMonth(y, 12) + DaysInMonth(y, 12) == if IsLeap(y) then 366 else 365
  {
    assert DaysBeforeMonth(y, 3) == 31 + DaysInMonth(y, 2);
    assert DaysBeforeMonth(y, 7) == DaysBeforeMonth(y, 3) + 122;
  }

  /** Whole calendar days from `today` to `date`; negative for dates already past. */
  function DaysUntil(date: int, today: int): int {
    date - today
  }

  // ---------------------------------------------------------------------------------------
  // The 12-hour clock.
  // ---------------------------------------------------------------------------------------

  /** `h % 12 || 12`: the hour shown on a 12-hour clock. */
  function Hour12(h: nat): (r: nat)
    ensures 1 <= r <= 12
    ensures r % 12 == h % 12
  {
    if h % 12 == 0 then 12 else h % 12
  }

  predicate IsAfternoon(h: nat) {
    h >= 12
  }

  function Period(h: nat): string {
    if IsAfternoon(h) then "PM" else "AM"
  }

  /** The 24-hour hour that `strptime` derives from `%I` and `%p`: 12 AM is 0, 12 PM is 12. */
  function To24(h12: nat, pm: bool): nat
    requires 1 <= h12 <= 12
  {
    if pm then (if h12 == 12 then 12 else h12 + 12) else (if h12 == 12 then 0 else h12)
  }

  /** The 12-hour reading of a 24-hour hour gives back that hour. */
  lemma To24OfHour12(h: nat)
    requires h < 24
    ensures To24(Hour12(h), IsAfternoon(h)) == h
  {
  }

  /** And a 12-hour reading converted to 24 hours reads back as the same hour and half-day. */
  lemma Hour12OfTo24(h12: nat, pm: bool)
    requires 1 <= h12 <= 12
    ensures To24(h12, pm) < 24
    ensures Hour12(To24(h12, pm)) == h12 && IsAfternoon(To24(h12, pm)) == pm
  {
  }

  /** `formatTime` for a present time: "h:MM AM" or "h:MM PM"; seconds are not shown. */
  function FormatClock(t: Time): string {
    NatToString(Hour12(t.hour)) + ":" + PadStart2(NatToString(t.minute)) + " " + Period(t.hour)
  }

  /** A run of digits followed by a non-digit separator splits in only one way. */
  lemma SplitAtSeparator(x: string, y: string, sep: char, rx: string, ry: string)
    requires AllDigits(x) && AllDigits(y) && !IsDigit(sep)
    requires x + [sep] + rx == y + [sep] + ry
    ensures x == y && rx == ry
  {
    var f, g := x + [sep] + rx, y + [sep] + ry;
    DigitRunBeforeSeparator(x, sep, rx);
    DigitRunBeforeSeparator(y, sep, ry);
    assert x == f[..|x|] && y == g[..|y|];
    assert rx == f[|x| + 1..] && ry == g[|y| + 1..];
  }

  /**
   * The rendered text determines the shown hour, the minute and the half-day, and so the
   * 24-hour hour of a valid time: two valid times render alike exactly when they agree
   * on hour and minute.
   */
  lemma FormatClockInjective(a: Time, b: Time)
    requires ValidTime(a) && ValidTime(b)
    ensures FormatClock(a) == FormatClock(b) <==> a.hour == b.hour && a.minute == b.minute
  {
    if FormatClock(a) == FormatClock(b) {
      FormatClockFields(a, b);
      NatToStringInjective(Hour12(a.hour), Hour12(b.hour));
      ParsePadStart2(a.minute);
      ParsePadStart2(b.minute);
      To24OfHour12(a.hour);
      To24OfHour12(b.hour);
    }
  }

  /** Equal renderings have equal hour text, minute text and half-day. */
  lemma FormatClockFields(a: Time, b: Time)
    requires FormatClock(a) == FormatClock(b)
    ensures NatToString(Hour12(a.hour)) == NatToString(Hour12(b.hour))
    ensures PadStart2(NatToString(a.minute)) == PadStart2(NatToString(b.minute))
    ensures Period(a.hour) == Period(b.hour)
  {
    var ha, hb := NatToString(Hour12(a.hour)), NatToString(Hour12(b.hour));
    var ma, mb := PadStart2(NatToString(a.minute)), PadStart2(NatToString(b.minute));
    var ra, rb := ma + " " + Period(a.hour), mb + " " + Period(b.hour);
    assert FormatClock(a) == ha + [':'] + ra;
    assert FormatClock(b) == hb + [':'] + rb;
    SplitAtSeparator(ha, hb, ':', ra, rb);
    FieldThenPeriod(ma, mb, Period(a.hour), Period(b.hour));
  }

  /** Two minute fields of the same width, each followed by a blank and a half-day, split alike. */
  lemma FieldThenPeriod(ma: string, mb: string, pa: string, pb: string)
    requires ma + " " + pa == mb + " " + pb
    requires |ma| == |mb|
    ensures ma == mb && pa == pb
  {
    var f := ma + " " + pa;
    assert ma == f[..|ma|] && pa == f[|ma| + 1..];
    assert mb == f[..|mb|] && pb == f[|mb| + 1..];
  }

  lemma FormatClockExamples()
    ensures FormatClock(Time(0, 5, 0)) == "12:05 AM"
    ensures FormatClock(Time(14, 0, 0)) == "2:00 PM"
    ensures FormatClock(Time(12, 30, 0)) == "12:30 PM"
  {
    FormatMidnightFive();
    FormatTwoPm();
    FormatHalfPastNoon();
  }

  lemma TwelveDigits()
    ensures NatToString(12) == "12"
  {
    assert NatToString(12) == NatToString(1) + "2";
  }

  lemma FormatMidnightFive()
    ensures FormatClock(Time(0, 5, 0)) == "12:05 AM"
  {
    TwelveDigits();
    assert PadStart2(NatToString(5)) == "05";
  }

  lemma FormatTwoPm()
    ensures FormatClock(Time(14, 0, 0)) == "2:00 PM"
  {
    assert PadStart2(NatToString(0)) == "00";
  }

  lemma FormatHalfPastNoon()
    ensures FormatClock(Time(12, 30, 0)) == "12:30 PM"
  {
    TwelveDigits();
    assert PadStart2(NatToString(30)) == "30";
  }
}
