/**
 * The billing period the usage queries cover: from the first day of today's
 * month up to (not including) tomorrow, in the proleptic Gregorian calendar of
 * Python's `datetime.date`, and the timestamp strings sent to the usage API.
 * Today's date is an input; the wall clock is outside the model.
 */
module BillingPeriod {
  import opened Wrappers

  const MinYear := 1
  const MaxYear := 9999
  /** The ordinal of 9999-12-31, the last day `datetime.date` can represent. */
  const MaxOrdinal := 3652059

  datatype Date = Date(year: int, month: int, day: int)

  predicate IsLeap(y: int)
  {
    y % 4 == 0 && (y % 100 != 0 || y % 400 == 0)
  }

  function DaysInYear(y: int): int
  {
    if IsLeap(y) then 366 else 365
  }

  function DaysInMonth(y: int, m: int): int
    requires 1 <= m <= 12
  {
    if m == 2 then (if IsLeap(y) then 29 else 28)
    else [31, 28, 31, 30, 31, 30, 31, 31, 30, 31, 30, 31][m - 1]
  }

  /** Days in the year `y` before the first of month `m`. */
  function DaysBeforeMonth(y: int, m: int): int
    requires 1 <= m <= 12
  {
    [0, 31, 59, 90, 120, 151, 181, 212, 243, 273, 304, 334][m - 1]
      + (if m > 2 && IsLeap(y) then 1 else 0)
  }

  /** Days before January 1 of year `y`, counted from January 1 of year 1. */
  function DaysBeforeYear(y: int): int
    requires y >= 1
  {
    var y1 := y - 1;
    y1 * 365 + y1 / 4 - y1 / 100 + y1 / 400
  }

  /** A date that `datetime.date` accepts. */
  predicate ValidDate(d: Date)
  {
    && MinYear <= d.year <= MaxYear
    && 1 <= d.month <= 12
    && 1 <= d.day <= DaysInMonth(d.year, d.month)
  }

  /** Day number, with 0001-01-01 as day 1 (`date.toordinal`). */
  function Ordinal(d: Date): int
    requires ValidDate(d)
  {
    DaysBeforeYear(d.year) + DaysBeforeMonth(d.year, d.month) + d.day
  }

  /** Calendar order: earlier year, or same year and earlier month, or same month and earlier day. */
  predicate Before(a: Date, b: Date)
  {
    a.year < b.year
    || (a.year == b.year && a.month < b.month)
    || (a.year == b.year && a.month == b.month && a.day < b.day)
  }

  /**
   * The end date, `today + timedelta(days=1)`: the next calendar day, rolling the month and the
   * year over; `None` stands for the OverflowError raised past 9999-12-31.
   */
  function NextDay(d: Date): (r: Option<Date>)
    requires ValidDate(d)
    ensures r.None? <==> d == Date(MaxYear, 12, 31)
    ensures r.Some? ==> ValidDate(r.value) && Before(d, r.value)
  {
    if d.day < DaysInMonth(d.year, d.month) then Some(Date(d.year, d.month, d.day + 1))
    else if d.month < 12 then Some(Date(d.year, d.month + 1, 1))
    else if d.year < MaxYear then Some(Date(d.year + 1, 1, 1))
    else None
  }

  /** `datetime.date(today.year, today.month, 1)`. */
  function StartDate(today: Date): (r: Date)
    requires ValidDate(today)
    ensures ValidDate(r)
    ensures r.year == today.year && r.month == today.month && r.day == 1
  {
    Date(today.year, today.month, 1)
  }

  lemma MonthStep(y: int, m: int)
    requires 1 <= m < 12
    ensures DaysBeforeMonth(y, m + 1) == DaysBeforeMonth(y, m) + DaysInMonth(y, m)
  {
  }

  lemma LastMonthEndsYear(y: int)
    ensures DaysBeforeMonth(y, 12) + DaysInMonth(y, 12) == DaysInYear(y)
  {
  }

  lemma YearStep(y: int)
    requires y >= 1
    ensures DaysBeforeYear(y + 1) == DaysBeforeYear(y) + DaysInYear(y)
  {
    var y1 := y - 1;
    assert y / 4 == y1 / 4 + (if y % 4 == 0 then 1 else 0);
    assert y / 100 == y1 / 100 + (if y % 100 == 0 then 1 else 0);
    assert y / 400 == y1 / 400 + (if y % 400 == 0 then 1 else 0);
  }

  lemma {:induction false} YearsAreOrdered(y: int, z: int)
    requires 1 <= y < z
    ensures DaysBeforeYear(y) + DaysInYear(y) <= DaysBeforeYear(z)
    decreases z - y
  {
    YearStep(y);
    if y + 1 < z {
      YearsAreOrdered(y + 1, z);
    }
  }

  lemma {:induction false} MonthsAreOrdered(y: int, m: int, n: int)
    requires 1 <= m < n <= 12
    ensures DaysBeforeMonth(y, m) + DaysInMonth(y, m) <= DaysBeforeMonth(y, n)
    decreases n - m
  {
    MonthStep(y, m);
    if m + 1 < n {
      MonthsAreOrdered(y, m + 1, n);
    }
  }

  lemma MonthInsideYear(y: int, m: int)
    requires 1 <= m <= 12
    ensures DaysBeforeMonth(y, m) + DaysInMonth(y, m) <= DaysInYear(y)
  {
    if m < 12 {
      MonthsAreOrdered(y, m, 12);
    }
    LastMonthEndsYear(y);
  }

  /** The ordinal respects calendar order, so it is one-to-one on valid dates. */
  lemma OrdinalMonotone(a: Date, b: Date)
    requires ValidDate(a) && ValidDate(b) && Before(a, b)
    ensures Ordinal(a) < Ordinal(b)
  {
    if a.year < b.year {
      MonthInsideYear(a.year, a.month);
      YearsAreOrdered(a.year, b.year);
    } else if a.month < b.month {
      MonthsAreOrdered(a.year, a.month, b.month);
    }
  }

  lemma OrdinalInjective(a: Date, b: Date)
    requires ValidDate(a) && ValidDate(b) && Ordinal(a) == Ordinal(b)
    ensures a == b
  {
    if Before(a, b) {
      OrdinalMonotone(a, b);
    } else if Before(b, a) {
      OrdinalMonotone(b, a);
    }
  }

  /**
   * `date + timedelta(days=1)` is `date.fromordinal(d.toordinal() + 1)`:
   * the next day has the next ordinal, and the overflow happens exactly at the
   * largest ordinal.
   */
  lemma NextDayIsNextOrdinal(d: Date)
    requires ValidDate(d)
    ensures NextDay(d).Some? ==> Ordinal(NextDay(d).value) == Ordinal(d) + 1
    ensures NextDay(d).None? <==> Ordinal(d) == MaxOrdinal
  {
    var last := Date(MaxYear, 12, 31);
    assert Ordinal(last) == MaxOrdinal;
    if d != last {
      OrdinalMonotone(d, last);
    }
    if d.day == DaysInMonth(d.year, d.month) {
      if d.month < 12 {
        MonthStep(d.year, d.month);
      } else if d.year < MaxYear {
        LastMonthEndsYear(d.year);
        YearStep(d.year);
      }
    }
  }

  /** The end date is the one and only valid date whose ordinal follows today's. */
  lemma EndDateIsTheDayAfter(today: Date, e: Date)
    requires ValidDate(today) && NextDay(today).Some?
    requires ValidDate(e)
    ensures Ordinal(e) == Ordinal(today) + 1 <==> e == NextDay(today).value
  {
    NextDayIsNextOrdinal(today);
    if Ordinal(e) == Ordinal(today) + 1 {
      OrdinalInjective(e, NextDay(today).value);
    }
  }

  /** Today lies in the half-open billing period [start, end), which begins on the first of the month. */
  lemma TodayInBillingPeriod(today: Date)
    requires ValidDate(today) && NextDay(today).Some?
    ensures Ordinal(StartDate(today)) <= Ordinal(today) < Ordinal(NextDay(today).value)
    ensures Ordinal(today) - Ordinal(StartDate(today)) == today.day - 1
    ensures Ordinal(NextDay(today).value) - Ordinal(today) == 1
  {
    NextDayIsNextOrdinal(today);
  }

  // Timestamps: `strftime("%Y-%m-%dT%H:%M:%S.000Z")` on a date, whose time is midnight.

  function Pow10(n: nat): nat
  {
    if n == 0 then 1 else 10 * Pow10(n - 1)
  }

  predicate IsDigit(c: char)
  {
    '0' <= c <= '9'
  }

  predicate AllDigits(s: string)
  {
    forall i :: 0 <= i < |s| ==> IsDigit(s[i])
  }

  /** The lowest `width` decimal digits of `n`, zero-padded on the left. */
  function Digits(n: nat, width: nat): string
  {
    if width == 0 then ""
    else Digits(n / 10, width - 1) + [('0' as int + n % 10) as char]
  }

  /** The number a string of decimal digits denotes. */
  function DigitsValue(s: string): nat
    requires AllDigits(s)
  {
    if s == [] then 0
    else DigitsValue(s[..|s| - 1]) * 10 + (s[|s| - 1] as int - '0' as int)
  }

  /**
   * The timestamp of midnight UTC on `d`, as the usage API is sent it: 24 characters
   * that read back as `d`.
   */
  function Timestamp(d: Date): (r: string)
    requires ValidDate(d)
    ensures |r| == 24
    ensures ParseTimestamp(r) == Some(d)
  {
    DigitsRoundTrip(d.year, 4);
    DigitsRoundTrip(d.month, 2);
    DigitsRoundTrip(d.day, 2);
    TimestampFields(Digits(d.year, 4), Digits(d.month, 2), Digits(d.day, 2));
    Digits(d.year, 4) + "-" + Digits(d.month, 2) + "-" + Digits(d.day, 2) + "T00:00:00.000Z"
  }

  /** Reading such a timestamp back; the partner of `Timestamp`. */
  function ParseTimestamp(s: string): Option<Date>
  {
    if |s| == 24 && AllDigits(s[..4]) && s[4] == '-' && AllDigits(s[5..7]) && s[7] == '-'
       && AllDigits(s[8..10]) && s[10..] == "T00:00:00.000Z"
    then
      var d := Date(DigitsValue(s[..4]), DigitsValue(s[5..7]), DigitsValue(s[8..10]));
      if ValidDate(d) then Some(d) else None
    else None
  }

  lemma {:induction false} DigitsRoundTrip(n: nat, width: nat)
    requires n < Pow10(width)
    ensures |Digits(n, width)| == width && AllDigits(Digits(n, width))
    ensures DigitsValue(Digits(n, width)) == n
  {
    if width > 0 {
      DigitsRoundTrip(n / 10, width - 1);
      var s := Digits(n, width);
      assert s[..|s| - 1] == Digits(n / 10, width - 1);
    }
  }

  lemma {:induction false} DigitsValueRoundTrip(s: string)
    requires AllDigits(s)
    ensures DigitsValue(s) < Pow10(|s|)
    ensures Digits(DigitsValue(s), |s|) == s
  {
    if s != [] {
      var prefix := s[..|s| - 1];
      DigitsValueRoundTrip(prefix);
      assert s == prefix + [s[|s| - 1]];
    }
  }

  lemma TimestampFields(year: string, month: string, day: string)
    requires |year| == 4 && |month| == 2 && |day| == 2
    ensures var s := year + "-" + month + "-" + day + "T00:00:00.000Z";
      && |s| == 24 && s[..4] == year && s[4] == '-' && s[5..7] == month && s[7] == '-'
      && s[8..10] == day && s[10..] == "T00:00:00.000Z"
  {
  }

  /** Every string that reads as a date is exactly the timestamp of that date. */
  lemma ParseTimestampRoundTrip(s: string)
    requires ParseTimestamp(s).Some?
    ensures Timestamp(ParseTimestamp(s).value) == s
  {
    DigitsValueRoundTrip(s[..4]);
    DigitsValueRoundTrip(s[5..7]);
    DigitsValueRoundTrip(s[8..10]);
    assert s == s[..4] + "-" + s[5..7] + "-" + s[8..10] + s[10..];
  }

  /** Both query bounds as the usage request carries them; `None` when tomorrow overflows. */
  function BillingPeriodTimestamps(today: Date): (r: Option<(string, string)>)
    requires ValidDate(today)
    ensures r.Some? <==> today != Date(MaxYear, 12, 31)
    ensures r.Some? ==> ParseTimestamp(r.value.0) == Some(StartDate(today))
    ensures r.Some? ==> ParseTimestamp(r.value.1) == NextDay(today)
  {
    match NextDay(today)
    case None => None
    case Some(end) =>
      Some((Timestamp(StartDate(today)), Timestamp(end)))
  }
}
