/**
 * The calendar behind `changeDate`: the `yyyy-MM-dd` date key, and stepping
 * a date by whole days as `Calendar.add(Calendar.DAY_OF_YEAR, offset)` does
 * in the Gregorian calendar (month and year roll over, leap years have a
 * 29th of February).
 *
 * Dates start at 1583-01-01, the first whole year after the Julian/Gregorian
 * cutover; `Ordinal` counts days from there and gives day-stepping its meaning.
 */
module Calendar {
  import opened Wrappers
  import opened Decimal

  const FirstYear: int := 1583

  datatype Date = Date(year: int, month: int, day: int)

  /** The Gregorian leap-year rule. */
  predicate IsLeapYear(y: int) {
    y % 4 == 0 && (y % 100 != 0 || y % 400 == 0)
  }

  function DaysInMonth(y: int, m: int): (n: int)
    requires 1 <= m <= 12
    ensures 28 <= n <= 31
    ensures m == 2 ==> (n == 29 <==> IsLeapYear(y))
  {
    if m == 2 then (if IsLeapYear(y) then 29 else 28)
    else if m == 4 || m == 6 || m == 9 || m == 11 then 30
    else 31
  }

  function DaysInYear(y: int): int {
    if IsLeapYear(y) then 366 else 365
  }

  /** A calendar date that exists and lies in the modelled range. */
  predicate ValidDate(d: Date) {
    d.year >= FirstYear && 1 <= d.month <= 12 && 1 <= d.day <= DaysInMonth(d.year, d.month)
  }

  /** Lexicographic order on (year, month, day): calendar order. */
  predicate Before(d: Date, e: Date) {
    d.year < e.year ||
    (d.year == e.year && (d.month < e.month || (d.month == e.month && d.day < e.day)))
  }

  // ---------------------------------------------------------------------
  // Day numbers
  // ---------------------------------------------------------------------

  /** The days in the whole years from `FirstYear` up to (not including) `y`. */
  function DaysBeforeYear(y: int): (n: nat)
    requires y >= FirstYear
    decreases y - FirstYear
  {
    if y == FirstYear then 0 else DaysBeforeYear(y - 1) + DaysInYear(y - 1)
  }

  /** The days in the months of year `y` before month `m`, from the usual cumulative table. */
  function DaysBeforeMonth(y: int, m: int): (n: nat)
    requires 1 <= m <= 12
  {
    [0, 31, 59, 90, 120, 151, 181, 212, 243, 273, 304, 334][m - 1]
      + (if m > 2 && IsLeapYear(y) then 1 else 0)
  }

  /** The number of days from 1583-01-01 to `d`. */
  function Ordinal(d: Date): nat
    requires ValidDate(d)
  {
    DaysBeforeYear(d.year) + DaysBeforeMonth(d.year, d.month) + d.day - 1
  }

  /** The cumulative table agrees with the month lengths. */
  lemma MonthTable(y: int, m: int)
    requires 1 <= m < 12
    ensures DaysBeforeMonth(y, m + 1) == DaysBeforeMonth(y, m) + DaysInMonth(y, m)
  {
  }

  /** ... and the twelve months make up the year. */
  lemma YearTable(y: int)
    ensures DaysBeforeMonth(y, 12) + DaysInMonth(y, 12) == DaysInYear(y)
  {
  }

  // ---------------------------------------------------------------------
  // Stepping by days
  // ---------------------------------------------------------------------

  /** The next calendar day. */
  function NextDay(d: Date): (r: Date)
    requires ValidDate(d)
    ensures ValidDate(r) && Ordinal(r) == Ordinal(d) + 1
  {
    if d.day < DaysInMonth(d.year, d.month) then Date(d.year, d.month, d.day + 1)
    else if d.month < 12 then MonthTable(d.year, d.month); Date(d.year, d.month + 1, 1)
    else YearTable(d.year); Date(d.year + 1, 1, 1)
  }

  /** The previous calendar day; there is none before 1583-01-01 in this model. */
  function PrevDay(d: Date): (r: Date)
    requires ValidDate(d) && Ordinal(d) > 0
    ensures ValidDate(r) && Ordinal(r) + 1 == Ordinal(d)
  {
    if d.day > 1 then Date(d.year, d.month, d.day - 1)
    else if d.month > 1 then
      MonthTable(d.year, d.month - 1);
      Date(d.year, d.month - 1, DaysInMonth(d.year, d.month - 1))
    else
      YearTable(d.year - 1);
      Date(d.year - 1, 12, 31)
  }

  /** `Calendar.add(Calendar.DAY_OF_YEAR, n)`: step `|n|` days forward or back. */
  function AddDays(d: Date, n: int): (r: Date)
    requires ValidDate(d) && Ordinal(d) + n >= 0
    ensures ValidDate(r) && Ordinal(r) == Ordinal(d) + n
    decreases if n >= 0 then n else -n
  {
    if n == 0 then d
    else if n > 0 then AddDays(NextDay(d), n - 1)
    else AddDays(PrevDay(d), n + 1)
  }

  // ---------------------------------------------------------------------
  // Day numbers count calendar days
  // ---------------------------------------------------------------------

  lemma {:induction false} DaysBeforeYearMonotone(y: int, z: int)
    requires FirstYear <= y < z
    ensures DaysBeforeYear(y) + DaysInYear(y) <= DaysBeforeYear(z)
    decreases z - y
  {
    if y + 1 < z {
      DaysBeforeYearMonotone(y + 1, z);
    }
  }

  /** The day number of a date lies within its year's block of days. */
  lemma OrdinalWithinYear(d: Date)
    requires ValidDate(d)
    ensures DaysBeforeYear(d.year) <= Ordinal(d) < DaysBeforeYear(d.year) + DaysInYear(d.year)
  {
    if d.month < 12 {
      MonthTable(d.year, d.month);
      MonthsBefore(d.year, d.month + 1, 12);
    }
    YearTable(d.year);
  }

  lemma MonthsBefore(y: int, m: int, k: int)
    requires 1 <= m <= k <= 12
    ensures DaysBeforeMonth(y, m) <= DaysBeforeMonth(y, k)
  {
  }

  /** Calendar order and day-number order agree: the day number counts days. */
  lemma OrdinalMonotone(d: Date, e: Date)
    requires ValidDate(d) && ValidDate(e) && Before(d, e)
    ensures Ordinal(d) < Ordinal(e)
  {
    if d.year < e.year {
      OrdinalWithinYear(d);
      OrdinalWithinYear(e);
      DaysBeforeYearMonotone(d.year, e.year);
    } else if d.month < e.month {
      MonthTable(d.year, d.month);
      MonthsBefore(d.year, d.month + 1, e.month);
    }
  }

  /** Different dates have different day numbers. */
  lemma OrdinalInjective(d: Date, e: Date)
    requires ValidDate(d) && ValidDate(e) && Ordinal(d) == Ordinal(e)
    ensures d == e
  {
    if Before(d, e) {
      OrdinalMonotone(d, e);
    } else if Before(e, d) {
      OrdinalMonotone(e, d);
    }
  }

  /** Stepping a day forward and then back, or back and then forward, returns to the start. */
  lemma PrevNextDay(d: Date)
    requires ValidDate(d)
    ensures PrevDay(NextDay(d)) == d
    ensures Ordinal(d) > 0 ==> NextDay(PrevDay(d)) == d
  {
    OrdinalInjective(PrevDay(NextDay(d)), d);
    if Ordinal(d) > 0 {
      OrdinalInjective(NextDay(PrevDay(d)), d);
    }
  }

  /** `AddDays(d, n)` is the one date `n` days after `d`. */
  lemma AddDaysUnique(d: Date, n: int, e: Date)
    requires ValidDate(d) && ValidDate(e) && Ordinal(d) + n >= 0
    ensures AddDays(d, n) == e <==> Ordinal(e) == Ordinal(d) + n
  {
    if Ordinal(e) == Ordinal(d) + n {
      OrdinalInjective(AddDays(d, n), e);
    }
  }

  /** Stepping `n` days and then `-n` days returns to the original date. */
  lemma AddDaysRoundTrip(d: Date, n: int)
    requires ValidDate(d) && Ordinal(d) + n >= 0
    ensures AddDays(AddDays(d, n), -n) == d
  {
    OrdinalInjective(AddDays(AddDays(d, n), -n), d);
  }

  /**
   * Rollover: the 28th of February is followed by the 29th exactly in leap
   * years, the last day of a month by the 1st of the next, and the 31st of
   * December by the 1st of January of the next year.
   */
  lemma Rollover(y: int, m: int)
    requires y >= FirstYear && 1 <= m <= 12
    ensures NextDay(Date(y, 2, 28)) == if IsLeapYear(y) then Date(y, 2, 29) else Date(y, 3, 1)
    ensures m < 12 ==> NextDay(Date(y, m, DaysInMonth(y, m))) == Date(y, m + 1, 1)
    ensures NextDay(Date(y, 12, 31)) == Date(y + 1, 1, 1)
  {
  }

  // ---------------------------------------------------------------------
  // The yyyy-MM-dd key
  // ---------------------------------------------------------------------

  /** `SimpleDateFormat("yyyy-MM-dd").format`: year padded to four digits, month and day to two. */
  function Format(d: Date): (s: string)
    requires ValidDate(d)
    ensures |s| >= 10 && s[|s| - 6] == '-' && s[|s| - 3] == '-'
    ensures d.year <= 9999 ==> |s| == 10
  {
    YearDigits(d.year);
    PadLeft(DigitsOf(d.year), 4) + "-" + PadLeft(DigitsOf(d.month), 2) + "-" + PadLeft(DigitsOf(d.day), 2)
  }

  /** A year up to 9999 is written with at most four digits. */
  lemma YearDigits(y: nat)
    ensures y <= 9999 ==> |DigitsOf(y)| <= 4
  {
    if y <= 9999 {
      assert Pow10(4) == 10000;
      DigitsOfShort(y, 4);
    }
  }

  /**
   * Reading a key back: digits, '-', two digits, '-', two digits, naming an
   * existing date. Keys this model handles are always `Format` results.
   */
  function Parse(s: string): (r: Option<Date>)
    ensures r.Some? ==> ValidDate(r.value)
  {
    if |s| < 7 || s[|s| - 6] != '-' || s[|s| - 3] != '-' then None
    else
      var ys, ms, ds := s[..|s| - 6], s[|s| - 5..|s| - 3], s[|s| - 2..];
      if AllDigits(ys) && AllDigits(ms) && AllDigits(ds) then
        var d := Date(ValueOf(ys), ValueOf(ms), ValueOf(ds));
        if ValidDate(d) then Some(d) else None
      else None
  }

  /** A date key reads back as the date it was formatted from. */
  lemma ParseFormat(d: Date)
    requires ValidDate(d)
    ensures Parse(Format(d)) == Some(d)
  {
    var ys, ms, ds := PadLeft(DigitsOf(d.year), 4), PadLeft(DigitsOf(d.month), 2), PadLeft(DigitsOf(d.day), 2);
    ValueOfDigitsOf(d.year);
    ValueOfDigitsOf(d.month);
    ValueOfDigitsOf(d.day);
    ValueOfPadLeft(DigitsOf(d.year), 4);
    ValueOfPadLeft(DigitsOf(d.month), 2);
    ValueOfPadLeft(DigitsOf(d.day), 2);
    ParseParts(ys, ms, ds);
  }

  /** Parsing splits a key of the right shape back into its three digit fields. */
  lemma ParseParts(ys: string, ms: string, ds: string)
    requires AllDigits(ys) && AllDigits(ms) && AllDigits(ds) && |ms| == 2 && |ds| == 2
    ensures var d := Date(ValueOf(ys), ValueOf(ms), ValueOf(ds));
            Parse(ys + "-" + ms + "-" + ds) == if ValidDate(d) then Some(d) else None
  {
    var s := ys + "-" + ms + "-" + ds;
    assert s[..|s| - 6] == ys;
    assert s[|s| - 5..|s| - 3] == ms;
    assert s[|s| - 2..] == ds;
  }

  /** Different dates have different keys, so each day has its own bucket. */
  lemma FormatInjective(d: Date, e: Date)
    requires ValidDate(d) && ValidDate(e)
    ensures Format(d) == Format(e) <==> d == e
  {
    ParseFormat(d);
    ParseFormat(e);
  }
}
