/**
 * The part of java.time the app relies on: ISO (proleptic Gregorian) dates,
 * date-times without a zone, their natural order, epoch-day arithmetic, the
 * `ChronoUnit.HOURS/DAYS/MONTHS.between` measures and a few adjusters.
 * Date-times have a resolution of one second.
 */
module Calendar {

  datatype LocalDate = LocalDate(year: int, month: int, day: int)
  datatype LocalDateTime = LocalDateTime(date: LocalDate, secondOfDay: int)

  const SecondsPerHour: int := 3600
  const SecondsPerDay: int := 86400

  /** Days from 0000-01-01 to 1970-01-01, as java.time computes it. */
  const Days0000To1970: int := 146097 * 5 - (30 * 365 + 7)

  /** IsoChronology.isLeapYear. */
  predicate IsLeapYear(y: int) {
    y % 4 == 0 && (y % 100 != 0 || y % 400 == 0)
  }

  /** YearMonth.lengthOfMonth. */
  function LengthOfMonth(year: int, month: int): (n: int)
    requires 1 <= month <= 12
    ensures 28 <= n <= 31
    ensures n == 29 <==> month == 2 && IsLeapYear(year)
    ensures n == 28 <==> month == 2 && !IsLeapYear(year)
  {
    if month == 2 then (if IsLeapYear(year) then 29 else 28)
    else if month == 4 || month == 6 || month == 9 || month == 11 then 30
    else 31
  }

  predicate ValidDate(d: LocalDate) {
    1 <= d.month <= 12 && 1 <= d.day <= LengthOfMonth(d.year, d.month)
  }

  /** A LocalDate value: java.time refuses to construct any other. */
  type Date = d: LocalDate | ValidDate(d) witness LocalDate(1970, 1, 1)

  predicate ValidDateTime(t: LocalDateTime) {
    ValidDate(t.date) && 0 <= t.secondOfDay < SecondsPerDay
  }

  /** A LocalDateTime value. */
  type DateTime = t: LocalDateTime | ValidDateTime(t) witness LocalDateTime(LocalDate(1970, 1, 1), 0)

  // ---------------------------------------------------------------------------
  // Order (LocalDate.compareTo / LocalDateTime.compareTo)

  predicate DateBefore(a: LocalDate, b: LocalDate) {
    a.year < b.year
    || (a.year == b.year && (a.month < b.month || (a.month == b.month && a.day < b.day)))
  }

  /** `a.isBefore(b)`; `b.isAfter(a)` is the same test. */
  predicate IsBefore(a: DateTime, b: DateTime) {
    DateBefore(a.date, b.date) || (a.date == b.date && a.secondOfDay < b.secondOfDay)
  }

  // ---------------------------------------------------------------------------
  // Epoch days (LocalDate.toEpochDay), split into the year part and the month part

  /** Java's `/` on integers, which truncates toward zero. */
  function JavaDiv(a: int, b: int): int
    requires b > 0
  {
    if a >= 0 then a / b else -((-a) / b)
  }

  /** Leap days java.time adds for the years before `y` (negative below year 0). */
  function LeapDaysBefore(y: int): int {
    if y >= 0 then (y + 3) / 4 - (y + 99) / 100 + (y + 399) / 400
    else -((-y) / 4 - (-y) / 100 + (-y) / 400)
  }

  /** Epoch day of 1 January of year `y`. */
  function YearStart(y: int): int {
    365 * y + LeapDaysBefore(y) - Days0000To1970
  }

  /** Days from 1 January to the first day of `month` in a common year. */
  function CommonYearOffset(month: int): int
    requires 1 <= month <= 12
  {
    match month
    case 1 => 0
    case 2 => 31
    case 3 => 59
    case 4 => 90
    case 5 => 120
    case 6 => 151
    case 7 => 181
    case 8 => 212
    case 9 => 243
    case 10 => 273
    case 11 => 304
    case _ => 334
  }

  /** Days from 1 January to the first day of `month`: one more after February in a leap year. */
  function MonthOffset(year: int, month: int): int
    requires 1 <= month <= 12
  {
    CommonYearOffset(month) + if month > 2 && IsLeapYear(year) then 1 else 0
  }

  /** LocalDate.toEpochDay. */
  function EpochDay(d: Date): int {
    YearStart(d.year) + MonthOffset(d.year, d.month) + d.day - 1
  }

  /** LocalDate.getDayOfWeek().getValue(): Monday = 1 ... Sunday = 7. */
  function DayOfWeek(d: Date): (w: int)
    ensures 1 <= w <= 7
  {
    (EpochDay(d) + 3) % 7 + 1
  }

  /** Seconds since 1970-01-01T00:00 of the same local clock. */
  function Timestamp(t: DateTime): int {
    EpochDay(t.date) * SecondsPerDay + t.secondOfDay
  }

  lemma EpochDayOfEpoch()
    ensures EpochDay(LocalDate(1970, 1, 1)) == 0
    ensures DayOfWeek(LocalDate(1970, 1, 1)) == 4
  {
    assert LeapDaysBefore(1970) == 493 - 20 + 5;
    assert YearStart(1970) == 0;
  }

  lemma MonthStep(y: int, m: int)
    requires 1 <= m < 12
    ensures MonthOffset(y, m + 1) == MonthOffset(y, m) + LengthOfMonth(y, m)
  {
  }

  lemma DivStep4(x: int)
    ensures (x + 1) / 4 == x / 4 + (if (x + 1) % 4 == 0 then 1 else 0)
  {
  }

  lemma DivStep100(x: int)
    ensures (x + 1) / 100 == x / 100 + (if (x + 1) % 100 == 0 then 1 else 0)
  {
  }

  lemma DivStep400(x: int)
    ensures (x + 1) / 400 == x / 400 + (if (x + 1) % 400 == 0 then 1 else 0)
  {
  }

  function LeapIndicator(y: int): int {
    (if y % 4 == 0 then 1 else 0) - (if y % 100 == 0 then 1 else 0) + (if y % 400 == 0 then 1 else 0)
  }

  lemma DivisibleBy400(y: int)
    requires y % 400 == 0
    ensures y % 100 == 0
  {
    var k := y / 400;
    assert y == 100 * (4 * k);
  }

  lemma DivisibleBy100(y: int)
    requires y % 100 == 0
    ensures y % 4 == 0
  {
    var k := y / 100;
    assert y == 4 * (25 * k);
  }

  lemma LeapIndicatorIsLeap(y: int)
    ensures LeapIndicator(y) == if IsLeapYear(y) then 1 else 0
  {
    if y % 400 == 0 {
      DivisibleBy400(y);
      DivisibleBy100(y);
    } else if y % 100 == 0 {
      DivisibleBy100(y);
    }
  }

  /** Rounding `y / 4` up instead of down adds one unless 4 divides `y`. */
  lemma CeilStep4(y: int)
    ensures (y + 3) / 4 == y / 4 + (if y % 4 == 0 then 0 else 1)
    ensures (y + 4) / 4 == y / 4 + 1
  {
    var q, r := y / 4, y % 4;
    assert y == 4 * q + r && 0 <= r < 4;
    assert y + 3 == 4 * (q + (if r == 0 then 0 else 1)) + (if r == 0 then 3 else r - 1);
  }

  lemma CeilStep100(y: int)
    ensures (y + 99) / 100 == y / 100 + (if y % 100 == 0 then 0 else 1)
    ensures (y + 100) / 100 == y / 100 + 1
  {
    var q, r := y / 100, y % 100;
    assert y == 100 * q + r && 0 <= r < 100;
    assert y + 99 == 100 * (q + (if r == 0 then 0 else 1)) + (if r == 0 then 99 else r - 1);
  }

  lemma CeilStep400(y: int)
    ensures (y + 399) / 400 == y / 400 + (if y % 400 == 0 then 0 else 1)
    ensures (y + 400) / 400 == y / 400 + 1
  {
    var q, r := y / 400, y % 400;
    assert y == 400 * q + r && 0 <= r < 400;
    assert y + 399 == 400 * (q + (if r == 0 then 0 else 1)) + (if r == 0 then 399 else r - 1);
  }

  lemma LeapDaysStepNonNegative(y: int)
    requires y >= 0
    ensures LeapDaysBefore(y + 1) == LeapDaysBefore(y) + LeapIndicator(y)
  {
    CeilStep4(y);
    CeilStep100(y);
    CeilStep400(y);
    assert LeapDaysBefore(y + 1) == (y + 4) / 4 - (y + 100) / 100 + (y + 400) / 400;
  }

  lemma Divisible4Negated(x: int)
    ensures x % 4 == 0 <==> (-x) % 4 == 0
  {
    assert x == 4 * (x / 4) + x % 4 && -x == 4 * ((-x) / 4) + (-x) % 4;
  }

  lemma Divisible100Negated(x: int)
    ensures x % 100 == 0 <==> (-x) % 100 == 0
  {
    assert x == 100 * (x / 100) + x % 100 && -x == 100 * ((-x) / 100) + (-x) % 100;
  }

  lemma Divisible400Negated(x: int)
    ensures x % 400 == 0 <==> (-x) % 400 == 0
  {
    assert x == 400 * (x / 400) + x % 400 && -x == 400 * ((-x) / 400) + (-x) % 400;
  }

  lemma LeapDaysStepNegative(z: int)
    requires z >= 1
    ensures LeapDaysBefore(-z) == LeapDaysBefore(-z - 1) + LeapIndicator(-z - 1)
  {
    DivStep4(z);
    DivStep100(z);
    DivStep400(z);
    Divisible4Negated(z + 1);
    Divisible100Negated(z + 1);
    Divisible400Negated(z + 1);
    assert -(-z - 1) == z + 1;
  }

  lemma LeapDaysStep(y: int)
    ensures LeapDaysBefore(y + 1) == LeapDaysBefore(y) + (if IsLeapYear(y) then 1 else 0)
  {
    LeapIndicatorIsLeap(y);
    if y >= 0 {
      LeapDaysStepNonNegative(y);
    } else if y < -1 {
      LeapDaysStepNegative(-y - 1);
    }
  }

  lemma YearStep(y: int)
    ensures YearStart(y + 1) == YearStart(y) + 365 + (if IsLeapYear(y) then 1 else 0)
  {
    LeapDaysStep(y);
  }

  /** The last month of a year ends one day before the next year starts. */
  lemma YearEnd(y: int)
    ensures YearStart(y) + MonthOffset(y, 12) + 31 == YearStart(y + 1)
  {
    YearStep(y);
  }

  lemma {:induction false} MonthOffsetMonotone(y: int, m1: int, m2: int)
    requires 1 <= m1 < m2 <= 12
    ensures MonthOffset(y, m1) + LengthOfMonth(y, m1) <= MonthOffset(y, m2)
    decreases m2 - m1
  {
    MonthStep(y, m1);
    if m1 + 1 < m2 {
      MonthOffsetMonotone(y, m1 + 1, m2);
    }
  }

  lemma MonthOffsetBounds(y: int, m: int, d: int)
    requires 1 <= m <= 12 && 1 <= d <= LengthOfMonth(y, m)
    ensures 0 <= MonthOffset(y, m) + d - 1 < MonthOffset(y, 12) + 31
  {
    if m < 12 {
      MonthOffsetMonotone(y, m, 12);
    }
    if m > 1 {
      MonthOffsetMonotone(y, 1, m);
    }
  }

  lemma {:induction false} YearStartMonotone(y1: int, y2: int)
    requires y1 < y2
    ensures YearStart(y1) + MonthOffset(y1, 12) + 31 <= YearStart(y2)
    decreases y2 - y1
  {
    YearEnd(y1);
    if y1 + 1 < y2 {
      YearStartMonotone(y1 + 1, y2);
      YearEnd(y1 + 1);
      assert MonthOffset(y1 + 1, 12) + 31 >= 0;
    }
  }

  /** Epoch days grow with the calendar order, so they number the days one by one. */
  lemma EpochDayMonotone(a: Date, b: Date)
    requires DateBefore(a, b)
    ensures EpochDay(a) < EpochDay(b)
  {
    MonthOffsetBounds(a.year, a.month, a.day);
    MonthOffsetBounds(b.year, b.month, b.day);
    if a.year < b.year {
      YearStartMonotone(a.year, b.year);
    } else if a.month < b.month {
      MonthOffsetMonotone(a.year, a.month, b.month);
    }
  }

  /** Ordering date-times by their timestamps is ordering them as java.time does. */
  lemma TimestampOrder(a: DateTime, b: DateTime)
    ensures IsBefore(a, b) <==> Timestamp(a) < Timestamp(b)
    ensures Timestamp(a) == Timestamp(b) ==> a == b
  {
    if DateBefore(a.date, b.date) {
      EpochDayMonotone(a.date, b.date);
    } else if DateBefore(b.date, a.date) {
      EpochDayMonotone(b.date, a.date);
    } else {
      assert a.date == b.date;
    }
  }

  // ---------------------------------------------------------------------------
  // Moving by days and months

  /** `date.plusDays(1)`. */
  function NextDay(d: Date): Date {
    if d.day < LengthOfMonth(d.year, d.month) then LocalDate(d.year, d.month, d.day + 1)
    else if d.month < 12 then LocalDate(d.year, d.month + 1, 1)
    else LocalDate(d.year + 1, 1, 1)
  }

  /** `date.minusDays(1)`. */
  function PrevDay(d: Date): Date {
    if d.day > 1 then LocalDate(d.year, d.month, d.day - 1)
    else if d.month > 1 then LocalDate(d.year, d.month - 1, LengthOfMonth(d.year, d.month - 1))
    else LocalDate(d.year - 1, 12, 31)
  }

  lemma NextDayEpoch(d: Date)
    ensures EpochDay(NextDay(d)) == EpochDay(d) + 1
  {
    if d.day < LengthOfMonth(d.year, d.month) {
    } else if d.month < 12 {
      MonthStep(d.year, d.month);
    } else {
      YearEnd(d.year);
    }
  }

  lemma PrevDayEpoch(d: Date)
    ensures EpochDay(PrevDay(d)) == EpochDay(d) - 1
    ensures NextDay(PrevDay(d)) == d
  {
    NextDayEpoch(PrevDay(d));
  }

  /** `dateTime.minusDays(n)`: same time of day, `n` days earlier. */
  function {:induction false} MinusDays(t: DateTime, n: nat): (r: DateTime)
    ensures Timestamp(r) == Timestamp(t) - n * SecondsPerDay
    ensures r.secondOfDay == t.secondOfDay
    decreases n
  {
    if n == 0 then t
    else
      var r := MinusDays(t, n - 1);
      PrevDayEpoch(r.date);
      LocalDateTime(PrevDay(r.date), r.secondOfDay)
  }

  /** `dateTime.withDayOfMonth(1)`: keeps the year, the month and the time of day. */
  function WithDayOfMonth1(t: DateTime): (r: DateTime)
    ensures r.date.year == t.date.year && r.date.month == t.date.month && r.date.day == 1
    ensures r.secondOfDay == t.secondOfDay
    ensures !IsBefore(t, r)
  {
    LocalDateTime(LocalDate(t.date.year, t.date.month, 1), t.secondOfDay)
  }

  /** The month count java.time calls the proleptic month. */
  function ProlepticMonth(d: LocalDate): int {
    d.year * 12 + d.month - 1
  }

  /** `dateTime.plusMonths(n)`: the day of month is clamped to the length of the new month. */
  function PlusMonths(t: DateTime, n: int): (r: DateTime)
    ensures ProlepticMonth(r.date) == ProlepticMonth(t.date) + n
    ensures r.date.day == if t.date.day <= LengthOfMonth(r.date.year, r.date.month)
                          then t.date.day else LengthOfMonth(r.date.year, r.date.month)
    ensures r.secondOfDay == t.secondOfDay
  {
    var months := ProlepticMonth(t.date) + n;
    var y := months / 12;
    var m := months % 12 + 1;
    var len := LengthOfMonth(y, m);
    LocalDateTime(LocalDate(y, m, if t.date.day <= len then t.date.day else len), t.secondOfDay)
  }

  /** `dateTime.minusMonths(n)`. */
  function MinusMonths(t: DateTime, n: int): DateTime {
    PlusMonths(t, -n)
  }

  /** `LocalDate.until(end, MONTHS)`: whole months, read on (proleptic month, day). */
  function DateMonthsUntil(a: Date, b: Date): int {
    JavaDiv((ProlepticMonth(b) * 32 + b.day) - (ProlepticMonth(a) * 32 + a.day), 32)
  }

  /**
   * `ChronoUnit.MONTHS.between(a, b)` for date-times: when the end's time of
   * day has not yet reached the start's, the end date counts as one day
   * earlier (one day later if the end lies before the start).
   */
  function MonthsBetween(a: DateTime, b: DateTime): int {
    var endDate :=
      if DateBefore(a.date, b.date) && b.secondOfDay < a.secondOfDay then PrevDay(b.date)
      else if DateBefore(b.date, a.date) && b.secondOfDay > a.secondOfDay then NextDay(b.date)
      else b.date;
    DateMonthsUntil(a.date, endDate)
  }

  /** `ChronoUnit.HOURS.between(a, b)`. */
  function HoursBetween(a: DateTime, b: DateTime): int {
    JavaDiv(Timestamp(b) - Timestamp(a), SecondsPerHour)
  }

  /** `ChronoUnit.DAYS.between(a, b)`. */
  function DaysBetween(a: DateTime, b: DateTime): int {
    JavaDiv(Timestamp(b) - Timestamp(a), SecondsPerDay)
  }

  lemma DaysBetweenNonNegative(a: DateTime, b: DateTime)
    requires !IsBefore(b, a)
    ensures DaysBetween(a, b) >= 0
  {
    TimestampOrder(b, a);
  }
}
