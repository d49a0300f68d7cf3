/** Naive calendar dates (no time zone, no daylight saving), standing in for the
    date library the events module relies on.

    A date is a civil (year, month, day) triple of the proleptic Gregorian
    calendar. Its ordinal counts the days since 0001-01-01, so comparing or
    subtracting the timestamps of two midnights is comparing or subtracting
    ordinals, and a difference of `n * 86400` seconds is a difference of `n`
    ordinals. Weekdays are numbered as PHP's `date('w')` does: 0 is Sunday. */
module Calendar {

  datatype CivilDate = CivilDate(year: int, month: int, day: int)

  predicate IsLeapYear(y: int) {
    y % 4 == 0 && (y % 100 != 0 || y % 400 == 0)
  }

  function DaysInMonth(y: int, m: int): int {
    if m == 2 then (if IsLeapYear(y) then 29 else 28)
    else if m == 4 || m == 6 || m == 9 || m == 11 then 30
    else 31
  }

  function YearLength(y: int): int {
    if IsLeapYear(y) then 366 else 365
  }

  predicate ValidCivil(c: CivilDate) {
    1 <= c.month <= 12 && 1 <= c.day <= DaysInMonth(c.year, c.month)
  }

  /** A calendar date that exists. */
  type Date = c: CivilDate | ValidCivil(c) witness CivilDate(1970, 1, 1)

  type Weekday = w: int | 0 <= w <= 6

  /** Days of year `y` that precede the first of month `m`. */
  function DaysBeforeMonth(y: int, m: int): int {
    (match m
     case 1 => 0 case 2 => 31 case 3 => 59 case 4 => 90
     case 5 => 120 case 6 => 151 case 7 => 181 case 8 => 212
     case 9 => 243 case 10 => 273 case 11 => 304 case _ => 334)
    + (if IsLeapYear(y) && m > 2 then 1 else 0)
  }

  /** Days from 0001-01-01 to the first of January of year `y`. */
  function DaysBeforeYear(y: int): int {
    365 * (y - 1) + (y - 1) / 4 - (y - 1) / 100 + (y - 1) / 400
  }

  /** Day number of a date; 0001-01-01 (a Monday) is day 0. */
  function Ordinal(d: CivilDate): int {
    DaysBeforeYear(d.year) + DaysBeforeMonth(d.year, d.month) + d.day - 1
  }

  /** Day of the week, 0 = Sunday .. 6 = Saturday. */
  function WeekdayOf(d: Date): Weekday {
    (Ordinal(d) + 1) % 7
  }

  const Epoch: Date := CivilDate(1970, 1, 1)

  /** `strtotime(d) > 0` for a midnight of the UTC time zone. */
  predicate AfterEpoch(d: Date) {
    Ordinal(d) > Ordinal(Epoch)
  }

  // ---------------------------------------------------------------------
  // Year and month arithmetic

  lemma DivStep(y: int)
    ensures y / 4 - (y - 1) / 4 == (if y % 4 == 0 then 1 else 0)
    ensures y / 100 - (y - 1) / 100 == (if y % 100 == 0 then 1 else 0)
    ensures y / 400 - (y - 1) / 400 == (if y % 400 == 0 then 1 else 0)
  {
  }

  lemma YearStep(y: int)
    ensures DaysBeforeYear(y + 1) == DaysBeforeYear(y) + YearLength(y)
  {
    DivStep(y);
  }

  lemma MonthStep(y: int, m: int)
    requires 1 <= m < 12
    ensures DaysBeforeMonth(y, m + 1) == DaysBeforeMonth(y, m) + DaysInMonth(y, m)
  {
  }

  lemma DecemberEnd(y: int)
    ensures DaysBeforeMonth(y, 12) + DaysInMonth(y, 12) == YearLength(y)
  {
  }

  lemma {:induction false} DaysBeforeYearMonotone(a: int, b: int)
    requires a < b
    ensures DaysBeforeYear(a) + YearLength(a) <= DaysBeforeYear(b)
    decreases b - a
  {
    YearStep(a);
    if a + 1 < b {
      DaysBeforeYearMonotone(a + 1, b);
    }
  }

  lemma MonthsFitInYear(d: Date)
    ensures 0 <= DaysBeforeMonth(d.year, d.month) + d.day - 1 < YearLength(d.year)
  {
  }

  lemma MonthOrder(y: int, m1: int, m2: int)
    requires 1 <= m1 < m2 <= 12
    ensures DaysBeforeMonth(y, m1) + DaysInMonth(y, m1) <= DaysBeforeMonth(y, m2)
  {
  }

  // ---------------------------------------------------------------------
  // Ordinals order dates like their civil fields

  predicate CivilBefore(a: CivilDate, b: CivilDate) {
    a.year < b.year
    || (a.year == b.year && a.month < b.month)
    || (a.year == b.year && a.month == b.month && a.day < b.day)
  }

  lemma CivilBeforeOrdinal(a: Date, b: Date)
    requires CivilBefore(a, b)
    ensures Ordinal(a) < Ordinal(b)
  {
    if a.year < b.year {
      MonthsFitInYear(a);
      MonthsFitInYear(b);
      DaysBeforeYearMonotone(a.year, b.year);
    } else if a.month < b.month {
      MonthOrder(a.year, a.month, b.month);
    }
  }

  /** Two dates with one day number are one date. */
  lemma OrdinalInjective(a: Date, b: Date)
    ensures Ordinal(a) == Ordinal(b) ==> a == b
  {
    if a != b {
      if CivilBefore(a, b) {
        CivilBeforeOrdinal(a, b);
      } else {
        assert CivilBefore(b, a);
        CivilBeforeOrdinal(b, a);
      }
    }
  }

  // ---------------------------------------------------------------------
  // Day steps (the library's tomorrow(), addDay(n), subtractDay(n))

  function Tomorrow(d: Date): (r: Date)
    ensures Ordinal(r) == Ordinal(d) + 1
  {
    if d.day < DaysInMonth(d.year, d.month) then
      CivilDate(d.year, d.month, d.day + 1)
    else if d.month < 12 then
      MonthStep(d.year, d.month);
      CivilDate(d.year, d.month + 1, 1)
    else
      DecemberEnd(d.year);
      YearStep(d.year);
      CivilDate(d.year + 1, 1, 1)
  }

  function Yesterday(d: Date): (r: Date)
    ensures Ordinal(r) == Ordinal(d) - 1
  {
    if d.day > 1 then
      CivilDate(d.year, d.month, d.day - 1)
    else if d.month > 1 then
      MonthStep(d.year, d.month - 1);
      CivilDate(d.year, d.month - 1, DaysInMonth(d.year, d.month - 1))
    else
      DecemberEnd(d.year - 1);
      YearStep(d.year - 1);
      CivilDate(d.year - 1, 12, 31)
  }

  /** The date `n` days after `d` (before it when `n` is negative). */
  function AddDays(d: Date, n: int): (r: Date)
    ensures Ordinal(r) == Ordinal(d) + n
    decreases if n >= 0 then n else -n
  {
    if n == 0 then d
    else if n > 0 then AddDays(Tomorrow(d), n - 1)
    else AddDays(Yesterday(d), n + 1)
  }

  lemma ModSeven(a: int, n: int)
    ensures (a + n) % 7 == (a % 7 + n) % 7
  {
    var q := a / 7;
    assert a == 7 * q + a % 7;
    assert (a % 7 + n) + 7 * q == a + n;
  }

  lemma WeekdayShift(d: Date, n: int)
    ensures WeekdayOf(AddDays(d, n)) == (WeekdayOf(d) + n) % 7
  {
    ModSeven(Ordinal(d) + 1, n);
  }

  /** Moving from weekday `WeekdayOf(d)` by `n` days, with no wrap past a
      week's end, lands on weekday `WeekdayOf(d) + n`. */
  lemma LandOn(d: Date, n: int, w: Weekday)
    requires WeekdayOf(d) + n == w
    ensures WeekdayOf(AddDays(d, n)) == w
  {
    WeekdayShift(d, n);
    WithinWeek(WeekdayOf(d) + n);
  }

  lemma WithinWeek(r: int)
    requires 0 <= r < 7
    ensures r % 7 == r
  {
  }

  /** The date with ordinal `Ordinal(d) + n` is `AddDays(d, n)`. */
  lemma AtOrdinal(d: Date, e: Date, n: int)
    requires Ordinal(e) == Ordinal(d) + n
    ensures e == AddDays(d, n)
  {
    OrdinalInjective(e, AddDays(d, n));
  }

  // ---------------------------------------------------------------------
  // Weeks (Sunday to Saturday) and months

  function FirstDayOfWeek(d: Date): (r: Date)
    ensures WeekdayOf(r) == 0
    ensures Ordinal(d) - 6 <= Ordinal(r) <= Ordinal(d)
  {
    LandOn(d, -(WeekdayOf(d) as int), 0);
    AddDays(d, -(WeekdayOf(d) as int))
  }

  function FinalDayOfWeek(d: Date): (r: Date)
    ensures WeekdayOf(r) == 6
    ensures Ordinal(d) <= Ordinal(r) <= Ordinal(d) + 6
    ensures Ordinal(r) == Ordinal(FirstDayOfWeek(d)) + 6
  {
    LandOn(d, 6 - WeekdayOf(d), 6);
    AddDays(d, 6 - WeekdayOf(d))
  }

  function FirstDayOfMonth(d: Date): (r: Date)
    ensures r.year == d.year && r.month == d.month && r.day == 1
    ensures Ordinal(r) == Ordinal(d) - d.day + 1
  {
    CivilDate(d.year, d.month, 1)
  }

  function FinalDayOfMonth(d: Date): (r: Date)
    ensures r.year == d.year && r.month == d.month
    ensures r.day == DaysInMonth(d.year, d.month)
    ensures Ordinal(r) == Ordinal(d) - d.day + DaysInMonth(d.year, d.month)
  {
    CivilDate(d.year, d.month, DaysInMonth(d.year, d.month))
  }

  /** Months counted from year 0: `y * 12 + m`, as `format('Y') * 12 + format('n')`. */
  function MonthNumber(d: CivilDate): int {
    d.year * 12 + d.month
  }

  /** The library's addMonth(n) (subtractMonth for negative n): the same day
      of the month `n` months on, clamped to the length of that month. */
  function AddMonths(d: Date, n: int): (r: Date)
    ensures MonthNumber(r) == MonthNumber(d) + n
    ensures r.day == if d.day <= DaysInMonth(r.year, r.month) then d.day else DaysInMonth(r.year, r.month)
  {
    var t := d.year * 12 + (d.month - 1) + n;
    var y, m := t / 12, t % 12 + 1;
    CivilDate(y, m, if d.day <= DaysInMonth(y, m) then d.day else DaysInMonth(y, m))
  }

  /** The month after the one holding `d`: December rolls into January. */
  lemma MonthAfter(d: Date)
    ensures var n := AddMonths(d, 1);
      if d.month < 12 then n.year == d.year && n.month == d.month + 1
      else n.year == d.year + 1 && n.month == 1
  {
    var t := d.year * 12 + (d.month - 1) + 1;
    if d.month < 12 {
      assert t == d.year * 12 + d.month;
    } else {
      assert t == (d.year + 1) * 12;
    }
  }

  /** The month before the one holding `d`: January rolls back into December. */
  lemma MonthBefore(d: Date)
    ensures var p := AddMonths(d, -1);
      if d.month > 1 then p.year == d.year && p.month == d.month - 1
      else p.year == d.year - 1 && p.month == 12
  {
    var t := d.year * 12 + (d.month - 1) - 1;
    if d.month > 1 {
      assert t == d.year * 12 + (d.month - 2);
    } else {
      assert t == (d.year - 1) * 12 + 11;
    }
  }

  /** First day of the month after the one holding `d`. */
  lemma NextMonthStart(d: Date)
    ensures Ordinal(FirstDayOfMonth(AddMonths(d, 1))) == Ordinal(FinalDayOfMonth(d)) + 1
  {
    var f := FinalDayOfMonth(d);
    var n := FirstDayOfMonth(AddMonths(d, 1));
    MonthAfter(d);
    assert Tomorrow(f) == n;
  }

  /** Last day of the month before the one holding `d`. */
  lemma PreviousMonthEnd(d: Date)
    ensures Ordinal(FinalDayOfMonth(AddMonths(d, -1))) == Ordinal(FirstDayOfMonth(d)) - 1
  {
    var f := FirstDayOfMonth(d);
    var p := FinalDayOfMonth(AddMonths(d, -1));
    MonthBefore(d);
    assert Yesterday(f) == p;
  }

  // ---------------------------------------------------------------------
  // nextDay(w) / previousDay(w): strictly after / before, landing on weekday w

  /** Stepping `(b - a - 1) % 7 + 1` days forward from weekday `a` lands on `b`. */
  lemma StepToWeekday(a: Weekday, b: Weekday, k: int)
    requires k == (b - a - 1) % 7 + 1
    ensures 1 <= k <= 7
    ensures (a + k) % 7 == b
    ensures (b + -k) % 7 == a
  {
    var x := b - a - 1;
    assert x % 7 == if x < 0 then x + 7 else x;
  }

  /** The step nextDay(w) takes from `d`. */
  lemma StepForwardTo(d: Date, w: Weekday, k: int)
    requires k == (w - WeekdayOf(d) - 1) % 7 + 1
    ensures 1 <= k <= 7 && WeekdayOf(AddDays(d, k)) == w
  {
    WeekdayShift(d, k);
    StepToWeekday(WeekdayOf(d), w, k);
  }

  /** The step previousDay(w) takes back from `d`. */
  lemma StepBackTo(d: Date, w: Weekday, k: int)
    requires k == (WeekdayOf(d) - w - 1) % 7 + 1
    ensures 1 <= k <= 7 && WeekdayOf(AddDays(d, -k)) == w
  {
    WeekdayShift(d, -k);
    StepToWeekday(w, WeekdayOf(d), k);
  }

  /** A whole week on, the weekday is the same. */
  lemma WeekOn(a: Weekday)
    ensures (a + 7) % 7 == a
  {
  }

  /** Two dates less than a week apart that share a weekday are one day. */
  lemma SameWeekdayWithinWeek(a: Date, b: Date)
    requires WeekdayOf(a) == WeekdayOf(b)
    requires -7 < Ordinal(a) - Ordinal(b) < 7
    ensures a == b
  {
    var x, y := Ordinal(a) + 1, Ordinal(b) + 1;
    assert x == 7 * (x / 7) + x % 7 && y == 7 * (y / 7) + y % 7;
    assert x / 7 == y / 7;
    OrdinalInjective(a, b);
  }

  function NextDay(d: Date, w: Weekday): (r: Date)
    ensures WeekdayOf(r) == w
    ensures Ordinal(d) < Ordinal(r) <= Ordinal(d) + 7
  {
    var k := (w - WeekdayOf(d) - 1) % 7 + 1;
    StepForwardTo(d, w, k);
    AddDays(d, k)
  }

  /** nextDay(w) lands on the first day with weekday `w` after `d`. */
  lemma NextDayIsFirst(d: Date, w: Weekday, e: Date)
    requires WeekdayOf(e) == w && Ordinal(d) < Ordinal(e) <= Ordinal(d) + 7
    ensures e == NextDay(d, w)
  {
    SameWeekdayWithinWeek(e, NextDay(d, w));
  }

  /** From a day that already has weekday `w`, nextDay(w) is a week on. */
  lemma NextDayFromSameWeekday(d: Date, w: Weekday)
    requires WeekdayOf(d) == w
    ensures Ordinal(NextDay(d, w)) == Ordinal(d) + 7
  {
    var e := AddDays(d, 7);
    WeekdayShift(d, 7);
    WeekOn(w);
    NextDayIsFirst(d, w, e);
  }

  function PreviousDay(d: Date, w: Weekday): (r: Date)
    ensures WeekdayOf(r) == w
    ensures Ordinal(d) - 7 <= Ordinal(r) < Ordinal(d)
  {
    var k := (WeekdayOf(d) - w - 1) % 7 + 1;
    StepBackTo(d, w, k);
    AddDays(d, -k)
  }

  /** previousDay(w) lands on the last day with weekday `w` before `d`. */
  lemma PreviousDayIsLast(d: Date, w: Weekday, e: Date)
    requires WeekdayOf(e) == w && Ordinal(d) - 7 <= Ordinal(e) < Ordinal(d)
    ensures e == PreviousDay(d, w)
  {
    SameWeekdayWithinWeek(e, PreviousDay(d, w));
  }

  // ---------------------------------------------------------------------
  // A moment of a day: `time()` and timestamps with a time of day

  datatype Instant = Instant(date: Date, secondOfDay: nat)

  /** `strtotime(d) < time()`: midnight of `d` lies before `now`. */
  predicate MidnightBefore(d: Date, now: Instant) {
    Ordinal(d) < Ordinal(now.date) || (d == now.date && now.secondOfDay > 0)
  }

  /** Midnight of `d` lies before `now` exactly when `d` is an earlier day,
      or is `now`'s day and `now` is past midnight. */
  lemma MidnightBeforeByOrdinal(d: Date, now: Instant)
    ensures MidnightBefore(d, now) <==>
      Ordinal(d) < Ordinal(now.date) || (Ordinal(d) == Ordinal(now.date) && now.secondOfDay > 0)
  {
    OrdinalInjective(d, now.date);
  }

  /** `a <= b` on timestamps. */
  predicate InstantAtMost(a: Instant, b: Instant) {
    Ordinal(a.date) < Ordinal(b.date)
    || (Ordinal(a.date) == Ordinal(b.date) && a.secondOfDay <= b.secondOfDay)
  }
}
