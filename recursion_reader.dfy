/** The recurrence test of src/helpers/RecursionReader.php: a reader is built
    once per event from the event's settings and related rows, and then
    answers, for any date, whether an occurrence of the event falls on it. */
module RecursionReading {
  import opened Wrappers
  import opened Calendar
  import opened EventRecords

  /** The month count `Y * 12 + n` of `a` minus that of `b`. */
  function DifferenceInMonths(a: Date, b: Date): (r: int)
    ensures r == 0 <==> (a.year == b.year && a.month == b.month)
    ensures r > 0 <==> (a.year > b.year || (a.year == b.year && a.month > b.month))
  {
    (a.year * 12 + a.month) - (b.year * 12 + b.month)
  }

  lemma DifferenceInMonthsAntisymmetric(a: Date, b: Date)
    ensures DifferenceInMonths(a, b) == -DifferenceInMonths(b, a)
  {
  }

  /** The state the reader's constructor leaves behind. `ts` is the start
      date of the event's first date/time row (absent when it has none). */
  datatype RecursionReader = RecursionReader(
    event: EventsPage,
    ts: Option<Date>,
    allowedDaysOfWeek: seq<int>,
    allowedDaysOfMonth: seq<int>,
    exceptions: seq<Date>)
  {
    /** Callers only ask once the event has a date/time row, and the
        intervals that are divided by without a guard are positive. */
    predicate Ready() {
      ts.Some? && IntervalsUsable(event)
    }

    /** `recursionHappensOn`: does an occurrence fall on date `d`? Only the
        three rule types produce occurrences, never before the start date
        and never on an exception date. */
    predicate RecursionHappensOn(d: Date)
      requires Ready()
      ensures RecursionHappensOn(d) ==>
        Ordinal(ts.value) <= Ordinal(d) && d !in exceptions && 1 <= event.customRecursionType <= 3
    {
      var start := ts.value;
      if Ordinal(d) < Ordinal(start) then false
      else if d in exceptions then false
      else if event.customRecursionType == 1 then
        event.dailyInterval != 0 && (Ordinal(d) - Ordinal(start)) % event.dailyInterval == 0
      else if event.customRecursionType == 2 then
        WeeksBetween(d, start) % event.weeklyInterval == 0 && WeekdayOf(d) as int in allowedDaysOfWeek
      else if event.customRecursionType == 3 then
        DifferenceInMonths(d, start) % event.monthlyInterval == 0
        && if event.monthlyRecursionType1 == 1 then d.day in allowedDaysOfMonth
           else if event.monthlyRecursionType2 == 1 then
             WeekdayIndexMatches(d, event.monthlyIndex, event.monthlyDayOfWeek)
           else false
      else false
    }
  }

  /** Whole weeks from the Sunday starting `b`'s week to the Sunday starting `a`'s. */
  function WeeksBetween(a: Date, b: Date): (r: int)
    ensures Ordinal(FirstDayOfWeek(a)) - Ordinal(FirstDayOfWeek(b)) == 7 * r
  {
    var x, y := Ordinal(FirstDayOfWeek(a)) + 1, Ordinal(FirstDayOfWeek(b)) + 1;
    assert x == 7 * (x / 7) + x % 7 && y == 7 * (y / 7) + y % 7;
    x / 7 - y / 7
  }

  /** The date reached from `x` by `n` calls of nextDay(w). */
  function NthNextDay(x: Date, w: Weekday, n: nat): Date {
    if n == 0 then x else NextDay(NthNextDay(x, w, n - 1), w)
  }

  /** How many times `for ($i = 0; $i < index; $i++)` runs. */
  function Repetitions(index: int): nat {
    if index > 0 then index else 0
  }

  /** The "First..Fourth / Last weekday `w` of the month" test: the target is
      found from the first day of the next month by previousDay(w) for index
      5, and otherwise by `index` calls of nextDay(w) from the last day of the
      previous month; the date matches when it is the target. */
  predicate WeekdayIndexMatches(d: Date, index: int, w: Weekday) {
    var target :=
      if index == 5 then PreviousDay(FirstDayOfMonth(AddMonths(d, 1)), w)
      else NthNextDay(FinalDayOfMonth(AddMonths(d, -1)), w, Repetitions(index));
    Ordinal(d) == Ordinal(target)
  }

  /** The loop `for ($i = 0; $i < index; $i++) nextDay(w)`. */
  method StepToNthWeekday(x: Date, w: Weekday, index: int) returns (r: Date)
    ensures r == NthNextDay(x, w, Repetitions(index))
  {
    r := x;
    var i: nat := 0;
    while i < Repetitions(index)
      invariant i <= Repetitions(index)
      invariant r == NthNextDay(x, w, i)
    {
      r := NextDay(r, w);
      i := i + 1;
    }
  }

  // ---------------------------------------------------------------------
  // Building the reader

  /** The values of the related day rows, in the order given. */
  function Values(records: seq<DayRecord>): (r: seq<int>)
    ensures |r| == |records|
    ensures forall i :: 0 <= i < |records| ==> r[i] == records[i].value
  {
    seq(|records|, i requires 0 <= i < |records| => records[i].value)
  }

  function ExceptionDates(records: seq<RecurringException>): (r: seq<Date>)
    ensures |r| == |records|
    ensures forall i :: 0 <= i < |records| ==> r[i] == records[i].exceptionDate
  {
    seq(|records|, i requires 0 <= i < |records| => records[i].exceptionDate)
  }

  /** The reader the constructor builds for `event`. */
  function ReaderFor(event: EventsPage): RecursionReader {
    RecursionReader(
      event,
      if |event.dateTimes| > 0 then Some(event.dateTimes[0].startDate) else None,
      if event.customRecursionType == 2 then Values(event.recurringDaysOfWeek) else [],
      if event.customRecursionType == 3 then Values(event.recurringDaysOfMonth) else [],
      ExceptionDates(event.exceptions))
  }

  /** The constructor: the allowed weekdays are collected only for a weekly
      event and the allowed days of the month only for a monthly one; the
      exception dates always. */
  method NewRecursionReader(event: EventsPage) returns (reader: RecursionReader)
    ensures reader == ReaderFor(event)
    ensures event.customRecursionType != 2 ==> reader.allowedDaysOfWeek == []
    ensures event.customRecursionType != 3 ==> reader.allowedDaysOfMonth == []
    ensures forall d :: d in reader.exceptions <==> exists x :: x in event.exceptions && x.exceptionDate == d
  {
    var ts: Option<Date> := None;
    if |event.dateTimes| > 0 {
      ts := Some(event.dateTimes[0].startDate);
    }
    var daysOfWeek: seq<int> := [];
    var daysOfMonth: seq<int> := [];
    if event.customRecursionType == 2 {
      var i := 0;
      while i < |event.recurringDaysOfWeek|
        invariant 0 <= i <= |event.recurringDaysOfWeek|
        invariant daysOfWeek == Values(event.recurringDaysOfWeek[..i])
      {
        daysOfWeek := daysOfWeek + [event.recurringDaysOfWeek[i].value];
        i := i + 1;
      }
      assert event.recurringDaysOfWeek[..i] == event.recurringDaysOfWeek;
    } else if event.customRecursionType == 3 {
      var i := 0;
      while i < |event.recurringDaysOfMonth|
        invariant 0 <= i <= |event.recurringDaysOfMonth|
        invariant daysOfMonth == Values(event.recurringDaysOfMonth[..i])
      {
        daysOfMonth := daysOfMonth + [event.recurringDaysOfMonth[i].value];
        i := i + 1;
      }
      assert event.recurringDaysOfMonth[..i] == event.recurringDaysOfMonth;
    }
    var exceptions: seq<Date> := [];
    var j := 0;
    while j < |event.exceptions|
      invariant 0 <= j <= |event.exceptions|
      invariant exceptions == ExceptionDates(event.exceptions[..j])
    {
      exceptions := exceptions + [event.exceptions[j].exceptionDate];
      j := j + 1;
    }
    assert event.exceptions[..j] == event.exceptions;
    reader := RecursionReader(event, ts, daysOfWeek, daysOfMonth, exceptions);
    forall d | d in reader.exceptions
      ensures exists x :: x in event.exceptions && x.exceptionDate == d
    {
      var k :| 0 <= k < |exceptions| && exceptions[k] == d;
      assert event.exceptions[k] in event.exceptions;
    }
  }

  // ---------------------------------------------------------------------
  // The "First..Fourth / Last weekday of the month" rule

  /** After the first call, each further nextDay(w) moves a whole week on. */
  lemma {:induction false} NthNextDayOrdinal(x: Date, w: Weekday, n: nat)
    requires n >= 1
    ensures WeekdayOf(NthNextDay(x, w, n)) == w
    ensures Ordinal(NthNextDay(x, w, n)) == Ordinal(NextDay(x, w)) + 7 * (n - 1)
  {
    if n > 1 {
      var previous := NthNextDay(x, w, n - 1);
      assert NthNextDay(x, w, n) == NextDay(previous, w);
      NthNextDayOrdinal(x, w, n - 1);
      NextDayFromSameWeekday(previous, w);
    } else {
      assert NthNextDay(x, w, 0) == x;
      assert NthNextDay(x, w, 1) == NextDay(x, w);
    }
  }

  /** Day `day` of a month is the `index`-th one, counted from the first day
      `k` (1..7) with some weekday, exactly when it lies in the index-th run
      of seven days and differs from `k` by whole weeks. */
  lemma WeekRunArithmetic(day: int, k: int, index: int)
    requires 1 <= k <= 7 && index >= 1 && day >= 1
    ensures day == k + 7 * (index - 1) ==> (day - 1) / 7 == index - 1
    ensures (day - 1) / 7 == index - 1 ==> -7 < day - k - 7 * (index - 1) < 7
  {
  }

  /** Index 1..4 (and any index other than 5): the date is the index-th
      weekday `w` of its own month, i.e. it has weekday `w` and its day of
      the month lies in the index-th run of seven days. */
  lemma NthWeekdayOfMonth(d: Date, index: int, w: Weekday)
    requires index != 5
    ensures WeekdayIndexMatches(d, index, w)
        <==> index >= 1 && WeekdayOf(d) == w && (d.day - 1) / 7 == index - 1
  {
    var p := FinalDayOfMonth(AddMonths(d, -1));
    PreviousMonthEnd(d);
    var target := NthNextDay(p, w, Repetitions(index));
    assert WeekdayIndexMatches(d, index, w) <==> Ordinal(d) == Ordinal(target);
    if index >= 1 {
      NthWeekdayFrom(d, p, index, w);
    } else {
      assert target == p;
    }
  }

  lemma NthWeekdayFrom(d: Date, p: Date, index: int, w: Weekday)
    requires index >= 1 && Ordinal(p) == Ordinal(d) - d.day
    ensures Ordinal(d) == Ordinal(NthNextDay(p, w, index))
        <==> WeekdayOf(d) == w && (d.day - 1) / 7 == index - 1
  {
    var target := NthNextDay(p, w, index);
    NthNextDayOrdinal(p, w, index);
    var k := Ordinal(NextDay(p, w)) - Ordinal(p);
    assert Ordinal(target) == Ordinal(d) - d.day + k + 7 * (index - 1);
    WeekRunArithmetic(d.day, k, index);
    if Ordinal(d) == Ordinal(target) {
      OrdinalInjective(d, target);
      assert d.day == k + 7 * (index - 1);
    }
    if WeekdayOf(d) == w && (d.day - 1) / 7 == index - 1 {
      SameWeekdayWithinWeek(d, target);
    }
  }

  /** Index 5 ("Last"): the date has weekday `w` and no later day of its
      month has, i.e. it falls in the final seven days of the month. */
  lemma LastWeekdayOfMonth(d: Date, w: Weekday)
    ensures WeekdayIndexMatches(d, 5, w)
        <==> WeekdayOf(d) == w && d.day + 7 > DaysInMonth(d.year, d.month)
  {
    var n := FirstDayOfMonth(AddMonths(d, 1));
    NextMonthStart(d);
    assert Ordinal(n) == Ordinal(d) - d.day + DaysInMonth(d.year, d.month) + 1;
    if WeekdayOf(d) == w && d.day + 7 > DaysInMonth(d.year, d.month) {
      PreviousDayIsLast(n, w, d);
    }
  }

  // ---------------------------------------------------------------------
  // What recursionHappensOn decides

  /** No date before the start date is an occurrence. */
  lemma NeverBeforeStart(reader: RecursionReader, d: Date)
    requires reader.Ready()
    requires Ordinal(d) < Ordinal(reader.ts.value)
    ensures !reader.RecursionHappensOn(d)
  {
  }

  /** An exception row of the event cancels the occurrence on its date,
      whatever the recurrence type. */
  lemma ExceptionCancels(event: EventsPage, x: RecurringException)
    requires |event.dateTimes| > 0 && IntervalsUsable(event)
    requires x in event.exceptions
    ensures ReaderFor(event).Ready()
    ensures !ReaderFor(event).RecursionHappensOn(x.exceptionDate)
  {
    var i :| 0 <= i < |event.exceptions| && event.exceptions[i] == x;
    assert ReaderFor(event).exceptions[i] == x.exceptionDate;
  }

  /** Every occurrence of a daily event is a whole number of intervals
      after the start. */
  lemma DailyOccurrenceIsStep(reader: RecursionReader, d: Date)
    requires reader.Ready()
    requires reader.event.customRecursionType == 1 && reader.event.dailyInterval > 0
    requires reader.RecursionHappensOn(d)
    ensures d !in reader.exceptions
    ensures d == AddDays(reader.ts.value, (Ordinal(d) - Ordinal(reader.ts.value)) / reader.event.dailyInterval * reader.event.dailyInterval)
  {
    var start, n := reader.ts.value, reader.event.dailyInterval;
    var diff := Ordinal(d) - Ordinal(start);
    Euclid(diff, n);
    AtOrdinal(start, d, diff / n * n);
  }

  /** Every day a whole number of intervals after the start of a daily
      event is an occurrence unless it is an exception. */
  lemma DailyStepIsOccurrence(reader: RecursionReader, k: nat, e: Date)
    requires reader.Ready()
    requires reader.event.customRecursionType == 1 && reader.event.dailyInterval > 0
    requires Ordinal(e) == Ordinal(reader.ts.value) + k * reader.event.dailyInterval
    requires e !in reader.exceptions
    ensures reader.RecursionHappensOn(e)
  {
    var n := reader.event.dailyInterval;
    MultipleHasNoRemainder(k * n, n, k);
  }

  /** A daily event whose interval is 0 never recurs. */
  lemma DailyIntervalZero(reader: RecursionReader, d: Date)
    requires reader.Ready()
    requires reader.event.customRecursionType == 1 && reader.event.dailyInterval == 0
    ensures !reader.RecursionHappensOn(d)
  {
  }

  lemma Euclid(a: int, b: int)
    requires b != 0
    ensures a == b * (a / b) + a % b
  {
  }

  lemma ProductOfPositives(b: int, t: int)
    requires b > 0 && t > 0
    ensures b * t >= b
  {
    var k := t - 1;
    assert b * t == b + b * k;
  }

  /** A multiple of `b` leaves no remainder. */
  lemma MultipleHasNoRemainder(a: int, b: int, q: int)
    requires b > 0 && a == b * q
    ensures a % b == 0
  {
    var t := q - a / b;
    Euclid(a, b);
    assert a % b == b * t;
    if t > 0 {
      ProductOfPositives(b, t);
    } else if t < 0 {
      ProductOfPositives(b, -t);
    }
  }

  lemma ScaledRemainder(x: int, n: int)
    requires n > 0
    ensures (7 * x) % (7 * n) == 0 <==> x % n == 0
  {
    if x % n == 0 {
      Euclid(x, n);
      MultipleHasNoRemainder(7 * x, 7 * n, x / n);
    }
    if (7 * x) % (7 * n) == 0 {
      var q := (7 * x) / (7 * n);
      Euclid(7 * x, 7 * n);
      assert x == n * q;
      MultipleHasNoRemainder(x, n, q);
    }
  }

  /** Weekly: a date recurs when its weekday is allowed and its Sunday lies a
      whole multiple of `WeeklyInterval` weeks after the Sunday of the start. */
  lemma WeeklyOccurrences(reader: RecursionReader, d: Date)
    requires reader.Ready()
    requires reader.event.customRecursionType == 2
    ensures reader.RecursionHappensOn(d) <==>
      Ordinal(d) >= Ordinal(reader.ts.value) && d !in reader.exceptions
      && WeekdayOf(d) as int in reader.allowedDaysOfWeek
      && (Ordinal(FirstDayOfWeek(d)) - Ordinal(FirstDayOfWeek(reader.ts.value)))
         % (7 * reader.event.weeklyInterval) == 0
  {
    var weeks := WeeksBetween(d, reader.ts.value);
    ScaledRemainder(weeks, reader.event.weeklyInterval);
    assert reader.RecursionHappensOn(d) <==>
      Ordinal(d) >= Ordinal(reader.ts.value) && d !in reader.exceptions
      && weeks % reader.event.weeklyInterval == 0 && WeekdayOf(d) as int in reader.allowedDaysOfWeek;
  }

  /** Monthly: nothing recurs outside the months `MonthlyInterval` apart
      from the start month. */
  lemma MonthlyNeedsMonthStep(reader: RecursionReader, d: Date)
    requires reader.Ready()
    requires reader.event.customRecursionType == 3
    requires reader.RecursionHappensOn(d)
    ensures (MonthNumber(d) - MonthNumber(reader.ts.value)) % reader.event.monthlyInterval == 0
  {
  }

  /** Monthly, days-of-month mode (which wins over the weekday mode): a date
      recurs exactly when its day of the month is listed, so a listed 31
      never recurs in a 30-day month. */
  lemma MonthlyDaysOfMonth(reader: RecursionReader, d: Date)
    requires reader.Ready()
    requires reader.event.customRecursionType == 3 && reader.event.monthlyRecursionType1 == 1
    requires Ordinal(d) >= Ordinal(reader.ts.value) && d !in reader.exceptions
    requires DifferenceInMonths(d, reader.ts.value) % reader.event.monthlyInterval == 0
    ensures reader.RecursionHappensOn(d) <==> d.day in reader.allowedDaysOfMonth
    ensures reader.RecursionHappensOn(d) ==> d.day <= DaysInMonth(d.year, d.month)
  {
  }

  /** Monthly, weekday mode: with index 5 the date must be the last weekday
      `w` of its month; with any other index N it must be the N-th. */
  lemma MonthlyWeekdayOfMonth(reader: RecursionReader, d: Date)
    requires reader.Ready()
    requires reader.event.customRecursionType == 3
    requires reader.event.monthlyRecursionType1 != 1 && reader.event.monthlyRecursionType2 == 1
    requires Ordinal(d) >= Ordinal(reader.ts.value) && d !in reader.exceptions
    requires DifferenceInMonths(d, reader.ts.value) % reader.event.monthlyInterval == 0
    ensures var w, index := reader.event.monthlyDayOfWeek, reader.event.monthlyIndex;
      reader.RecursionHappensOn(d) <==>
        WeekdayOf(d) == w &&
        if index == 5 then d.day + 7 > DaysInMonth(d.year, d.month)
        else index >= 1 && (d.day - 1) / 7 == index - 1
  {
    var w, index := reader.event.monthlyDayOfWeek, reader.event.monthlyIndex;
    if index == 5 {
      LastWeekdayOfMonth(d, w);
    } else {
      NthWeekdayOfMonth(d, index, w);
    }
  }

  /** A monthly event with neither sub-mode switched on, or an event of any
      other recurrence type, never recurs. */
  lemma NoRuleNoOccurrence(reader: RecursionReader, d: Date)
    requires reader.Ready()
    requires reader.event.customRecursionType !in {1, 2, 3}
      || (reader.event.customRecursionType == 3
          && reader.event.monthlyRecursionType1 != 1 && reader.event.monthlyRecursionType2 != 1)
    ensures !reader.RecursionHappensOn(d)
  {
  }
}
