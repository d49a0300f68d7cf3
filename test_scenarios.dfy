/** The weekly and days-of-month expectations of
    tests/pagetypes/EventsOverviewPageTest.php, for an event with one
    date/time row: over the window 2018-11-01 to 2018-12-31, `getEventList`
    lists exactly the expected start dates, in order. The row's last start
    date is taken not to stop the scan inside the window. */
module OverviewScenarios {
  import opened Wrappers
  import opened Calendar
  import opened EventRecords
  import opened RecursionReading
  import opened EventsOverview
  import opened EventListing

  // ---------------------------------------------------------------------
  // From the members of a scan to its list

  /** Days in strictly increasing order. */
  predicate IncreasingDays(s: seq<Date>) {
    forall i, j :: 0 <= i < j < |s| ==> Ordinal(s[i]) < Ordinal(s[j])
  }

  /** The first day of an increasing list is its earliest. */
  lemma FirstIsEarliest(s: seq<Date>, x: Date)
    requires IncreasingDays(s) && x in s
    ensures Ordinal(s[0]) <= Ordinal(x)
  {
    var k :| 0 <= k < |s| && s[k] == x;
    if k > 0 {
      assert Ordinal(s[0]) < Ordinal(s[k]);
    }
  }

  /** Two increasing lists of days with the same members start alike. */
  lemma SameFirstDay(a: seq<Date>, b: seq<Date>)
    requires IncreasingDays(a) && IncreasingDays(b)
    requires forall d: Date :: d in a <==> d in b
    requires a != []
    ensures b != [] && a[0] == b[0]
  {
    assert a[0] in b;
    FirstIsEarliest(b, a[0]);
    FirstIsEarliest(a, b[0]);
    OrdinalInjective(a[0], b[0]);
  }

  /** Past a shared first day, every later day of `a` is a later day of `b`. */
  lemma RestWithin(a: seq<Date>, b: seq<Date>)
    requires IncreasingDays(a)
    requires forall d: Date :: d in a ==> d in b
    requires a != [] && b != [] && a[0] == b[0]
    ensures forall d: Date :: d in a[1..] ==> d in b[1..]
  {
    forall d: Date | d in a[1..]
      ensures d in b[1..]
    {
      var k :| 0 <= k < |a[1..]| && a[1..][k] == d;
      assert Ordinal(a[0]) < Ordinal(a[k + 1]);
      assert d in a;
      var m :| 0 <= m < |b| && b[m] == d;
      assert b[1..][m - 1] == d;
    }
  }

  lemma FirstIsMember(b: seq<Date>)
    requires b != []
    ensures b[0] in b
  {
  }

  /** A list of days with no members is empty. */
  lemma NoMembersEmpty(b: seq<Date>)
    requires forall d: Date :: d !in b
    ensures b == []
  {
    if b != [] {
      FirstIsMember(b);
      assert false;
    }
  }

  /** Two increasing lists of days with the same members are one list. */
  lemma {:induction false} SameIncreasingDays(a: seq<Date>, b: seq<Date>)
    requires IncreasingDays(a) && IncreasingDays(b)
    requires forall d: Date :: d in a <==> d in b
    ensures a == b
    decreases |a|
  {
    if a == [] {
      NoMembersEmpty(b);
    } else {
      SameFirstDay(a, b);
      RestWithin(a, b);
      RestWithin(b, a);
      SameIncreasingDays(a[1..], b[1..]);
      assert a == [a[0]] + a[1..] && b == [b[0]] + b[1..];
    }
  }

  lemma ScanIncreasing(reader: RecursionReader, from: Date, end: Date, dt: EventDateTime)
    requires reader.Ready()
    ensures IncreasingDays(OccurrenceDays(reader, from, end, dt))
  {
    OccurrenceDaysIncrease(reader, from, end, dt);
  }

  /** A scan emits exactly `expected` when `expected` is increasing and holds
      the days the scan accepts. */
  lemma ScanEmits(reader: RecursionReader, from: Date, end: Date, dt: EventDateTime, expected: seq<Date>)
    requires reader.Ready()
    requires IncreasingDays(expected)
    requires forall d: Date :: d in expected <==>
      Ordinal(from) <= Ordinal(d) <= Ordinal(end) && !PastLastStart(dt, d) && reader.RecursionHappensOn(d)
    ensures OccurrenceDays(reader, from, end, dt) == expected
  {
    var days := OccurrenceDays(reader, from, end, dt);
    ScanIncreasing(reader, from, end, dt);
    forall d: Date
      ensures d in days <==> d in expected
    {
      OccurrenceDaysMembers(reader, from, end, dt, d);
    }
    SameIncreasingDays(days, expected);
  }

  /** The occurrences of an event with one row that passes the date filter
      are those of that row's template. */
  lemma SingleRowOccurrences(event: EventsPage, dt: EventDateTime, windowStart: Date, windowEnd: Date)
    requires IntervalsUsable(event) && event.dateTimes == [dt]
    requires PassesDateFilter(dt, windowStart, windowEnd)
    ensures AllOccurrences([event], windowStart, windowEnd)
         == TemplateOccurrences(ReaderFor(event), dt, windowStart, windowEnd)
  {
    var reader := ReaderFor(event);
    assert DateFilter([dt], windowStart, windowEnd) == [dt] by {
      assert [dt][1..] == [];
    }
    var occ := TemplateOccurrences(reader, dt, windowStart, windowEnd);
    assert DateTimesOccurrences(reader, [dt], windowStart, windowEnd) == occ by {
      assert [dt][1..] == [];
    }
    assert [event][1..] == [];
  }

  /** A row on an earlier day comes first in the listing order. */
  lemma EarlierDayListedFirst(a: EventDateTime, b: EventDateTime)
    requires Ordinal(a.startDate) < Ordinal(b.startDate)
    ensures StartsNoLater(a, b) && !StartsNoLater(b, a)
  {
    StartsNoLaterByDayNumber(a, b);
    StartsNoLaterByDayNumber(b, a);
  }

  /** Rows on increasing days are already in listing order, so sorting them
      keeps each day in its place. */
  lemma IncreasingRowsListed(gen: seq<EventDateTime>, expected: seq<Date>)
    requires |gen| == |expected| && IncreasingDays(expected)
    requires forall k :: 0 <= k < |gen| ==> gen[k].startDate == expected[k]
    ensures var list := SortByStart(gen);
      |list| == |expected| && forall k :: 0 <= k < |list| ==> list[k].startDate == expected[k]
  {
    forall i, j | 0 <= i < j < |gen|
      ensures StartsNoLater(gen[i], gen[j])
    {
      EarlierDayListedFirst(gen[i], gen[j]);
    }
    SortedStartsAgree(gen, SortByStart(gen));
  }

  /** For an event with one row that passes the date filter, the event list
      starts on the days the row's scan emits, in order. */
  lemma SingleRowEventList(event: EventsPage, dt: EventDateTime, windowStart: Date, windowEnd: Date,
                           firstIndex: nat, expected: seq<Date>)
    requires IntervalsUsable(event) && event.dateTimes == [dt]
    requires PassesDateFilter(dt, windowStart, windowEnd)
    requires OccurrenceDays(ReaderFor(event), ScanStart(dt, windowStart), windowEnd, dt) == expected
    requires IncreasingDays(expected)
    ensures var list := EventList([], [event], windowStart, windowEnd, firstIndex);
      |list| == |expected| && forall k :: 0 <= k < |list| ==> list[k].startDate == expected[k]
  {
    SingleRowOccurrences(event, dt, windowStart, windowEnd);
    var gen := Generated(TemplateOccurrences(ReaderFor(event), dt, windowStart, windowEnd), firstIndex);
    assert [] + gen == gen;
    IncreasingRowsListed(gen, expected);
  }

  // ---------------------------------------------------------------------
  // The reader on the two rules

  lemma SameRemainderAfterWeeks(y: int, m: int)
    ensures (y + 7 * m) % 7 == y % 7
  {
    var q, r := y / 7, y % 7;
    assert y == 7 * q + r;
    assert y + 7 * m == 7 * (q + m) + r;
  }

  lemma MulAssociative(a: int, b: int, c: int)
    ensures (a * b) * c == a * (b * c)
  {
  }

  /** Two days a whole number of weeks apart share their weekday. */
  lemma WeeksApartSameWeekday(d: Date, s: Date, n: int)
    requires n > 0 && (Ordinal(d) - Ordinal(s)) % (7 * n) == 0
    ensures WeekdayOf(d) == WeekdayOf(s)
  {
    var x := Ordinal(d) - Ordinal(s);
    var q := x / (7 * n);
    Euclid(x, 7 * n);
    MulAssociative(7, n, q);
    SameRemainderAfterWeeks(Ordinal(s) + 1, n * q);
  }

  /** A weekly event allowed only on its start's weekday recurs exactly
      every `7 * WeeklyInterval` days from the start, exceptions aside. */
  lemma StartWeekdayEveryNWeeks(reader: RecursionReader, d: Date)
    requires reader.Ready() && reader.event.customRecursionType == 2
    requires reader.allowedDaysOfWeek == [WeekdayOf(reader.ts.value) as int]
    ensures reader.RecursionHappensOn(d) <==>
      Ordinal(d) >= Ordinal(reader.ts.value) && d !in reader.exceptions
      && (Ordinal(d) - Ordinal(reader.ts.value)) % (7 * reader.event.weeklyInterval) == 0
  {
    var s := reader.ts.value;
    WeeklyOccurrences(reader, d);
    assert Ordinal(FirstDayOfWeek(d)) == Ordinal(d) - WeekdayOf(d);
    assert Ordinal(FirstDayOfWeek(s)) == Ordinal(s) - WeekdayOf(s);
    if (Ordinal(d) - Ordinal(s)) % (7 * reader.event.weeklyInterval) == 0 {
      WeeksApartSameWeekday(d, s, reader.event.weeklyInterval);
    }
  }

  /** A monthly event with interval 1 in days-of-month mode recurs on every
      listed day of every month from the start, exceptions aside. */
  lemma ListedDaysEveryMonth(reader: RecursionReader, d: Date)
    requires reader.Ready() && reader.event.customRecursionType == 3
    requires reader.event.monthlyInterval == 1 && reader.event.monthlyRecursionType1 == 1
    ensures reader.RecursionHappensOn(d) <==>
      Ordinal(d) >= Ordinal(reader.ts.value) && d !in reader.exceptions && d.day in reader.allowedDaysOfMonth
  {
    if Ordinal(d) >= Ordinal(reader.ts.value) && d !in reader.exceptions {
      MonthlyDaysOfMonth(reader, d);
    }
  }

  // ---------------------------------------------------------------------
  // The test window and its expectations

  const WindowStart: Date := CivilDate(2018, 11, 1)
  const WindowEnd: Date := CivilDate(2018, 12, 31)

  /** Every other Friday from 2018-11-02. */
  function WeeklyDates(): (r: seq<Date>)
    ensures |r| == 5
  {
    [CivilDate(2018, 11, 2), CivilDate(2018, 11, 16), CivilDate(2018, 11, 30),
     CivilDate(2018, 12, 14), CivilDate(2018, 12, 28)]
  }

  /** The 10th and 15th of November and December 2018. */
  function MonthlyDates(): (r: seq<Date>)
    ensures |r| == 4
  {
    [CivilDate(2018, 11, 10), CivilDate(2018, 11, 15), CivilDate(2018, 12, 10), CivilDate(2018, 12, 15)]
  }

  /** The monthly expectation without 2018-12-10. */
  function MonthlyDatesWithException(): (r: seq<Date>)
    ensures |r| == 3
  {
    [CivilDate(2018, 11, 10), CivilDate(2018, 11, 15), CivilDate(2018, 12, 15)]
  }

  /** The weekly expectation without 2018-11-16. */
  function WeeklyDatesWithException(): (r: seq<Date>)
    ensures |r| == 4
  {
    [CivilDate(2018, 11, 2), CivilDate(2018, 11, 30), CivilDate(2018, 12, 14), CivilDate(2018, 12, 28)]
  }

  /** The row does not stop the scan inside the window. */
  predicate RunsThroughWindow(dt: EventDateTime) {
    dt.lastStartDate.None? || Ordinal(WindowEnd) <= Ordinal(dt.lastStartDate.value)
  }

  /** The weekly test event: every 2 weeks on Friday, from 2018-11-02. */
  predicate WeeklyTestEvent(event: EventsPage, dt: EventDateTime) {
    event.customRecursionType == 2 && event.weeklyInterval == 2
    && Values(event.recurringDaysOfWeek) == [5]
    && event.dateTimes == [dt] && dt.startDate == CivilDate(2018, 11, 2) && RunsThroughWindow(dt)
  }

  /** The expected weekly days lie 0, 14, ..., 56 days after 2018-11-02,
      a Friday, and the window ends 59 days after it. */
  lemma WeeklyDateOrdinals()
    ensures WeekdayOf(CivilDate(2018, 11, 2)) == 5
    ensures Ordinal(WindowEnd) == Ordinal(CivilDate(2018, 11, 2)) + 59
    ensures forall k :: 0 <= k < 5 ==> Ordinal(WeeklyDates()[k]) == Ordinal(CivilDate(2018, 11, 2)) + 14 * k
    ensures IncreasingDays(WeeklyDates()) && IncreasingDays(WeeklyDatesWithException())
  {
    var w := WeeklyDates();
    assert forall k :: 0 <= k < 5 ==> Ordinal(w[k]) == Ordinal(w[0]) + 14 * k;
    assert WeeklyDatesWithException() == [w[0], w[2], w[3], w[4]];
  }

  lemma WeeklyDatesIncrease()
    ensures IncreasingDays(WeeklyDates()) && IncreasingDays(WeeklyDatesWithException())
  {
    WeeklyDateOrdinals();
  }

  lemma FortnightIndex(x: int) returns (k: nat)
    requires 0 <= x <= 59 && x % 14 == 0
    ensures k < 5 && x == 14 * k
  {
    k := x / 14;
  }

  /** Five days a fortnight apart from day number `a`, in a window ending 59
      days after `a`, are the days of the window a whole number of
      fortnights after `a`. */
  lemma FortnightMembers(w: seq<Date>, a: int, e: int, d: Date)
    requires |w| == 5 && e == a + 59
    requires forall k :: 0 <= k < 5 ==> Ordinal(w[k]) == a + 14 * k
    ensures var x := Ordinal(d) - a;
      (0 <= x && Ordinal(d) <= e && x % 14 == 0) <==> d in w
  {
    var x := Ordinal(d) - a;
    if 0 <= x <= 59 && x % 14 == 0 {
      var k := FortnightIndex(x);
      OrdinalInjective(d, w[k]);
    }
    if d in w {
      var k :| 0 <= k < 5 && w[k] == d;
      assert x == 14 * k;
      MultipleHasNoRemainder(x, 14, k);
    }
  }

  /** The days of the test window 0, 14, ..., 56 days after 2018-11-02 are
      the expected weekly days. */
  lemma FortnightsInWindow(d: Date)
    ensures var x := Ordinal(d) - Ordinal(CivilDate(2018, 11, 2));
      (0 <= x && Ordinal(d) <= Ordinal(WindowEnd) && x % 14 == 0) <==> d in WeeklyDates()
  {
    WeeklyDateOrdinals();
    FortnightMembers(WeeklyDates(), Ordinal(CivilDate(2018, 11, 2)), Ordinal(WindowEnd), d);
  }

  /** The reader of the weekly test event allows only Fridays, the
      weekday of its start. */
  lemma WeeklyTestReader(event: EventsPage, dt: EventDateTime)
    requires WeeklyTestEvent(event, dt)
    ensures var reader := ReaderFor(event);
      reader.Ready() && reader.ts == Some(dt.startDate)
      && reader.allowedDaysOfWeek == [WeekdayOf(reader.ts.value) as int]
  {
    WeeklyDateOrdinals();
  }

  /** Inside the test window the row's last start date stops nothing. */
  lemma NotStoppedInWindow(dt: EventDateTime, d: Date)
    requires RunsThroughWindow(dt) && Ordinal(d) <= Ordinal(WindowEnd)
    ensures !PastLastStart(dt, d)
  {
  }

  /** The days a single-row scan emits inside a window, from the rule that
      decides each day as an offset from the row's start. */
  lemma WindowByOffsets(reader: RecursionReader, dt: EventDateTime, d: Date, windowEnd: int, step: int, listed: seq<Date>)
    requires reader.Ready() && step > 0
    requires var x := Ordinal(d) - Ordinal(dt.startDate);
      reader.RecursionHappensOn(d) <==> x >= 0 && d !in reader.exceptions && x % step == 0
    requires var x := Ordinal(d) - Ordinal(dt.startDate);
      (0 <= x && Ordinal(d) <= windowEnd && x % step == 0) <==> d in listed
    requires Ordinal(d) <= windowEnd ==> !PastLastStart(dt, d)
    ensures (Ordinal(dt.startDate) <= Ordinal(d) <= windowEnd && !PastLastStart(dt, d)
             && reader.RecursionHappensOn(d))
        <==> d in listed && d !in reader.exceptions
  {
  }

  /** Which days of the test window the weekly test event is emitted on. */
  lemma WeeklyWindowMembers(event: EventsPage, dt: EventDateTime, d: Date)
    requires WeeklyTestEvent(event, dt)
    ensures var reader := ReaderFor(event);
      (Ordinal(dt.startDate) <= Ordinal(d) <= Ordinal(WindowEnd) && !PastLastStart(dt, d)
       && reader.RecursionHappensOn(d))
      <==> d in WeeklyDates() && d !in reader.exceptions
  {
    var reader := ReaderFor(event);
    WeeklyTestReader(event, dt);
    StartWeekdayEveryNWeeks(reader, d);
    assert 7 * reader.event.weeklyInterval == 14;
    FortnightsInWindow(d);
    if Ordinal(d) <= Ordinal(WindowEnd) {
      NotStoppedInWindow(dt, d);
    }
    WindowByOffsets(reader, dt, d, Ordinal(WindowEnd), 14, WeeklyDates());
  }

  /** `testShouldReturnWeeklyRecurringDates`: 2018-11-02, 11-16, 11-30,
      12-14 and 12-28. */
  lemma WeeklyTestList(event: EventsPage, dt: EventDateTime, firstIndex: nat)
    requires WeeklyTestEvent(event, dt) && event.exceptions == []
    ensures var list := EventList([], [event], WindowStart, WindowEnd, firstIndex);
      |list| == 5 && forall k :: 0 <= k < 5 ==> list[k].startDate == WeeklyDates()[k]
  {
    var reader := ReaderFor(event);
    assert reader.exceptions == [];
    assert ScanStart(dt, WindowStart) == dt.startDate;
    forall d: Date
      ensures d in WeeklyDates() <==>
        Ordinal(dt.startDate) <= Ordinal(d) <= Ordinal(WindowEnd) && !PastLastStart(dt, d) && reader.RecursionHappensOn(d)
    {
      WeeklyWindowMembers(event, dt, d);
    }
    WeeklyDatesIncrease();
    ScanEmits(reader, dt.startDate, WindowEnd, dt, WeeklyDates());
    SingleRowEventList(event, dt, WindowStart, WindowEnd, firstIndex, WeeklyDates());
  }

  /** `testShouldExcludeExceptionsForWeeklyEvents`: with 2018-11-16 as an
      exception, 2018-11-02, 11-30, 12-14 and 12-28. */
  lemma WeeklyExceptionTestList(event: EventsPage, dt: EventDateTime, firstIndex: nat)
    requires WeeklyTestEvent(event, dt) && ExceptionDates(event.exceptions) == [CivilDate(2018, 11, 16)]
    ensures var list := EventList([], [event], WindowStart, WindowEnd, firstIndex);
      |list| == 4 && forall k :: 0 <= k < 4 ==> list[k].startDate == WeeklyDatesWithException()[k]
  {
    var reader := ReaderFor(event);
    assert ScanStart(dt, WindowStart) == dt.startDate;
    forall d: Date
      ensures d in WeeklyDatesWithException() <==>
        Ordinal(dt.startDate) <= Ordinal(d) <= Ordinal(WindowEnd) && !PastLastStart(dt, d) && reader.RecursionHappensOn(d)
    {
      WeeklyWindowMembers(event, dt, d);
    }
    WeeklyDatesIncrease();
    ScanEmits(reader, dt.startDate, WindowEnd, dt, WeeklyDatesWithException());
    SingleRowEventList(event, dt, WindowStart, WindowEnd, firstIndex, WeeklyDatesWithException());
  }

  /** The monthly test event: every month on the 10th and the 15th, from
      2018-11-10. */
  predicate MonthlyTestEvent(event: EventsPage, dt: EventDateTime) {
    event.customRecursionType == 3 && event.monthlyInterval == 1 && event.monthlyRecursionType1 == 1
    && Values(event.recurringDaysOfMonth) == [10, 15]
    && event.dateTimes == [dt] && dt.startDate == CivilDate(2018, 11, 10) && RunsThroughWindow(dt)
  }

  /** The expected monthly days are increasing and lie between 2018-11-10
      and the window end. */
  lemma MonthlyDateOrdinals()
    ensures forall k :: 0 <= k < 4 ==>
      Ordinal(CivilDate(2018, 11, 10)) <= Ordinal(MonthlyDates()[k]) <= Ordinal(WindowEnd)
    ensures IncreasingDays(MonthlyDates()) && IncreasingDays(MonthlyDatesWithException())
  {
    var m := MonthlyDates();
    assert MonthlyDatesWithException() == [m[0], m[1], m[3]];
    assert Ordinal(m[1]) == Ordinal(m[0]) + 5;
    assert Ordinal(m[2]) == Ordinal(m[1]) + 25;
    assert Ordinal(m[3]) == Ordinal(m[2]) + 5;
    assert Ordinal(WindowEnd) == Ordinal(m[3]) + 16;
  }

  /** Which days of the test window the monthly test event is emitted on. */
  lemma MonthlyWindowMembers(event: EventsPage, dt: EventDateTime, d: Date)
    requires MonthlyTestEvent(event, dt)
    ensures var reader := ReaderFor(event);
      (Ordinal(dt.startDate) <= Ordinal(d) <= Ordinal(WindowEnd) && !PastLastStart(dt, d)
       && reader.RecursionHappensOn(d))
      <==> d in MonthlyDates() && d !in reader.exceptions
  {
    var reader := ReaderFor(event);
    assert reader.allowedDaysOfMonth == [10, 15];
    ListedDaysEveryMonth(reader, d);
    if d.year < 2018 || (d.year == 2018 && d.month < 11) {
      CivilBeforeOrdinal(d, WindowStart);
    }
    if d.year > 2018 {
      CivilBeforeOrdinal(WindowEnd, d);
    }
    if d.year == 2018 && d.month == 11 && d.day < 10 {
      CivilBeforeOrdinal(d, dt.startDate);
    }
    MonthlyDateOrdinals();
  }

  /** `testShouldReturnMonthlyRecurringDates`: 2018-11-10, 11-15, 12-10
      and 12-15. */
  lemma MonthlyTestList(event: EventsPage, dt: EventDateTime, firstIndex: nat)
    requires MonthlyTestEvent(event, dt) && event.exceptions == []
    ensures var list := EventList([], [event], WindowStart, WindowEnd, firstIndex);
      |list| == 4 && forall k :: 0 <= k < 4 ==> list[k].startDate == MonthlyDates()[k]
  {
    var reader := ReaderFor(event);
    assert reader.exceptions == [];
    assert ScanStart(dt, WindowStart) == dt.startDate;
    forall d: Date
      ensures d in MonthlyDates() <==>
        Ordinal(dt.startDate) <= Ordinal(d) <= Ordinal(WindowEnd) && !PastLastStart(dt, d) && reader.RecursionHappensOn(d)
    {
      MonthlyWindowMembers(event, dt, d);
    }
    MonthlyDateOrdinals();
    ScanEmits(reader, dt.startDate, WindowEnd, dt, MonthlyDates());
    SingleRowEventList(event, dt, WindowStart, WindowEnd, firstIndex, MonthlyDates());
  }

  /** `testShouldExcludeExceptionsForMonthlyEvents`: with 2018-12-10 as an
      exception, 2018-11-10, 11-15 and 12-15. */
  lemma MonthlyExceptionTestList(event: EventsPage, dt: EventDateTime, firstIndex: nat)
    requires MonthlyTestEvent(event, dt) && ExceptionDates(event.exceptions) == [CivilDate(2018, 12, 10)]
    ensures var list := EventList([], [event], WindowStart, WindowEnd, firstIndex);
      |list| == 3 && forall k :: 0 <= k < 3 ==> list[k].startDate == MonthlyDatesWithException()[k]
  {
    var reader := ReaderFor(event);
    assert ScanStart(dt, WindowStart) == dt.startDate;
    forall d: Date
      ensures d in MonthlyDatesWithException() <==>
        Ordinal(dt.startDate) <= Ordinal(d) <= Ordinal(WindowEnd) && !PastLastStart(dt, d) && reader.RecursionHappensOn(d)
    {
      MonthlyWindowMembers(event, dt, d);
    }
    MonthlyDateOrdinals();
    ScanEmits(reader, dt.startDate, WindowEnd, dt, MonthlyDatesWithException());
    SingleRowEventList(event, dt, WindowStart, WindowEnd, firstIndex, MonthlyDatesWithException());
  }
}
