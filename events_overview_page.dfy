/** The event list of an events overview page (src/pagetypes/EventsOverviewPage.php):
    the stored date/time rows of the non-recurring events, plus one generated
    row per day on which a recurring event occurs inside the requested
    window, sorted by start date and start time. */
module EventsOverview {
  import opened Wrappers
  import opened Calendar
  import opened EventRecords
  import opened RecursionReading

  /** The page's static `$reccurring_event_index`, shared by every call that
      generates an occurrence. */
  class OccurrenceCounter {
    var value: nat

    constructor ()
      ensures value == 0
    {
      value := 0;
    }
  }

  /** The copy `newRecursionDateTime` makes of the row `template` for `day`:
      every stored field is copied, then the start date becomes `day`, the
      row points back to its template and gets the ID "recurring" + `index`. */
  function RecurringCopy(template: EventDateTime, day: Date, index: nat): EventDateTime {
    template.(id := Recurring(index), dateTimeId := Some(template.id), startDate := day)
  }

  /** `newRecursionDateTime`: the copy numbered by the counter, which then
      moves on by one. */
  method NewRecursionDateTime(template: EventDateTime, day: Date, counter: OccurrenceCounter)
    returns (e: EventDateTime)
    modifies counter
    ensures e == RecurringCopy(template, day, old(counter.value))
    ensures counter.value == old(counter.value) + 1
  {
    e := RecurringCopy(template, day, counter.value);
    counter.value := counter.value + 1;
  }

  /** A generated occurrence keeps the template's event, times, duration and
      last start date, starts on its own day, and so finishes as the
      template would had it started on that day. */
  lemma RecurringCopyKeepsTemplate(template: EventDateTime, day: Date, index: nat)
    ensures var e := RecurringCopy(template, day, index);
      e.startDate == day && e.eventId == template.eventId
      && e.eventDuration == template.eventDuration && e.lastStartDate == template.lastStartDate
      && e.startTime == template.startTime && e.endTime == template.endTime
      && e.dateTimeId == Some(template.id) && e.id == Recurring(index)
      && FinishDate(e, None) == FinishDate(template, Some(day))
  {
  }

  /** `getRecurringEventEndDate`: the last day of an occurrence that starts
      on `startDate` and lasts `duration` days. */
  function RecurringEventEndDate(startDate: Date, duration: int): (r: Date)
    ensures Ordinal(r) == Ordinal(startDate) + duration - 1
  {
    AddDays(startDate, duration - 1)
  }

  /** For a row lasting more than one day, the end date of an occurrence is
      that occurrence's FinishDate. */
  lemma EndDateIsFinishDate(template: EventDateTime, day: Date)
    requires template.eventDuration > 1
    ensures FinishDate(template, Some(day)) == Some(RecurringEventEndDate(day, template.eventDuration))
  {
    var f := FinishDate(template, Some(day)).value;
    OrdinalInjective(f, RecurringEventEndDate(day, template.eventDuration));
  }

  // ---------------------------------------------------------------------
  // dateFilter

  /** A row passes `dateFilter` when it starts no later than `end` and has no
      last start date or one no earlier than `lower`. */
  predicate PassesDateFilter(dt: EventDateTime, lower: Date, end: Date) {
    Ordinal(dt.startDate) <= Ordinal(end)
    && (dt.lastStartDate.None? || Ordinal(dt.lastStartDate.value) >= Ordinal(lower))
  }

  /** `dateFilter`: the rows that pass, in their original order. */
  function DateFilter(dts: seq<EventDateTime>, lower: Date, end: Date): (r: seq<EventDateTime>)
    ensures forall x :: x in r <==> x in dts && PassesDateFilter(x, lower, end)
    ensures |r| <= |dts|
  {
    if dts == [] then []
    else (if PassesDateFilter(dts[0], lower, end) then [dts[0]] else [])
         + DateFilter(dts[1..], lower, end)
  }

  // ---------------------------------------------------------------------
  // The day-by-day scan of one row

  /** The scan of a row starts at the window start, or at the row's own
      start date when that is later. */
  function ScanStart(dt: EventDateTime, windowStart: Date): Date {
    if Ordinal(dt.startDate) > Ordinal(windowStart) then dt.startDate else windowStart
  }

  /** The scan stops at `day` when the row has a last start date that lies
      after the Unix epoch and before `day`. */
  predicate PastLastStart(dt: EventDateTime, day: Date) {
    dt.lastStartDate.Some? && AfterEpoch(dt.lastStartDate.value)
    && Ordinal(dt.lastStartDate.value) < Ordinal(day)
  }

  /** The days from `from` to `end`, in order, on which the scan of row `dt`
      emits an occurrence. */
  function OccurrenceDays(reader: RecursionReader, from: Date, end: Date, dt: EventDateTime): seq<Date>
    requires reader.Ready()
    decreases Ordinal(end) - Ordinal(from)
  {
    if Ordinal(from) > Ordinal(end) || PastLastStart(dt, from) then []
    else (if reader.RecursionHappensOn(from) then [from] else [])
         + OccurrenceDays(reader, Tomorrow(from), end, dt)
  }

  /** A day is emitted exactly when it lies between `from` and `end`, the row's
      last start date does not stop the scan before it, and the event occurs
      on it. */
  lemma {:induction false} OccurrenceDaysMembers(reader: RecursionReader, from: Date, end: Date, dt: EventDateTime, d: Date)
    requires reader.Ready()
    ensures d in OccurrenceDays(reader, from, end, dt) <==>
      Ordinal(from) <= Ordinal(d) <= Ordinal(end) && !PastLastStart(dt, d) && reader.RecursionHappensOn(d)
    decreases Ordinal(end) - Ordinal(from)
  {
    if Ordinal(from) > Ordinal(end) || PastLastStart(dt, from) {
    } else {
      OccurrenceDaysMembers(reader, Tomorrow(from), end, dt, d);
      OrdinalInjective(d, from);
    }
  }

  /** One step of the scan: a day inside the window and not past the last
      start date is emitted when the event occurs on it, and the scan goes
      on with the next day. */
  lemma OccurrenceDaysStep(reader: RecursionReader, day: Date, end: Date, dt: EventDateTime)
    requires reader.Ready()
    requires Ordinal(day) <= Ordinal(end) && !PastLastStart(dt, day)
    ensures OccurrenceDays(reader, day, end, dt)
         == (if reader.RecursionHappensOn(day) then [day] else []) + OccurrenceDays(reader, Tomorrow(day), end, dt)
  {
  }

  /** The scan emits nothing once it is past the window end or the row's
      last start date. */
  lemma OccurrenceDaysStop(reader: RecursionReader, day: Date, end: Date, dt: EventDateTime)
    requires reader.Ready()
    requires Ordinal(day) > Ordinal(end) || PastLastStart(dt, day)
    ensures OccurrenceDays(reader, day, end, dt) == []
  {
  }

  /** Emitted days strictly increase, so no day is emitted twice. */
  lemma {:induction false} OccurrenceDaysIncrease(reader: RecursionReader, from: Date, end: Date, dt: EventDateTime)
    requires reader.Ready()
    ensures var days := OccurrenceDays(reader, from, end, dt);
      (forall i :: 0 <= i < |days| ==> Ordinal(from) <= Ordinal(days[i]))
      && (forall i, j :: 0 <= i < j < |days| ==> Ordinal(days[i]) < Ordinal(days[j]))
    decreases Ordinal(end) - Ordinal(from)
  {
    if Ordinal(from) > Ordinal(end) || PastLastStart(dt, from) {
      OccurrenceDaysStop(reader, from, end, dt);
    } else {
      var next := Tomorrow(from);
      var rest := OccurrenceDays(reader, next, end, dt);
      var head := if reader.RecursionHappensOn(from) then [from] else [];
      OccurrenceDaysStep(reader, from, end, dt);
      OccurrenceDaysIncrease(reader, next, end, dt);
      IncreasingAfterHead(head, rest, from, next);
    }
  }

  lemma IncreasingAfterHead(head: seq<Date>, rest: seq<Date>, from: Date, next: Date)
    requires head == [] || head == [from]
    requires Ordinal(next) == Ordinal(from) + 1
    requires forall i :: 0 <= i < |rest| ==> Ordinal(next) <= Ordinal(rest[i])
    requires forall i, j :: 0 <= i < j < |rest| ==> Ordinal(rest[i]) < Ordinal(rest[j])
    ensures var days := head + rest;
      (forall i :: 0 <= i < |days| ==> Ordinal(from) <= Ordinal(days[i]))
      && (forall i, j :: 0 <= i < j < |days| ==> Ordinal(days[i]) < Ordinal(days[j]))
  {
  }

  // ---------------------------------------------------------------------
  // Occurrences and the generated rows

  /** A generated occurrence before it is numbered: the row it copies and its day. */
  datatype Occurrence = Occurrence(template: EventDateTime, day: Date)

  /** The occurrences the scan of row `dt` emits inside the window. */
  function TemplateOccurrences(reader: RecursionReader, dt: EventDateTime, windowStart: Date, windowEnd: Date): (r: seq<Occurrence>)
    requires reader.Ready()
    ensures |r| == |OccurrenceDays(reader, ScanStart(dt, windowStart), windowEnd, dt)|
  {
    var days := OccurrenceDays(reader, ScanStart(dt, windowStart), windowEnd, dt);
    seq(|days|, k requires 0 <= k < |days| => Occurrence(dt, days[k]))
  }

  /** The occurrences of the rows `dts` of one event, row after row. */
  function DateTimesOccurrences(reader: RecursionReader, dts: seq<EventDateTime>, windowStart: Date, windowEnd: Date): seq<Occurrence>
    requires dts != [] ==> reader.Ready()
  {
    if dts == [] then []
    else TemplateOccurrences(reader, dts[0], windowStart, windowEnd)
         + DateTimesOccurrences(reader, dts[1..], windowStart, windowEnd)
  }

  /** The occurrences of one recurring event: the scans of its rows that pass
      `dateFilter` with lower bound `lower`. */
  function EventOccurrences(event: EventsPage, lower: Date, windowStart: Date, windowEnd: Date): seq<Occurrence>
    requires IntervalsUsable(event)
  {
    var dts := DateFilter(event.dateTimes, lower, windowEnd);
    assert dts != [] ==> dts[0] in event.dateTimes;
    DateTimesOccurrences(ReaderFor(event), dts, windowStart, windowEnd)
  }

  /** The occurrences of all recurring events, each event's rows filtered
      against the window start. */
  function AllOccurrences(events: seq<EventsPage>, windowStart: Date, windowEnd: Date): seq<Occurrence>
    requires forall e :: e in events ==> IntervalsUsable(e)
  {
    if events == [] then []
    else EventOccurrences(events[0], windowStart, windowStart, windowEnd)
         + AllOccurrences(events[1..], windowStart, windowEnd)
  }

  /** The rows generated for `occurrences`, numbered on from `firstIndex`. */
  function Generated(occurrences: seq<Occurrence>, firstIndex: nat): (r: seq<EventDateTime>)
    ensures |r| == |occurrences|
  {
    seq(|occurrences|, i requires 0 <= i < |occurrences| =>
      RecurringCopy(occurrences[i].template, occurrences[i].day, firstIndex + i))
  }

  lemma GeneratedAppend(a: seq<Occurrence>, b: seq<Occurrence>, firstIndex: nat)
    ensures Generated(a + b, firstIndex) == Generated(a, firstIndex) + Generated(b, firstIndex + |a|)
  {
  }

  /** Generated rows carry pairwise distinct IDs, "recurring" followed by the
      counter values from `firstIndex` on, and each starts on its own day. */
  lemma GeneratedIdsDistinct(occurrences: seq<Occurrence>, firstIndex: nat)
    ensures var g := Generated(occurrences, firstIndex);
      (forall i :: 0 <= i < |g| ==> g[i].id == Recurring(firstIndex + i) && g[i].startDate == occurrences[i].day)
      && (forall i, j :: 0 <= i < j < |g| ==> g[i].id != g[j].id)
  {
  }

  /** `DateTimesOccurrences` of rows with one row in front. */
  lemma DateTimesOccurrencesCons(reader: RecursionReader, x: EventDateTime, rest: seq<EventDateTime>, windowStart: Date, windowEnd: Date)
    requires reader.Ready()
    ensures DateTimesOccurrences(reader, [x] + rest, windowStart, windowEnd)
         == TemplateOccurrences(reader, x, windowStart, windowEnd) + DateTimesOccurrences(reader, rest, windowStart, windowEnd)
  {
    assert ([x] + rest)[0] == x && ([x] + rest)[1..] == rest;
  }

  lemma {:induction false} DateTimesOccurrencesAppend(reader: RecursionReader, a: seq<EventDateTime>, b: seq<EventDateTime>, windowStart: Date, windowEnd: Date)
    requires a + b != [] ==> reader.Ready()
    ensures DateTimesOccurrences(reader, a + b, windowStart, windowEnd)
         == DateTimesOccurrences(reader, a, windowStart, windowEnd) + DateTimesOccurrences(reader, b, windowStart, windowEnd)
  {
    if a == [] {
      assert a + b == b;
    } else {
      var tail := a[1..];
      assert a == [a[0]] + tail;
      assert a + b == [a[0]] + (tail + b);
      DateTimesOccurrencesCons(reader, a[0], tail + b, windowStart, windowEnd);
      DateTimesOccurrencesCons(reader, a[0], tail, windowStart, windowEnd);
      DateTimesOccurrencesAppend(reader, tail, b, windowStart, windowEnd);
      ConcatAssociative(TemplateOccurrences(reader, a[0], windowStart, windowEnd),
                        DateTimesOccurrences(reader, tail, windowStart, windowEnd),
                        DateTimesOccurrences(reader, b, windowStart, windowEnd));
    }
  }

  lemma {:induction false} AllOccurrencesAppend(a: seq<EventsPage>, b: seq<EventsPage>, windowStart: Date, windowEnd: Date)
    requires forall e :: e in a + b ==> IntervalsUsable(e)
    ensures AllOccurrences(a + b, windowStart, windowEnd)
         == AllOccurrences(a, windowStart, windowEnd) + AllOccurrences(b, windowStart, windowEnd)
  {
    if a == [] {
      assert a + b == b;
    } else {
      assert (a + b)[1..] == a[1..] + b;
      AllOccurrencesAppend(a[1..], b, windowStart, windowEnd);
    }
  }

  lemma DateTimesOccurrencesSnoc(reader: RecursionReader, dts: seq<EventDateTime>, i: int, windowStart: Date, windowEnd: Date)
    requires 0 <= i < |dts| && reader.Ready()
    ensures DateTimesOccurrences(reader, dts[..i + 1], windowStart, windowEnd)
         == DateTimesOccurrences(reader, dts[..i], windowStart, windowEnd) + TemplateOccurrences(reader, dts[i], windowStart, windowEnd)
  {
    assert dts[..i + 1] == dts[..i] + [dts[i]];
    DateTimesOccurrencesAppend(reader, dts[..i], [dts[i]], windowStart, windowEnd);
    assert DateTimesOccurrences(reader, [dts[i]], windowStart, windowEnd)
        == TemplateOccurrences(reader, dts[i], windowStart, windowEnd) + [];
  }

  lemma AllOccurrencesSnoc(events: seq<EventsPage>, i: int, windowStart: Date, windowEnd: Date)
    requires 0 <= i < |events|
    requires forall e :: e in events ==> IntervalsUsable(e)
    ensures AllOccurrences(events[..i + 1], windowStart, windowEnd)
         == AllOccurrences(events[..i], windowStart, windowEnd) + EventOccurrences(events[i], windowStart, windowStart, windowEnd)
  {
    assert events[..i + 1] == events[..i] + [events[i]];
    AllOccurrencesAppend(events[..i], [events[i]], windowStart, windowEnd);
    assert AllOccurrences([events[i]], windowStart, windowEnd)
        == EventOccurrences(events[i], windowStart, windowStart, windowEnd) + [];
  }

  /** Appending the rows generated for `b`, numbered on after those for
      `a`, gives the rows generated for `a + b`. */
  lemma ExtendGenerated(a: seq<Occurrence>, b: seq<Occurrence>, ab: seq<Occurrence>,
                        firstIndex: nat, next: nat, done: seq<EventDateTime>, more: seq<EventDateTime>)
    requires ab == a + b
    requires done == Generated(a, firstIndex)
    requires next == firstIndex + |a|
    requires more == Generated(b, next)
    ensures done + more == Generated(ab, firstIndex)
  {
    GeneratedAppend(a, b, firstIndex);
  }

  lemma ConcatAssociative<T>(a: seq<T>, b: seq<T>, c: seq<T>)
    ensures (a + b) + c == a + (b + c)
  {
  }

  // ---------------------------------------------------------------------
  // What is generated

  lemma {:induction false} DateTimesOccurrencesMembers(reader: RecursionReader, dts: seq<EventDateTime>, windowStart: Date, windowEnd: Date, x: Occurrence)
    requires dts != [] ==> reader.Ready()
    ensures x in DateTimesOccurrences(reader, dts, windowStart, windowEnd) <==>
      x.template in dts && reader.Ready()
      && x.day in OccurrenceDays(reader, ScanStart(x.template, windowStart), windowEnd, x.template)
  {
    if dts != [] {
      DateTimesOccurrencesMembers(reader, dts[1..], windowStart, windowEnd, x);
      var t := TemplateOccurrences(reader, dts[0], windowStart, windowEnd);
      var days := OccurrenceDays(reader, ScanStart(dts[0], windowStart), windowEnd, dts[0]);
      if x in t {
        var k :| 0 <= k < |t| && t[k] == x;
        assert x.day == days[k];
      }
      if x.template == dts[0] && x.day in days {
        var k :| 0 <= k < |days| && days[k] == x.day;
        assert t[k] == x;
      }
    }
  }

  /** An event yields an occurrence of row `dt` on `d` exactly when `dt` is
      one of its rows, passes `dateFilter`, and `d` lies in the window, on or
      after the row's start date, not past its last start date, on a day the
      event occurs. */
  lemma EventOccurrencesMembers(event: EventsPage, lower: Date, windowStart: Date, windowEnd: Date, x: Occurrence)
    requires IntervalsUsable(event)
    ensures x in EventOccurrences(event, lower, windowStart, windowEnd) <==>
      x.template in event.dateTimes && PassesDateFilter(x.template, lower, windowEnd)
      && Ordinal(windowStart) <= Ordinal(x.day) && Ordinal(x.template.startDate) <= Ordinal(x.day)
      && Ordinal(x.day) <= Ordinal(windowEnd) && !PastLastStart(x.template, x.day)
      && ReaderFor(event).Ready() && ReaderFor(event).RecursionHappensOn(x.day)
  {
    var reader := ReaderFor(event);
    var dts := DateFilter(event.dateTimes, lower, windowEnd);
    assert dts != [] ==> dts[0] in event.dateTimes;
    DateTimesOccurrencesMembers(reader, dts, windowStart, windowEnd, x);
    if reader.Ready() {
      OccurrenceDaysMembers(reader, ScanStart(x.template, windowStart), windowEnd, x.template, x.day);
    }
  }

  /** The occurrences of all events are those of each event. */
  lemma {:induction false} AllOccurrencesMembers(events: seq<EventsPage>, windowStart: Date, windowEnd: Date, x: Occurrence)
    requires forall e :: e in events ==> IntervalsUsable(e)
    ensures x in AllOccurrences(events, windowStart, windowEnd) <==>
      exists i :: 0 <= i < |events| && x in EventOccurrences(events[i], windowStart, windowStart, windowEnd)
  {
    if events != [] {
      AllOccurrencesMembers(events[1..], windowStart, windowEnd, x);
      if x in AllOccurrences(events[1..], windowStart, windowEnd) {
        var i :| 0 <= i < |events[1..]| && x in EventOccurrences(events[1..][i], windowStart, windowStart, windowEnd);
        assert x in EventOccurrences(events[i + 1], windowStart, windowStart, windowEnd);
      }
      if exists i :: 0 <= i < |events| && x in EventOccurrences(events[i], windowStart, windowStart, windowEnd) {
        var i :| 0 <= i < |events| && x in EventOccurrences(events[i], windowStart, windowStart, windowEnd);
        if i > 0 {
          assert events[1..][i - 1] == events[i];
        }
      }
    }
  }

  // ---------------------------------------------------------------------
  // addRecurringEvents

  /** The inner `while` loop: scan row `dt` day by day from its scan start
      to the window end, stopping past its last start date, and generate a
      row for each day on which the event occurs. */
  method ScanDateTime(reader: RecursionReader, dt: EventDateTime, windowStart: Date, windowEnd: Date, counter: OccurrenceCounter)
    returns (records: seq<EventDateTime>)
    requires reader.Ready()
    modifies counter
    ensures records == Generated(TemplateOccurrences(reader, dt, windowStart, windowEnd), old(counter.value))
    ensures counter.value == old(counter.value) + |records|
  {
    var day := ScanStart(dt, windowStart);
    ghost var days: seq<Date> := [];
    records := [];
    while Ordinal(day) <= Ordinal(windowEnd)
      invariant OccurrenceDays(reader, ScanStart(dt, windowStart), windowEnd, dt)
             == days + OccurrenceDays(reader, day, windowEnd, dt)
      invariant records == Copies(dt, days, old(counter.value))
      invariant counter.value == old(counter.value) + |days|
      decreases Ordinal(windowEnd) - Ordinal(day)
    {
      if PastLastStart(dt, day) {
        OccurrenceDaysStop(reader, day, windowEnd, dt);
        break;
      }
      ScanAdvance(reader, ScanStart(dt, windowStart), day, windowEnd, dt, days);
      if reader.RecursionHappensOn(day) {
        ghost var next := counter.value;
        var e := NewRecursionDateTime(dt, day, counter);
        CopiesSnoc(dt, days, day, old(counter.value), next);
        records := records + [e];
        days := days + [day];
      }
      day := Tomorrow(day);
    }
    OccurrenceDaysStop(reader, day, windowEnd, dt);
    assert days + [] == days;
    CopiesOfOccurrenceDays(reader, dt, windowStart, windowEnd, old(counter.value));
  }

  /** One day of the scan: the days still to come from `day` on are `day`
      itself, when the event occurs on it, followed by those from the next day. */
  lemma ScanAdvance(reader: RecursionReader, from: Date, day: Date, end: Date, dt: EventDateTime, days: seq<Date>)
    requires reader.Ready()
    requires Ordinal(day) <= Ordinal(end) && !PastLastStart(dt, day)
    requires OccurrenceDays(reader, from, end, dt) == days + OccurrenceDays(reader, day, end, dt)
    ensures OccurrenceDays(reader, from, end, dt)
         == (if reader.RecursionHappensOn(day) then days + [day] else days)
            + OccurrenceDays(reader, Tomorrow(day), end, dt)
  {
    OccurrenceDaysStep(reader, day, end, dt);
    var rest := OccurrenceDays(reader, Tomorrow(day), end, dt);
    if reader.RecursionHappensOn(day) {
      ConcatAssociative(days, [day], rest);
    } else {
      assert [] + rest == rest;
    }
  }

  /** The rows generated from one template for the days `days`, numbered on from `firstIndex`. */
  function Copies(dt: EventDateTime, days: seq<Date>, firstIndex: nat): (r: seq<EventDateTime>)
    ensures |r| == |days|
  {
    seq(|days|, k requires 0 <= k < |days| => RecurringCopy(dt, days[k], firstIndex + k))
  }

  lemma CopiesSnoc(dt: EventDateTime, days: seq<Date>, day: Date, firstIndex: nat, next: nat)
    requires next == firstIndex + |days|
    ensures Copies(dt, days + [day], firstIndex) == Copies(dt, days, firstIndex) + [RecurringCopy(dt, day, next)]
  {
  }

  lemma CopiesOfOccurrenceDays(reader: RecursionReader, dt: EventDateTime, windowStart: Date, windowEnd: Date, firstIndex: nat)
    requires reader.Ready()
    ensures Copies(dt, OccurrenceDays(reader, ScanStart(dt, windowStart), windowEnd, dt), firstIndex)
         == Generated(TemplateOccurrences(reader, dt, windowStart, windowEnd), firstIndex)
  {
  }

  /** One pass of the outer `foreach`: the rows generated for one event. */
  method AddEventOccurrences(event: EventsPage, windowStart: Date, windowEnd: Date, counter: OccurrenceCounter)
    returns (records: seq<EventDateTime>)
    requires IntervalsUsable(event)
    modifies counter
    ensures records == Generated(EventOccurrences(event, windowStart, windowStart, windowEnd), old(counter.value))
    ensures counter.value == old(counter.value) + |records|
  {
    var reader := NewRecursionReader(event);
    var dts := DateFilter(event.dateTimes, windowStart, windowEnd);
    assert dts != [] ==> dts[0] in event.dateTimes;
    records := [];
    var i := 0;
    while i < |dts|
      invariant 0 <= i <= |dts|
      invariant records == Generated(DateTimesOccurrences(reader, dts[..i], windowStart, windowEnd), old(counter.value))
      invariant counter.value == old(counter.value) + |records|
    {
      ghost var next := counter.value;
      var more := ScanDateTime(reader, dts[i], windowStart, windowEnd, counter);
      DateTimesOccurrencesSnoc(reader, dts, i, windowStart, windowEnd);
      ExtendGenerated(DateTimesOccurrences(reader, dts[..i], windowStart, windowEnd),
                      TemplateOccurrences(reader, dts[i], windowStart, windowEnd),
                      DateTimesOccurrences(reader, dts[..i + 1], windowStart, windowEnd),
                      old(counter.value), next, records, more);
      records := records + more;
      i := i + 1;
    }
    assert dts[..i] == dts;
  }

  /** `addRecurringEvents`: append to `allEvents` a generated row for every
      occurrence of every recurring event inside the window, numbering them
      with the shared counter. Every event's rows are filtered against the
      window start (see the findings in README.md for the code as written). */
  method AddRecurringEvents(windowStart: Date, windowEnd: Date, events: seq<EventsPage>, allEvents: seq<EventDateTime>, counter: OccurrenceCounter)
    returns (result: seq<EventDateTime>)
    requires forall e :: e in events ==> IntervalsUsable(e)
    modifies counter
    ensures result == allEvents + Generated(AllOccurrences(events, windowStart, windowEnd), old(counter.value))
    ensures counter.value == old(counter.value) + |AllOccurrences(events, windowStart, windowEnd)|
  {
    result := allEvents;
    ghost var added: seq<EventDateTime> := [];
    var i := 0;
    assert events[..0] == [];
    assert allEvents + [] == allEvents;
    while i < |events|
      invariant 0 <= i <= |events|
      invariant result == allEvents + added
      invariant added == Generated(AllOccurrences(events[..i], windowStart, windowEnd), old(counter.value))
      invariant counter.value == old(counter.value) + |AllOccurrences(events[..i], windowStart, windowEnd)|
    {
      ghost var next := counter.value;
      var more := AddEventOccurrences(events[i], windowStart, windowEnd, counter);
      AllOccurrencesSnoc(events, i, windowStart, windowEnd);
      ExtendGenerated(AllOccurrences(events[..i], windowStart, windowEnd),
                      EventOccurrences(events[i], windowStart, windowStart, windowEnd),
                      AllOccurrences(events[..i + 1], windowStart, windowEnd),
                      old(counter.value), next, added, more);
      ConcatAssociative(allEvents, added, more);
      result := result + more;
      added := added + more;
      i := i + 1;
    }
    assert events[..i] == events;
  }
}
