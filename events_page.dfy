/** The per-event lookups of an events page (src/pagetypes/EventsPage.php):
    whether the event has expired, the row to show for a given date, and the
    next upcoming occurrence. Each looks at the event's first date/time row
    only. */
module EventsPageLookups {
  import opened Wrappers
  import opened Calendar
  import opened EventRecords
  import opened RecursionReading
  import opened EventsOverview

  /** `Expired`: the event has a row and the midnight of its last start date
      lies before `now`. A row without a last start date counts as expired,
      since `strtotime` of an empty value is false, which compares below
      every time. */
  predicate Expired(event: EventsPage, now: Instant)
    ensures Expired(event, now) ==> event.dateTimes != []
    ensures event.dateTimes != [] && event.dateTimes[0].lastStartDate.None? ==> Expired(event, now)
    ensures event.dateTimes != [] && event.dateTimes[0].lastStartDate.Some? ==>
      var last := event.dateTimes[0].lastStartDate.value;
      (Expired(event, now) <==>
        Ordinal(last) < Ordinal(now.date) || (Ordinal(last) == Ordinal(now.date) && now.secondOfDay > 0))
  {
    event.dateTimes != []
    && match event.dateTimes[0].lastStartDate
       case None => true
       case Some(last) => MidnightBeforeByOrdinal(last, now); MidnightBefore(last, now)
  }

  /** The stop test of both scans: the row has a last start date after the
      Unix epoch whose midnight lies before `at`. */
  predicate StoppedAt(dt: EventDateTime, at: Instant) {
    dt.lastStartDate.Some? && AfterEpoch(dt.lastStartDate.value) && MidnightBefore(dt.lastStartDate.value, at)
  }

  /** At a midnight the stop test is the one of the overview's scan. */
  lemma StoppedAtMidnight(dt: EventDateTime, day: Date)
    ensures StoppedAt(dt, Instant(day, 0)) <==> PastLastStart(dt, day)
  {
  }

  // ---------------------------------------------------------------------
  // DateTimeAt

  /** `DateTimeAt` generates a row for `at` rather than return the stored
      one: the event recurs, its first row does not stop before `at`, and
      the event occurs on `at`'s day. */
  predicate GeneratesAt(event: EventsPage, at: Instant)
    requires IntervalsUsable(event)
  {
    event.dateTimes != [] && event.recursion && !StoppedAt(event.dateTimes[0], at)
    && ReaderFor(event).RecursionHappensOn(at.date)
  }

  /** `DateTimeAt`: no row (false) for an event without rows; a copy of the
      first row for `at`'s day, numbered by the counter, when the event
      generates one there; the first row itself otherwise. */
  method DateTimeAt(event: EventsPage, at: Instant, counter: OccurrenceCounter) returns (r: Option<EventDateTime>)
    requires IntervalsUsable(event)
    modifies counter
    ensures event.dateTimes == [] ==> r == None
    ensures GeneratesAt(event, at) ==> r == Some(RecurringCopy(event.dateTimes[0], at.date, old(counter.value)))
    ensures event.dateTimes != [] && !GeneratesAt(event, at) ==> r == Some(event.dateTimes[0])
    ensures counter.value == old(counter.value) + (if GeneratesAt(event, at) then 1 else 0)
  {
    var reader := NewRecursionReader(event);
    if event.dateTimes == [] {
      return None;
    }
    var dt := event.dateTimes[0];
    if !event.recursion {
      return Some(dt);
    }
    if dt.lastStartDate.Some? {
      if AfterEpoch(dt.lastStartDate.value) && MidnightBefore(dt.lastStartDate.value, at) {
        return Some(dt);
      }
    }
    if reader.RecursionHappensOn(at.date) {
      var e := NewRecursionDateTime(dt, at.date, counter);
      return Some(e);
    }
    return Some(dt);
  }

  /** No row is generated on a date before the event's first start, on an
      exception date, or past a last start date. */
  lemma NothingGeneratedOffSchedule(event: EventsPage, at: Instant)
    requires IntervalsUsable(event) && event.dateTimes != []
    ensures Ordinal(at.date) < Ordinal(event.dateTimes[0].startDate) ==> !GeneratesAt(event, at)
    ensures at.date in ExceptionDates(event.exceptions) ==> !GeneratesAt(event, at)
    ensures StoppedAt(event.dateTimes[0], at) ==> !GeneratesAt(event, at)
    ensures !event.recursion ==> !GeneratesAt(event, at)
  {
    if Ordinal(at.date) < Ordinal(event.dateTimes[0].startDate) {
      NeverBeforeStart(ReaderFor(event), at.date);
    }
  }

  // ---------------------------------------------------------------------
  // LatestEventDateTime

  /** Where the scan of `LatestEventDateTime` ends: the midnight of the
      row's last start date, or `now` itself when it has none. */
  function ScanEnd(dt: EventDateTime, now: Instant): Instant {
    if dt.lastStartDate.Some? then Instant(dt.lastStartDate.value, 0) else now
  }

  /** The scan reaches `day` (at `now`'s time of day): it is still inside the
      loop bound and not stopped by the row's last start date. */
  predicate Reached(dt: EventDateTime, day: Date, second: nat, end: Instant) {
    InstantAtMost(Instant(day, second), end) && !StoppedAt(dt, Instant(day, second))
  }

  /** The day on which the scan from `day` returns a generated row: the
      first day it reaches on which the event occurs. */
  function FirstOccurrence(reader: RecursionReader, day: Date, second: nat, end: Instant, dt: EventDateTime): Option<Date>
    requires reader.Ready()
    decreases Ordinal(end.date) - Ordinal(day)
  {
    if !InstantAtMost(Instant(day, second), end) || StoppedAt(dt, Instant(day, second)) then None
    else if reader.RecursionHappensOn(day) then Some(day)
    else FirstOccurrence(reader, Tomorrow(day), second, end, dt)
  }

  /** Once the scan stops reaching days, it reaches no later day. */
  lemma ReachedEarlier(dt: EventDateTime, a: Date, b: Date, second: nat, end: Instant)
    requires Ordinal(a) <= Ordinal(b) && Reached(dt, b, second, end)
    ensures Reached(dt, a, second, end)
  {
    OrdinalInjective(a, b);
  }

  /** The scan returns the earliest day from `day` on that it reaches and on
      which the event occurs, and nothing when there is none. */
  lemma {:induction false} FirstOccurrenceIsEarliest(reader: RecursionReader, day: Date, second: nat, end: Instant, dt: EventDateTime)
    requires reader.Ready()
    ensures var r := FirstOccurrence(reader, day, second, end, dt);
      (r.Some? ==> Ordinal(day) <= Ordinal(r.value) && Reached(dt, r.value, second, end)
                   && reader.RecursionHappensOn(r.value))
      && (forall e: Date {:trigger reader.RecursionHappensOn(e)} ::
            Ordinal(day) <= Ordinal(e) && Reached(dt, e, second, end) && reader.RecursionHappensOn(e)
            ==> r.Some? && Ordinal(r.value) <= Ordinal(e))
    decreases Ordinal(end.date) - Ordinal(day)
  {
    var r := FirstOccurrence(reader, day, second, end, dt);
    if !InstantAtMost(Instant(day, second), end) || StoppedAt(dt, Instant(day, second)) {
      forall e: Date | Ordinal(day) <= Ordinal(e) && Reached(dt, e, second, end)
        ensures false
      {
        ReachedEarlier(dt, day, e, second, end);
      }
    } else if !reader.RecursionHappensOn(day) {
      FirstOccurrenceIsEarliest(reader, Tomorrow(day), second, end, dt);
      forall e: Date | Ordinal(day) <= Ordinal(e) && Reached(dt, e, second, end) && reader.RecursionHappensOn(e)
        ensures Ordinal(Tomorrow(day)) <= Ordinal(e)
      {
        OrdinalInjective(day, e);
      }
    }
  }

  /** The day `LatestEventDateTime` generates a row for, if any: none for an
      event without rows or one that does not recur. */
  function LatestDay(event: EventsPage, now: Instant): Option<Date>
    requires IntervalsUsable(event)
  {
    if event.dateTimes == [] || !event.recursion then None
    else
      var dt := event.dateTimes[0];
      FirstOccurrence(ReaderFor(event), now.date, now.secondOfDay, ScanEnd(dt, now), dt)
  }

  /** Inside the loop bound the stop test never fires: the loop condition
      already keeps the scan at or before the last start date. */
  lemma LatestScanNeverStops(dt: EventDateTime, day: Date, now: Instant)
    requires InstantAtMost(Instant(day, now.secondOfDay), ScanEnd(dt, now))
    ensures !StoppedAt(dt, Instant(day, now.secondOfDay))
  {
  }

  /** `LatestEventDateTime` picks the earliest day from today up to the
      last start date (only today when there is none) on which the event
      occurs. */
  lemma LatestDayIsEarliest(event: EventsPage, now: Instant)
    requires IntervalsUsable(event) && event.dateTimes != [] && event.recursion
    ensures var r := LatestDay(event, now);
      var end := ScanEnd(event.dateTimes[0], now);
      (r.Some? ==> Ordinal(now.date) <= Ordinal(r.value) && InstantAtMost(Instant(r.value, now.secondOfDay), end)
                   && ReaderFor(event).RecursionHappensOn(r.value))
      && (forall e: Date {:trigger ReaderFor(event).RecursionHappensOn(e)} ::
            Ordinal(now.date) <= Ordinal(e) && InstantAtMost(Instant(e, now.secondOfDay), end)
            && ReaderFor(event).RecursionHappensOn(e)
            ==> r.Some? && Ordinal(r.value) <= Ordinal(e))
  {
    var dt := event.dateTimes[0];
    var end := ScanEnd(dt, now);
    FirstOccurrenceIsEarliest(ReaderFor(event), now.date, now.secondOfDay, end, dt);
    forall e | InstantAtMost(Instant(e, now.secondOfDay), end)
      ensures Reached(dt, e, now.secondOfDay, end)
    {
      LatestScanNeverStops(dt, e, now);
    }
  }

  /** Without a last start date only today is looked at. */
  lemma WithoutLastStartOnlyToday(event: EventsPage, now: Instant)
    requires IntervalsUsable(event) && event.dateTimes != [] && event.recursion
    requires event.dateTimes[0].lastStartDate.None?
    ensures LatestDay(event, now) == if ReaderFor(event).RecursionHappensOn(now.date) then Some(now.date) else None
  {
    var dt := event.dateTimes[0];
    if !ReaderFor(event).RecursionHappensOn(now.date) {
      var next := Tomorrow(now.date);
      assert FirstOccurrence(ReaderFor(event), next, now.secondOfDay, now, dt) == None;
    }
  }

  /** An expired event with a last start date has no upcoming occurrence. */
  lemma ExpiredHasNoUpcoming(event: EventsPage, now: Instant)
    requires IntervalsUsable(event) && Expired(event, now)
    requires event.dateTimes[0].lastStartDate.Some?
    ensures LatestDay(event, now) == None
  {
  }

  /** The row `LatestEventDateTime` generates is the one `DateTimeAt` gives
      for the midnight of its day. */
  lemma LatestDayGeneratesAt(event: EventsPage, now: Instant)
    requires IntervalsUsable(event) && LatestDay(event, now).Some?
    ensures GeneratesAt(event, Instant(LatestDay(event, now).value, 0))
  {
    LatestDayIsEarliest(event, now);
    var d := LatestDay(event, now).value;
    LatestScanNeverStops(event.dateTimes[0], d, now);
  }

  /** `LatestEventDateTime`: no row (false) for an event without rows, the
      first row for an event that does not recur; otherwise scan from today
      day by day while the day lies at or before the last start date, and
      return a numbered copy of the first row for the first day on which the
      event occurs, or the first row itself when there is none. */
  method LatestEventDateTime(event: EventsPage, now: Instant, counter: OccurrenceCounter) returns (r: Option<EventDateTime>)
    requires IntervalsUsable(event)
    modifies counter
    ensures event.dateTimes == [] ==> r == None
    ensures LatestDay(event, now).Some? ==>
      r == Some(RecurringCopy(event.dateTimes[0], LatestDay(event, now).value, old(counter.value)))
    ensures event.dateTimes != [] && LatestDay(event, now).None? ==> r == Some(event.dateTimes[0])
    ensures counter.value == old(counter.value) + (if LatestDay(event, now).Some? then 1 else 0)
  {
    var reader := NewRecursionReader(event);
    if event.dateTimes == [] {
      return None;
    }
    var dt := event.dateTimes[0];
    var end := if dt.lastStartDate.Some? then Instant(dt.lastStartDate.value, 0) else now;
    if !event.recursion {
      return Some(dt);
    }
    var day := now.date;
    while InstantAtMost(Instant(day, now.secondOfDay), end)
      invariant FirstOccurrence(reader, day, now.secondOfDay, end, dt) == LatestDay(event, now)
      invariant counter.value == old(counter.value)
      decreases Ordinal(end.date) - Ordinal(day)
    {
      if dt.lastStartDate.Some? {
        if AfterEpoch(dt.lastStartDate.value) && MidnightBefore(dt.lastStartDate.value, Instant(day, now.secondOfDay)) {
          break;
        }
      }
      if reader.RecursionHappensOn(day) {
        var e := NewRecursionDateTime(dt, day, counter);
        return Some(e);
      }
      day := Tomorrow(day);
    }
    return Some(dt);
  }
}
