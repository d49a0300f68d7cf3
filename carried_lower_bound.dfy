/** The lower bound of `dateFilter` in `addRecurringEvents`
    (src/pagetypes/EventsOverviewPage.php:132-172) as the code carries it.
    `$date_counter` starts at the window start and is passed to `dateFilter`
    for every recurring event; but the scan of each row reassigns it, and the
    closing `reset()` only takes it back to the date it was created at: the
    window start, or the row's own start date when that was later. The next
    event's rows are then filtered against that date. */
module CarriedLowerBound {
  import opened Wrappers
  import opened Calendar
  import opened EventRecords
  import opened RecursionReading
  import opened EventsOverview

  /** `$date_counter` after the scans of the rows `dts` of one event, when it
      held `lower` before them: unchanged without rows, else reset to the
      start of the last row's scan. */
  function LowerBoundAfter(dts: seq<EventDateTime>, lower: Date, windowStart: Date): Date {
    if dts == [] then lower else ScanStart(dts[|dts| - 1], windowStart)
  }

  /** The occurrences the loop as written generates: each event's rows are
      filtered against the bound the previous event left behind. */
  function AllOccurrencesAsWritten(events: seq<EventsPage>, lower: Date, windowStart: Date, windowEnd: Date): seq<Occurrence>
    requires forall e :: e in events ==> IntervalsUsable(e)
  {
    if events == [] then []
    else
      var next := LowerBoundAfter(DateFilter(events[0].dateTimes, lower, windowEnd), lower, windowStart);
      EventOccurrences(events[0], lower, windowStart, windowEnd)
      + AllOccurrencesAsWritten(events[1..], next, windowStart, windowEnd)
  }

  /** No row of any event starts after the window start. */
  predicate NoLateStart(events: seq<EventsPage>, windowStart: Date) {
    forall e, dt :: e in events && dt in e.dateTimes ==> Ordinal(dt.startDate) <= Ordinal(windowStart)
  }

  /** When no row starts after the window start, the carried bound stays the
      window start and the code as written generates what every event
      generates on its own. */
  lemma {:induction false} AsWrittenAgreesWithoutLateStarts(events: seq<EventsPage>, windowStart: Date, windowEnd: Date)
    requires forall e :: e in events ==> IntervalsUsable(e)
    requires NoLateStart(events, windowStart)
    ensures AllOccurrencesAsWritten(events, windowStart, windowStart, windowEnd)
         == AllOccurrences(events, windowStart, windowEnd)
  {
    if events != [] {
      var dts := DateFilter(events[0].dateTimes, windowStart, windowEnd);
      if dts != [] {
        assert dts[|dts| - 1] in events[0].dateTimes;
      }
      assert LowerBoundAfter(dts, windowStart, windowStart) == windowStart;
      assert NoLateStart(events[1..], windowStart) by {
        forall e, dt | e in events[1..] && dt in e.dateTimes
          ensures Ordinal(dt.startDate) <= Ordinal(windowStart)
        {
          assert e in events;
        }
      }
      AsWrittenAgreesWithoutLateStarts(events[1..], windowStart, windowEnd);
    }
  }

  // ---------------------------------------------------------------------
  // Two daily events that show the difference

  const WindowStart: Date := CivilDate(2018, 11, 1)
  const WindowEnd: Date := CivilDate(2018, 12, 31)

  /** A daily event whose only row starts on 2018-12-01 and does not end. */
  const RowA := EventDateTime(Stored(10), 1, None, CivilDate(2018, 12, 1), 1, 0, 0, None)
  const EventA := EventsPage(1, true, 1, 1, 1, 1, 0, 0, 1, 0, [], [], [], [RowA])

  /** A daily event whose only row runs from 2018-11-01 to 2018-11-20. */
  const RowB := EventDateTime(Stored(20), 2, None, CivilDate(2018, 11, 1), 1, 0, 0, Some(CivilDate(2018, 11, 20)))
  const EventB := EventsPage(2, true, 1, 1, 1, 1, 0, 0, 1, 0, [], [], [], [RowB])

  /** Listed after A, event B loses all its occurrences: A's scan leaves the
      bound at 2018-12-01, and B's row, whose last start is 2018-11-20, fails
      `dateFilter` against it; on its own B occurs on 2018-11-01. */
  lemma DateCounterLeaks()
    ensures AllOccurrencesAsWritten([EventA, EventB], WindowStart, WindowStart, WindowEnd)
         == EventOccurrences(EventA, WindowStart, WindowStart, WindowEnd)
    ensures Occurrence(RowB, WindowStart) in AllOccurrences([EventA, EventB], WindowStart, WindowEnd)
    ensures Occurrence(RowB, WindowStart) !in AllOccurrencesAsWritten([EventA, EventB], WindowStart, WindowStart, WindowEnd)
  {
    CarriedBoundDropsB();
    BOccursOnItsOwn();
    // A's occurrences are all copies of A's row.
    EventOccurrencesMembers(EventA, WindowStart, WindowStart, WindowEnd, Occurrence(RowB, WindowStart));
  }

  /** With the bound carried over from A, B's row is filtered out. */
  lemma CarriedBoundDropsB()
    ensures AllOccurrencesAsWritten([EventA, EventB], WindowStart, WindowStart, WindowEnd)
         == EventOccurrences(EventA, WindowStart, WindowStart, WindowEnd)
  {
    var events := [EventA, EventB];
    // A's row passes the filter, so the bound moves to its start date.
    assert DateFilter([RowA], WindowStart, WindowEnd) == [RowA];
    var next := LowerBoundAfter([RowA], WindowStart, WindowStart);
    assert next == RowA.startDate;
    // B's row ended before that date.
    assert DateFilter([RowB], next, WindowEnd) == [];
    assert EventOccurrences(EventB, next, WindowStart, WindowEnd) == [];
    assert events[1..] == [EventB];
    assert AllOccurrencesAsWritten([EventB], next, WindowStart, WindowEnd) == [];
  }

  /** Filtered against the window start, B occurs on the window start. */
  lemma BOccursOnItsOwn()
    ensures Occurrence(RowB, WindowStart) in AllOccurrences([EventA, EventB], WindowStart, WindowEnd)
  {
    var events := [EventA, EventB];
    var x := Occurrence(RowB, WindowStart);
    var reader := ReaderFor(EventB);
    assert reader.exceptions == [];
    assert reader.RecursionHappensOn(WindowStart);
    EventOccurrencesMembers(EventB, WindowStart, WindowStart, WindowEnd, x);
    AllOccurrencesMembers(events, WindowStart, WindowEnd, x);
    assert events[1] == EventB;
  }
}
