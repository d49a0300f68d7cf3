/** The stored records of the events module: an event page with its
    recurrence settings and related rows, and the date/time rows of an event
    (src/models/EventDateTime.php). Database plumbing is not modelled: a
    related list is a sequence in the order the database returns it. */
module EventRecords {
  import opened Wrappers
  import opened Calendar

  /** A stored row has a numeric ID; a generated occurrence has the ID
      "recurring" followed by a counter value. */
  datatype RecordId = Stored(n: int) | Recurring(index: nat)

  /** One EventDateTime row. Times are seconds after midnight. */
  datatype EventDateTime = EventDateTime(
    id: RecordId,
    eventId: int,
    dateTimeId: Option<RecordId>,
    startDate: Date,
    eventDuration: int,
    startTime: nat,
    endTime: nat,
    lastStartDate: Option<Date>)

  /** A RecurringDayOfWeek or RecurringDayOfMonth row linked to an event. */
  datatype DayRecord = DayRecord(id: int, value: int)

  /** A RecurringException row linked to an event. */
  datatype RecurringException = RecurringException(id: int, exceptionDate: Date)

  /** An EventsPage with its recurrence settings, as the CMS stores them:
      CustomRecursionType 1 = daily, 2 = weekly, 3 = monthly; the two
      monthly modes are independent flags that count when equal to 1;
      MonthlyIndex 1..4 = first..fourth, 5 = last. */
  datatype EventsPage = EventsPage(
    id: int,
    recursion: bool,
    customRecursionType: int,
    dailyInterval: int,
    weeklyInterval: int,
    monthlyInterval: int,
    monthlyRecursionType1: int,
    monthlyRecursionType2: int,
    monthlyIndex: int,
    monthlyDayOfWeek: Weekday,
    recurringDaysOfWeek: seq<DayRecord>,
    recurringDaysOfMonth: seq<DayRecord>,
    exceptions: seq<RecurringException>,
    dateTimes: seq<EventDateTime>)

  /** The intervals that the recurrence test divides by without a zero
      guard (PHP's `%` throws on a zero divisor) are positive, as the
      editing form's choices 1..10 make them. */
  predicate IntervalsUsable(e: EventsPage) {
    (e.customRecursionType == 2 ==> e.weeklyInterval >= 1)
    && (e.customRecursionType == 3 ==> e.monthlyInterval >= 1)
  }

  const DefaultEventDuration := 1

  /** A new EventDateTime row with the defaults of the model class. */
  function NewEventDateTime(id: int, eventId: int, startDate: Date, startTime: nat, endTime: nat): (r: EventDateTime)
    ensures r.eventDuration == DefaultEventDuration && r.lastStartDate == None
  {
    EventDateTime(Stored(id), eventId, None, startDate, DefaultEventDuration, startTime, endTime, None)
  }

  /** The last day of an event that starts on `start` and lasts `duration`
      days: `FinishDate` as a date, absent (the empty string) for a one-day
      event. An explicit start date replaces the row's own. */
  function FinishDate(dt: EventDateTime, startDate: Option<Date>): (r: Option<Date>)
    ensures r.None? <==> dt.eventDuration <= 1
    ensures r.Some? ==>
      var s := if startDate.Some? then startDate.value else dt.startDate;
      Ordinal(r.value) - Ordinal(s) == dt.eventDuration - 1 && Ordinal(s) < Ordinal(r.value)
  {
    var s := if startDate.Some? then startDate.value else dt.startDate;
    if dt.eventDuration > 1 then Some(AddDays(s, dt.eventDuration - 1)) else None
  }

  /** The day on which a row's event ends: its start day for one-day events. */
  function LastDayOf(dt: EventDateTime): Date {
    AddDays(dt.startDate, if dt.eventDuration > 1 then dt.eventDuration - 1 else 0)
  }

  /** `Finished`: the event's finish date (its start date when it has
      none) began before `now`. */
  predicate Finished(dt: EventDateTime, now: Instant)
    ensures Finished(dt, now) ==> MidnightBefore(dt.startDate, now)
    ensures dt.eventDuration > 1 ==>
      (Finished(dt, now) <==>
        Ordinal(dt.startDate) + dt.eventDuration - 1 < Ordinal(now.date)
        || (Ordinal(dt.startDate) + dt.eventDuration - 1 == Ordinal(now.date) && now.secondOfDay > 0))
  {
    var f := FinishDate(dt, None);
    MidnightBeforeByOrdinal(dt.startDate, now);
    if f.None? then MidnightBefore(dt.startDate, now)
    else MidnightBeforeByOrdinal(f.value, now); MidnightBefore(f.value, now)
  }

  /** A row is finished exactly when the midnight of its last day has passed. */
  lemma FinishedIffLastDayBegun(dt: EventDateTime, now: Instant)
    ensures Finished(dt, now) <==> MidnightBefore(LastDayOf(dt), now)
  {
    if dt.eventDuration > 1 {
      AtOrdinal(dt.startDate, FinishDate(dt, None).value, dt.eventDuration - 1);
    }
  }

  /** A row created with the default duration has no finish date and is
      finished once its start day has begun. */
  lemma DefaultRowHasNoFinishDate(id: int, eventId: int, startDate: Date, startTime: nat, endTime: nat, now: Instant)
    ensures FinishDate(NewEventDateTime(id, eventId, startDate, startTime, endTime), None) == None
    ensures Finished(NewEventDateTime(id, eventId, startDate, startTime, endTime), now)
            <==> MidnightBefore(startDate, now)
  {
  }
}
