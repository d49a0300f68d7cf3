# Recurring events of silverstripe-events, in Dafny

This project models the recurrence engine of the SilverStripe events module
and proves properties of that model. The model covers the following parts of
the module:

- **The recursion reader.** `RecursionReader` decides whether a recurring
  event occurs on a date. The rules are daily every n days, weekly every n
  weeks on chosen weekdays, or monthly every n months on chosen days of the
  month or on the n-th (or last) given weekday. An event never occurs before
  its first start date or on an exception date.
- **The overview page's event list.** `getEventList` and
  `addRecurringEvents` walk every day of the requested window for each row of
  each recurring event. They stop at the row's last start date, create a
  numbered copy of the row on every day the reader accepts, merge the copies
  with the standard rows and sort the result by start date, then start time.
- **The events page lookups.** `Expired`, `DateTimeAt` and
  `LatestEventDateTime` (the next upcoming occurrence) are modelled, as are
  the finish date and `Finished` test of a single row.
- **The overview controller.** It reads the `show` action's parameters into
  a view (today, week, month, day, range or default) and a window of dates.
  It also computes the jump links to the previous and next window, and the
  month choices of the jump form.
- **The lookup tables.** These are the weekdays 0..6 and the days of the
  month 1..31 that `requireDefaultRecords` keeps in place.

Dates are civil dates (year, month, day). `Calendar.Ordinal` numbers them
consecutively, and the weekday is derived from that number (0 = Sunday).
Timestamps that the code compares are modelled as a date plus a second of the
day (`Calendar.Instant`). The current time and "today" are parameters.

The module's static counter of generated rows (`$reccurring_event_index`) is
a class `OccurrenceCounter`. Every method that creates rows takes the counter
and states how far it advances it.

Each method that loops in the source is a method with a loop. It is proved
against a recursive specification function, and the properties are proved
about that function. The pairs are:

- `ScanDateTime` against `OccurrenceDays`;
- `AddRecurringEvents` against `AllOccurrences`;
- `LatestEventDateTime` against `FirstOccurrence`;
- `StepToNthWeekday` against `NthNextDay`;
- `BuildMonthOptions` against `MonthKeys`;
- `RequireDefaultRecords` against `Normalised`.

The files are:

- `calendar.dfy` (module `Calendar`): the date library.
- `event_records.dfy` (module `EventRecords`): the data model.
- `recursion_reader.dfy` (module `RecursionReading`).
- `events_overview_page.dfy` (module `EventsOverview`): the generation of rows.
- `event_list.dfy` (module `EventListing`): the sort and `getEventList`.
- `carried_lower_bound.dfy` (module `CarriedLowerBound`): the finding below.
- `events_page.dfy` (module `EventsPageLookups`).
- `overview_controller.dfy` (module `OverviewController`).
- `lookup_tables.dfy` (module `LookupTables`).
- `wrappers.dfy` (module `Wrappers`).
- `test_scenarios.dfy` (module `OverviewScenarios`): the weekly and
  days-of-month expectations of the overview page's tests.

## Model

| member | source | states |
|---|---|---|
| Calendar.Tomorrow | src/pagetypes/EventsOverviewPage.php:168 | `tomorrow()` moves to the day whose day number is one higher |
| Calendar.AddDays | src/pagetypes/EventsOverviewPage.php:204 | "+n days" lands exactly n day numbers on |
| Calendar.FirstDayOfWeek | src/helpers/RecursionReader.php:84 | `firstDayOfWeek()` is the Sunday at most six days before the date |
| Calendar.FinalDayOfWeek | src/controllers/EventsOverviewPageController.php:428 | `finalDayOfWeek()` is the Saturday at most six days after, six days after the week's Sunday |
| Calendar.FinalDayOfMonth | src/controllers/EventsOverviewPageController.php:279 | `finalDayOfMonth()` is the same month's last day, its day number the month's length minus the day later |
| Calendar.AddMonths | src/helpers/RecursionReader.php:99-101 | `addMonth`/`subtractMonth` move the month number by n and keep the day, clamped to the target month's length |
| Calendar.NextDay | src/helpers/RecursionReader.php:103 | `nextDay(w)` is a day with weekday w, one to seven days later |
| Calendar.NextDayIsFirst | src/helpers/RecursionReader.php:103 | any day with weekday w within the next seven days is `nextDay(w)`, so it is the first such day |
| Calendar.PreviousDay | src/helpers/RecursionReader.php:99 | `previousDay(w)` is a day with weekday w, one to seven days earlier |
| Calendar.PreviousDayIsLast | src/helpers/RecursionReader.php:99 | any day with weekday w within the previous seven days is `previousDay(w)` |
| RecursionReading.RecursionReader.RecursionHappensOn | src/helpers/RecursionReader.php:64-114 | an accepted date is on or after the first start date, is no exception, and belongs to an event whose recursion type is daily, weekly or monthly |
| RecursionReading.DifferenceInMonths | src/helpers/RecursionReader.php:27-30 | zero exactly for dates in the same month, positive exactly when the first date is in a later month |
| RecursionReading.DifferenceInMonthsAntisymmetric | src/helpers/RecursionReader.php:27-30 | swapping the dates negates the difference |
| RecursionReading.NewRecursionReader | src/helpers/RecursionReader.php:32-62 | the reader holds the first row's start date, the weekday values only for weekly events, the day-of-month values only for monthly events, and exactly the event's exception dates |
| RecursionReading.NeverBeforeStart | src/helpers/RecursionReader.php:69-72 | no occurrence falls before the first start date |
| RecursionReading.ExceptionCancels | src/helpers/RecursionReader.php:73-75 | no occurrence falls on an exception date |
| RecursionReading.DailyOccurrenceIsStep | src/helpers/RecursionReader.php:78-80 | a daily occurrence is no exception and lies a whole number of intervals after the start |
| RecursionReading.DailyStepIsOccurrence | src/helpers/RecursionReader.php:78-80 | every day a whole number of intervals after the start that is no exception is an occurrence |
| RecursionReading.DailyIntervalZero | src/helpers/RecursionReader.php:80 | a daily interval of 0 yields no occurrence |
| RecursionReading.WeeksBetween | src/helpers/RecursionReader.php:84 | the weeks between the Sundays of two dates, times seven, is the distance between those Sundays |
| RecursionReading.WeeklyOccurrences | src/helpers/RecursionReader.php:82-86 | a weekly event occurs on d exactly when d is not before the start, is no exception, has an allowed weekday and its week is a whole number of intervals after the start's week |
| RecursionReading.MonthlyNeedsMonthStep | src/helpers/RecursionReader.php:88-112 | a monthly occurrence lies a whole number of intervals of months after the start |
| RecursionReading.MonthlyDaysOfMonth | src/helpers/RecursionReader.php:90-94 | with days of the month chosen, an eligible date occurs exactly when its day is chosen |
| RecursionReading.StepToNthWeekday | src/helpers/RecursionReader.php:101-105 | the loop of `nextDay` calls reaches the n-th weekday after the given date (none for n <= 0) |
| RecursionReading.NthNextDayOrdinal | src/helpers/RecursionReader.php:102-104 | the n-th `nextDay(w)` has weekday w and lies 7(n-1) days after the first |
| RecursionReading.NthWeekdayFrom | src/helpers/RecursionReader.php:101-105 | counting n weekdays w from the previous month's last day lands on d exactly when d has weekday w and lies in the n-th run of seven days |
| RecursionReading.NthWeekdayOfMonth | src/helpers/RecursionReader.php:100-108 | for an index other than 5, the target date is d exactly when the index is at least 1, d has the weekday and d's day is in the index-th run of seven days |
| RecursionReading.LastWeekdayOfMonth | src/helpers/RecursionReader.php:98-99 | for index 5, the target date is d exactly when d has the weekday and no later day of its month does |
| RecursionReading.MonthlyWeekdayOfMonth | src/helpers/RecursionReader.php:95-109 | with the weekday rule, an eligible date occurs exactly when it is the index-th (or, for 5, the last) given weekday of its month |
| RecursionReading.NoRuleNoOccurrence | src/helpers/RecursionReader.php:77-113 | an unknown recursion type, or a monthly event with neither monthly rule, never occurs |
| EventRecords.NewEventDateTime | src/models/EventDateTime.php:33-35 | a new row lasts one day and has no last start date |
| EventRecords.FinishDate | src/models/EventDateTime.php:106-118 | a finish date exists exactly when the duration exceeds one day, and then lies duration - 1 days after the start date given (or the row's own) |
| EventRecords.Finished | src/models/EventDateTime.php:125-134 | a finished row's start midnight has passed; for a row longer than a day, finished exactly when midnight of its last day (start + duration - 1) has passed |
| EventRecords.FinishedIffLastDayBegun | src/models/EventDateTime.php:125-134 | a row has finished exactly when midnight of its last day has passed |
| EventRecords.DefaultRowHasNoFinishDate | src/models/EventDateTime.php:125-134 | a one-day row has no finish date and has finished exactly when its start date's midnight has passed |
| EventsOverview.OccurrenceCounter.constructor | src/pagetypes/EventsOverviewPage.php:196-197 | numbering of generated rows starts at 0 |
| EventsOverview.NewRecursionDateTime | src/pagetypes/EventsOverviewPage.php:181-200 | the copy takes the counter's number and the counter advances by one |
| EventsOverview.RecurringCopyKeepsTemplate | src/pagetypes/EventsOverviewPage.php:186-195 | the copy starts on the given day, keeps the row's event, duration, times and last start date, points back to the row, and finishes where the row would finish from that day |
| EventsOverview.RecurringEventEndDate | src/pagetypes/EventsOverviewPage.php:202-208 | the end date lies duration - 1 days after the start |
| EventsOverview.EndDateIsFinishDate | src/pagetypes/EventsOverviewPage.php:202-208 | for rows longer than a day it agrees with the row's finish date from that start |
| EventsOverview.DateFilter | src/pagetypes/EventsOverviewPage.php:238-249 | keeps exactly the rows starting by the window end whose last start date is absent or not before the lower bound |
| EventsOverview.OccurrenceDaysMembers | src/pagetypes/EventsOverviewPage.php:153-169 | the scan yields exactly the days from its start to the window end, not past the row's last start date, on which the reader accepts |
| EventsOverview.OccurrenceDaysIncrease | src/pagetypes/EventsOverviewPage.php:153-169 | the days of a scan are strictly increasing and none precedes its start |
| EventsOverview.ScanDateTime | src/pagetypes/EventsOverviewPage.php:145-171 | the loop over one row creates one numbered copy per occurrence day, in order, and advances the counter by their number |
| EventsOverview.AddEventOccurrences | src/pagetypes/EventsOverviewPage.php:136-172 | the rows of one event that pass the date filter produce their occurrences in row order |
| EventsOverview.AddRecurringEvents | src/pagetypes/EventsOverviewPage.php:130-176 | the list grows by the numbered copies of every event's occurrences, with each event filtered against the window start |
| EventsOverview.GeneratedIdsDistinct | src/pagetypes/EventsOverviewPage.php:196-197 | the generated rows take consecutive numbers, so no two share an id, and each starts on its occurrence day |
| EventsOverview.AllOccurrencesAppend | src/pagetypes/EventsOverviewPage.php:135-173 | the occurrences of two lists of events are those of each list, one after the other |
| EventsOverview.EventOccurrencesMembers | src/pagetypes/EventsOverviewPage.php:140-169 | an occurrence of an event is a row passing the date filter and a day in the window, from the row's start, not past its last start date, on which the reader accepts |
| EventsOverview.AllOccurrencesMembers | src/pagetypes/EventsOverviewPage.php:135-173 | an occurrence of the list is an occurrence of one of its events |
| EventListing.StartsNoLaterByDayNumber | src/pagetypes/EventsOverviewPage.php:69-72 | comparing 'YYYY-MM-DD' start dates as strings is comparing the dates, then the start times |
| EventListing.InsertByStart | src/pagetypes/EventsOverviewPage.php:69-72 | inserting into a sorted list keeps it sorted and adds exactly that row |
| EventListing.SortByStart | src/pagetypes/EventsOverviewPage.php:69-72 | the sort yields a reordering of the rows in start order |
| EventListing.AtMoment | src/pagetypes/EventsOverviewPage.php:69-72 | the rows of a list that start at one moment: each is in the list and starts then, and every such row of the list is among them |
| EventListing.InsertByStartStable | src/pagetypes/EventsOverviewPage.php:69-72 | inserting a row puts it in front of the rows of its own moment and keeps their order |
| EventListing.SortByStartStable | src/pagetypes/EventsOverviewPage.php:69-72 | the sort is stable: the rows of each moment come out in their input order |
| EventListing.SortedStartsAgree | src/pagetypes/EventsOverviewPage.php:69-72 | any two sorted reorderings of the same rows have the same start moment at every position |
| EventListing.EventListContents | src/pagetypes/EventsOverviewPage.php:59-75 | the event list is sorted and holds exactly the standard rows and the generated rows, each as often as produced |
| EventListing.GetEventList | src/pagetypes/EventsOverviewPage.php:59-75 | the method returns that list and advances the counter by the number of occurrences |
| CarriedLowerBound.AsWrittenAgreesWithoutLateStarts | src/pagetypes/EventsOverviewPage.php:132-172 | as written, the loop yields the intended occurrences whenever no row starts after the window start |
| CarriedLowerBound.DateCounterLeaks | src/pagetypes/EventsOverviewPage.php:140-171 | as written, an event listed after one that starts late loses an occurrence that it has on its own |
| EventsPageLookups.Expired | src/pagetypes/EventsPage.php:171-179 | no event without rows is expired; a first row without a last start date is expired; otherwise expired exactly when midnight of the last start date has passed |
| EventsPageLookups.StoppedAtMidnight | src/pagetypes/EventsPage.php:244-249 | the last-start test at a midnight is the overview's stop test for that day |
| EventsPageLookups.DateTimeAt | src/pagetypes/EventsPage.php:229-257 | nothing without rows; a numbered copy on the given date when the event recurs, has not stopped and the reader accepts the date; the first row otherwise; the counter advances only for a copy |
| EventsPageLookups.NothingGeneratedOffSchedule | src/pagetypes/EventsPage.php:239-254 | no copy is made before the start, on an exception, after the last start, or for an event that does not recur |
| EventsPageLookups.FirstOccurrenceIsEarliest | src/pagetypes/EventsPage.php:199-214 | the scan finds an accepted day within its bounds, and no earlier day within them is accepted |
| EventsPageLookups.LatestScanNeverStops | src/pagetypes/EventsPage.php:199-206 | while the loop condition holds, the last-start break never fires |
| EventsPageLookups.LatestDayIsEarliest | src/pagetypes/EventsPage.php:186-220 | the next occurrence is the earliest accepted day from today up to midnight of the last start date |
| EventsPageLookups.WithoutLastStartOnlyToday | src/pagetypes/EventsPage.php:192-199 | without a last start date only today can be found |
| EventsPageLookups.ExpiredHasNoUpcoming | src/pagetypes/EventsPage.php:171-179 | an expired event with a last start date has no upcoming occurrence |
| EventsPageLookups.LatestDayGeneratesAt | src/pagetypes/EventsPage.php:208-211 | the upcoming day found is one on which `DateTimeAt` makes a copy at midnight |
| EventsPageLookups.LatestEventDateTime | src/pagetypes/EventsPage.php:186-220 | nothing without rows; a numbered copy on the next occurrence when there is one; the first row otherwise; the counter advances only for a copy |
| OverviewController.Decimal | src/controllers/EventsOverviewPageController.php:488 | the year printed as digits reads back as the year |
| OverviewController.TwoDigits | src/controllers/EventsOverviewPageController.php:488 | the zero-padded month has two digits and reads back as the month |
| OverviewController.DateMask | src/controllers/EventsOverviewPageController.php:241-243 | same length, digits become 'x', all else unchanged |
| OverviewController.DateMaskIdempotent | src/controllers/EventsOverviewPageController.php:241-243 | a mask has no digits, so masking twice is masking once |
| OverviewController.GetViewType | src/controllers/EventsOverviewPageController.php:217-230 | the view is the default or one of today, week, month and day, never range |
| OverviewController.ViewTypeByMask | src/controllers/EventsOverviewPageController.php:217-230 | the exact-key lookup never disagrees with the mask lookup; the view is the mask's, or the default when the mask is no key |
| OverviewController.ViewTypeKeywords | src/controllers/EventsOverviewPageController.php:50-56 | 'today' gives today, 'week' and 'month' give week, a missing parameter gives the default |
| OverviewController.ViewTypeOfDates | src/controllers/EventsOverviewPageController.php:50-56 | 'YYYY-MM' gives month and 'YYYY-MM-DD' gives day |
| OverviewController.ValidateFullDate | src/controllers/EventsOverviewPageController.php:251-254 | a valid date's first ten characters have the 'xxxx-xx-xx' mask, followed by nothing or one final newline |
| OverviewController.ValidatedDateMask | src/controllers/EventsOverviewPageController.php:251-254 | a validated date masks to the day key (keeping a final newline); an 'x'-free string with that mask validates |
| OverviewController.NewlineDateGivesDefault | src/controllers/EventsOverviewPageController.php:251-254 | a date with a final newline validates but, as the first parameter, gives the default view |
| OverviewController.ParseDate | src/controllers/EventsOverviewPageController.php:312-317 | a date is read only from a string that validates |
| OverviewController.RangeViewType | src/controllers/EventsOverviewPageController.php:335-348 | a window with both ends is never today or default; day exactly when one day; week only for Sunday plus six days and always for such a window of two days or more; month only for a whole month and always for one |
| OverviewController.ViewWindowsClassify | src/controllers/EventsOverviewPageController.php:335-348 | one day is classified day, a Sunday-to-Saturday week week, a whole month month |
| OverviewController.SecondDateForcesRange | src/controllers/EventsOverviewPageController.php:199-203 | with a valid second date the view and window are exactly the range window of the two dates read, never today or the default |
| OverviewController.CustomViewWindows | src/controllers/EventsOverviewPageController.php:197-207 | without a second date the view is never range and the window fits it: one day for today and day, today's Sunday-to-Saturday week, a whole month, each classified back into its view |
| OverviewController.MonthWindowFits | src/controllers/EventsOverviewPageController.php:272-281 | the month window runs from a first of the month to that month's last day |
| OverviewController.JumpLinks | src/controllers/EventsOverviewPageController.php:148-161 | links exist exactly for the views that have jump links |
| OverviewController.MonthJumpLinks | src/controllers/EventsOverviewPageController.php:405-415 | from a month, the links open the whole previous and next months, classified as months |
| OverviewController.WeekJumpLinks | src/controllers/EventsOverviewPageController.php:422-432 | from a week, the links open the weeks seven days before and after, classified as weeks |
| OverviewController.DayJumpLinks | src/controllers/EventsOverviewPageController.php:439-459 | the day and today links are the same and open the days before and after |
| OverviewController.MonthKeyOpensMonth | src/controllers/EventsOverviewPageController.php:488 | each key of a four-digit year selects the month view and reads as the first of its month |
| OverviewController.MonthKeysDistinct | src/controllers/EventsOverviewPageController.php:483-492 | keys of different months differ |
| OverviewController.EventsOverviewController.constructor | src/controllers/EventsOverviewPageController.php:43 | the view starts as default with no window |
| OverviewController.EventsOverviewController.SetDefaultView | src/controllers/EventsOverviewPageController.php:261-265 | the window runs from today to the default number of months on; the view is untouched |
| OverviewController.EventsOverviewController.SetMonthView | src/controllers/EventsOverviewPageController.php:272-281 | sets the month window of the parameter, or of today for 'month' |
| OverviewController.EventsOverviewController.SetWeekView | src/controllers/EventsOverviewPageController.php:288-293 | sets today's Sunday-to-Saturday week |
| OverviewController.EventsOverviewController.SetTodayView | src/controllers/EventsOverviewPageController.php:300-305 | sets today as a one-day window |
| OverviewController.EventsOverviewController.SetDayView | src/controllers/EventsOverviewPageController.php:312-317 | sets the given day as a one-day window |
| OverviewController.EventsOverviewController.SetRangeView | src/controllers/EventsOverviewPageController.php:325-330 | sets the two dates and classifies the window |
| OverviewController.EventsOverviewController.SetRangeViewType | src/controllers/EventsOverviewPageController.php:335-348 | keeps the window and sets its classification |
| OverviewController.EventsOverviewController.SetCustomView | src/controllers/EventsOverviewPageController.php:197-207 | the view and window are those of the request's parameters |
| OverviewController.EventsOverviewController.HasJumpLinksNow | src/controllers/EventsOverviewPageController.php:500-503 | the controller has jump links exactly when its view is neither default nor range |
| OverviewController.EventsOverviewController.EventJumpLinks | src/controllers/EventsOverviewPageController.php:148-161 | links exist exactly when the current view has jump links |
| OverviewController.EventsOverviewController.BuildMonthOptions | src/controllers/EventsOverviewPageController.php:477-495 | four years from last year to two years on, each with its twelve month keys in order |
| LookupTables.Normalised | src/models/RecurringDayOfWeek.php:38-50 | a table keeps its records exactly when it has the expected count; otherwise it holds the default records |
| LookupTables.NormalisedIdempotent | src/models/RecurringDayOfWeek.php:38-50 | building the tables again changes nothing |
| LookupTables.Listed | src/models/RecurringDayOfWeek.php:21 | the listing is a reordering of the records in ascending value |
| LookupTables.ListedDefaults | src/models/RecurringDayOfMonth.php:27 | the default records, and any re-seeded table, are listed first to last value |
| LookupTables.AppendDefaults | src/models/RecurringDayOfWeek.php:30-37 | the loop appends the values first to first + count - 1 in order after the existing records |
| LookupTables.RequireDefaults | src/models/RecurringDayOfWeek.php:38-50 | the table becomes its normalised form: seeded when empty, emptied and seeded when its count is wrong, left alone otherwise |
| LookupTables.RecurringDayOfWeek.CreateDefaultRecords | src/models/RecurringDayOfWeek.php:30-37 | appends the records 0..6 in order |
| LookupTables.RecurringDayOfWeek.RequireDefaultRecords | src/models/RecurringDayOfWeek.php:38-50 | an empty table is seeded, one without exactly 7 records is emptied and seeded, one with 7 is left alone |
| LookupTables.RecurringDayOfMonth.CreateDefaultRecords | src/models/RecurringDayOfMonth.php:29-37 | appends the records 1..31 in order |
| LookupTables.RecurringDayOfMonth.RequireDefaultRecords | src/models/RecurringDayOfMonth.php:39-51 | an empty table is seeded, one without exactly 31 records is emptied and seeded, one with 31 is left alone |
| OverviewScenarios.StartWeekdayEveryNWeeks | src/helpers/RecursionReader.php:82-86 | a weekly event allowed only on its start's weekday occurs exactly on the non-exception days a whole number of 7n-day steps from the start |
| OverviewScenarios.ListedDaysEveryMonth | src/helpers/RecursionReader.php:88-94 | a monthly event with interval 1 and chosen days of the month occurs exactly on the non-exception days from the start whose day is chosen |
| OverviewScenarios.WeeklyTestList | tests/pagetypes/EventsOverviewPageTest.php:42-57 | a one-row event every two weeks on Friday from 2018-11-02 lists 2018-11-02, 11-16, 11-30, 12-14 and 12-28 over November and December 2018 |
| OverviewScenarios.WeeklyExceptionTestList | tests/pagetypes/EventsOverviewPageTest.php:125-142 | the same event with the exception 2018-11-16 lists 2018-11-02, 11-30, 12-14 and 12-28 |
| OverviewScenarios.MonthlyTestList | tests/pagetypes/EventsOverviewPageTest.php:63-77 | a one-row event every month on the 10th and 15th from 2018-11-10 lists 2018-11-10, 11-15, 12-10 and 12-15 |
| OverviewScenarios.MonthlyExceptionTestList | tests/pagetypes/EventsOverviewPageTest.php:147-163 | the same event with the exception 2018-12-10 lists 2018-11-10, 11-15 and 12-15 |

## Left out

- Database access: the queries of `getStandardEvents` and `getRecurringEvents` (src/pagetypes/EventsOverviewPage.php:80-125). The standard rows and the recurring events are inputs, with an event's rows in stored order.
- The keyword and taxonomy filters (src/pagetypes/EventsOverviewPage.php:217-228, 259-268). They depend on page titles, descriptions and relations outside the recurrence model. The model applies no keyword and no region or type filter.
- Titles, labels, headers, link rendering and forms: `getTitle` (`strftime`), `_t` texts, `getCMSFields`, `MonthJumpForm`, the template data of `getEventJumpLinks` and the labels of `buildMonthOptions`. They do not affect which dates are produced.
- `newRecursionDateTime` also copies the event's title; titles are not part of the model.
- The sfDate date library is not part of this model. `Calendar` states the behaviour assumed of it:
  - month steps clamp to the target month's length;
  - `nextDay(w)` and `previousDay(w)` move strictly forward or back;
  - weeks begin on Sunday.
- Time zones and daylight saving: timestamps are taken as days of one UTC calendar, so the daily rule's division by the seconds of a day is exact. `strtotime(x) > 0` is read as "the date is after 1970-01-01" (`Calendar.AfterEpoch`).
- Weekly and monthly intervals of 0: PHP's `%` by zero throws, so `EventRecords.IntervalsUsable` is a precondition of the reader. It also excludes negative weekly and monthly intervals, although the stored fields are plain integers (src/pagetypes/EventsPage.php:38-46). The editing form offers only 1..10 (src/pagetypes/EventsPage.php:108-123).
- `MonthlyDayOfWeek` is a `Calendar.Weekday` (0..6), although the stored field is a plain integer that may also be empty. The editing form offers only the weekday records 0..6 (src/pagetypes/EventsPage.php:137).
- A missing start time is not represented: `startTime` is a second of the day. The source's `StartTime` may be null (src/models/EventDateTime.php:26), and the sort at src/pagetypes/EventsOverviewPage.php:69-72 then places such a row before one at 00:00:00 on the same day. The model can only tie them.
- EventsPageLookups.Expired: models `strtotime(null) < time()` as written, so a first row without a last start date counts as expired.
- OverviewController.ParseDate: reads only a well-formed date that exists. The library's lenient parsing (other formats, a day past the month's end rolling over) is not modelled, and such a parameter leaves the window unset. The range view then stays `Range` where the code would read the rolled-over date.
- OverviewController.EventsOverviewController.BuildMonthOptions: the map from year to keys is a sequence in year order. The option labels are not modelled.
- LookupTables.Listed: rows with equal values may come out in any order in the source. The model fixes one order, but both are sorted permutations.
- Lookup-table records are their values; record IDs and the many-many relation to events are not modelled.
- The test fixture file (tests/pagetypes/fixtures/EventsOverviewPageTest.yml) is not part of this model. The weekly and monthly-by-day tests, each with and without its exception, are restated for an event with one row whose last start date does not fall inside the window. The daily tests and the monthly-by-weekday test depend on fixture values (last start dates, exception dates, weekday index) that are not known, so they are not restated.
- `EventsPageController` only wraps a request variable, and the client-side JavaScript handles form fields only.

## Findings

| source | as written | input that shows it | evidently intended | confidence | as-written member | corrected member |
|---|---|---|---|---|---|---|
| src/pagetypes/EventsOverviewPage.php:140, 146-171 | `$date_counter`, the lower bound that `dateFilter` receives, is reassigned by each row's scan. `reset()` only returns it to the date it was created at, which is the row's own start date when that is later than the window start. The next recurring event's rows are then filtered against that date. | Window 2018-11-01 to 2018-12-31. Daily event A has one row starting 2018-12-01. Daily event B follows it, with one row from 2018-11-01 with last start 2018-11-20. Listed after A, B produces nothing, though it occurs on 2018-11-01. | Every event's rows are filtered against the window start. | not executed | CarriedLowerBound.AllOccurrencesAsWritten, CarriedLowerBound.DateCounterLeaks | EventsOverview.AllOccurrences, EventsOverview.AllOccurrencesMembers, EventsOverview.AddRecurringEvents |
