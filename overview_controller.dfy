/** The request handling of an events overview page
    (src/controllers/EventsOverviewPageController.php): reading the date
    parameters of the `show` action into a view type and a date window, the
    jump links to the neighbouring window, and the month choices of the jump
    form. The date a request is handled on ("today") is a parameter. */
module OverviewController {
  import opened Wrappers
  import opened Calendar

  // ---------------------------------------------------------------------
  // Strings of digits

  predicate IsDigit(c: char) {
    '0' <= c <= '9'
  }

  predicate DigitsAt(s: string, lo: int, hi: int)
    requires 0 <= lo <= hi <= |s|
  {
    forall i :: lo <= i < hi ==> IsDigit(s[i])
  }

  function DigitChar(n: int): char
    requires 0 <= n <= 9
  {
    ('0' as int + n) as char
  }

  /** The value of a string of decimal digits. */
  function Number(s: string): nat
    requires DigitsAt(s, 0, |s|)
  {
    if s == [] then 0 else Number(s[..|s| - 1]) * 10 + (s[|s| - 1] as int - '0' as int)
  }

  /** The decimal digits of `n`, without leading zeros: PHP's integer to
      string conversion. */
  function Decimal(n: nat): (r: string)
    ensures |r| >= 1 && DigitsAt(r, 0, |r|)
    ensures Number(r) == n
  {
    if n < 10 then [DigitChar(n)]
    else
      var r := Decimal(n / 10) + [DigitChar(n % 10)];
      assert r[..|r| - 1] == Decimal(n / 10);
      r
  }

  /** A number of 1..99 with a leading zero below 10: `str_pad($m, 2, '0', STR_PAD_LEFT)`. */
  function TwoDigits(n: int): (r: string)
    requires 1 <= n <= 99
    ensures |r| == 2 && DigitsAt(r, 0, 2) && Number(r) == n
  {
    var r := [DigitChar(n / 10), DigitChar(n % 10)];
    assert r[..1] == [DigitChar(n / 10)];
    assert Number(r[..1]) == n / 10 by { assert r[..1][..0] == []; }
    r
  }

  lemma FourDigitDecimal(n: nat)
    requires 1000 <= n <= 9999
    ensures |Decimal(n)| == 4
  {
    assert (n / 10) / 10 == n / 100 && (n / 100) / 10 == n / 1000;
    assert |Decimal(n / 1000)| == 1;
    assert |Decimal(n / 100)| == 2;
    assert |Decimal(n / 10)| == 3;
  }

  // ---------------------------------------------------------------------
  // dateMask and getViewType

  /** `dateMask`: every digit replaced by 'x'. */
  function DateMask(s: string): (r: string)
    ensures |r| == |s|
    ensures forall i :: 0 <= i < |s| ==> r[i] == if IsDigit(s[i]) then 'x' else s[i]
  {
    if s == [] then [] else [if IsDigit(s[0]) then 'x' else s[0]] + DateMask(s[1..])
  }

  /** A mask has no digits, so masking it again changes nothing. */
  lemma DateMaskIdempotent(s: string)
    ensures forall i :: 0 <= i < |s| ==> !IsDigit(DateMask(s)[i])
    ensures DateMask(DateMask(s)) == DateMask(s)
  {
  }

  /** A string without digits is its own mask. */
  lemma DigitFreeIsOwnMask(s: string)
    requires forall i :: 0 <= i < |s| ==> !IsDigit(s[i])
    ensures DateMask(s) == s
  {
  }

  /** The views of the overview page. */
  datatype View = Default | Today | Week | Month | Day | Range

  /** The mask of a 'YYYY-MM' parameter: "xxxx-xx". */
  function MonthMask(): (r: string)
    ensures |r| == 7 && forall i :: 0 <= i < 7 ==> r[i] == if i == 4 then '-' else 'x'
  {
    seq(7, i => if i == 4 then '-' else 'x')
  }

  /** The mask of a 'YYYY-MM-DD' parameter: "xxxx-xx-xx". */
  function DayMask(): (r: string)
    ensures |r| == 10 && forall i :: 0 <= i < 10 ==> r[i] == if i == 4 || i == 7 then '-' else 'x'
  {
    seq(10, i => if i == 4 || i == 7 then '-' else 'x')
  }

  /** `$viewTypeMap`: the first parameter of `show`, or its mask, to a view. */
  const ViewTypeMap: map<string, View> :=
    map["today" := Today, "week" := Week, "month" := Week, MonthMask() := Month, DayMask() := Day]

  /** `getViewType`: the view of an exact key, else the view of the mask,
      else `default`. A missing parameter is the empty string. */
  function GetViewType(index: string, default: View): (r: View)
    ensures r == default || r in {Today, Week, Month, Day}
  {
    if index in ViewTypeMap then ViewTypeMap[index]
    else if DateMask(index) in ViewTypeMap then ViewTypeMap[DateMask(index)]
    else default
  }

  /** No key of the map holds a digit, so each key is its own mask and the
      exact-key lookup never disagrees with the mask lookup: the view is the
      one of the mask, or the default when the mask is no key. */
  lemma ViewTypeByMask(index: string, default: View)
    ensures GetViewType(index, default)
         == if DateMask(index) in ViewTypeMap then ViewTypeMap[DateMask(index)] else default
  {
    if index in ViewTypeMap {
      assert index == "today" || index == "week" || index == "month" || index == MonthMask() || index == DayMask();
      DigitFreeIsOwnMask(index);
    }
  }

  /** The keyword parameters; note that 'month' shows this week. */
  lemma ViewTypeKeywords(default: View)
    ensures GetViewType("today", default) == Today
    ensures GetViewType("week", default) == Week
    ensures GetViewType("month", default) == Week
    ensures GetViewType("", default) == default
  {
    assert "" !in ViewTypeMap;
    assert DateMask("") == "";
  }

  /** 'YYYY-MM' shows a month and 'YYYY-MM-DD' a day. */
  lemma ViewTypeOfDates(s: string, default: View)
    ensures MonthShape(s) ==> GetViewType(s, default) == Month
    ensures FullDateShape(s) ==> GetViewType(s, default) == Day
  {
    if MonthShape(s) {
      assert DateMask(s) == MonthMask();
      assert s !in ViewTypeMap by { assert s[0] != 'x' && s[0] != 't' && s[0] != 'w' && s[0] != 'm'; }
    }
    if FullDateShape(s) {
      assert DateMask(s) == DayMask();
      assert s !in ViewTypeMap by { assert s[0] != 'x' && s[0] != 't' && s[0] != 'w' && s[0] != 'm'; }
    }
  }

  // ---------------------------------------------------------------------
  // validateFullDate and reading a date

  /** Four digits, '-', two digits. */
  predicate MonthShape(s: string) {
    |s| == 7 && DigitsAt(s, 0, 4) && s[4] == '-' && DigitsAt(s, 5, 7)
  }

  /** Four digits, '-', two digits, '-', two digits. */
  predicate FullDateShape(s: string) {
    |s| == 10 && DigitsAt(s, 0, 4) && s[4] == '-' && DigitsAt(s, 5, 7) && s[7] == '-' && DigitsAt(s, 8, 10)
  }

  /** `validateFullDate`: `/^[0-9]{4}-[0-9]{2}-[0-9]{2}$/`, where `$` also
      matches before one final newline. */
  predicate ValidateFullDate(s: string)
    ensures ValidateFullDate(s) ==>
      |s| >= 10 && DateMask(s[..10]) == DayMask() && (|s| == 10 || s[10..] == "\n")
  {
    if FullDateShape(s) then
      assert s[..10] == s;
      FullDateMask(s);
      true
    else if |s| == 11 && s[10] == '\n' && FullDateShape(s[..10]) then
      FullDateMask(s[..10]);
      true
    else false
  }

  /** A full date masks to the day key. */
  lemma FullDateMask(t: string)
    requires FullDateShape(t)
    ensures DateMask(t) == DayMask()
  {
    var m := DateMask(t);
    forall i | 0 <= i < 10
      ensures m[i] == DayMask()[i]
    {
      if i != 4 && i != 7 {
        assert IsDigit(t[i]);
      }
    }
  }

  /** A string without the letter 'x' that masks to the day key is a full date. */
  lemma MaskedFullDate(t: string)
    requires forall i :: 0 <= i < |t| ==> t[i] != 'x'
    requires DateMask(t) == DayMask()
    ensures FullDateShape(t)
  {
    var m := DateMask(t);
    forall i | 0 <= i < 10 && i != 4 && i != 7
      ensures IsDigit(t[i])
    {
      assert m[i] == 'x';
    }
    assert m[4] == '-' && m[7] == '-';
  }

  lemma DateMaskPrefix(s: string, k: nat)
    requires k <= |s|
    ensures DateMask(s)[..k] == DateMask(s[..k])
  {
  }

  /** A validated date masks to the day key (with the newline kept), and a
      string without the letter 'x' masks to it only if it validates. */
  lemma ValidatedDateMask(s: string)
    ensures ValidateFullDate(s) ==> DateMask(s) == DayMask() || DateMask(s) == DayMask() + "\n"
    ensures (forall i :: 0 <= i < |s| ==> s[i] != 'x') && (DateMask(s) == DayMask() || DateMask(s) == DayMask() + "\n")
            ==> ValidateFullDate(s)
  {
    if |s| == 10 {
      if FullDateShape(s) {
        FullDateMask(s);
      }
      if (forall i :: 0 <= i < |s| ==> s[i] != 'x') && DateMask(s) == DayMask() {
        MaskedFullDate(s);
      }
    } else if |s| == 11 {
      DateMaskPrefix(s, 10);
      var t := s[..10];
      if s[10] == '\n' && FullDateShape(t) {
        FullDateMask(t);
        assert DateMask(s) == DateMask(s)[..10] + [DateMask(s)[10]];
      }
      if (forall i :: 0 <= i < |s| ==> s[i] != 'x') && DateMask(s) == DayMask() + "\n" {
        assert DateMask(t) == DayMask();
        MaskedFullDate(t);
        assert s[10] == '\n';
      }
    }
  }

  /** A validated date with the trailing newline is no key once masked, so
      as a first parameter it selects the default view. */
  lemma NewlineDateGivesDefault(s: string, default: View)
    requires |s| == 11 && s[10] == '\n' && FullDateShape(s[..10])
    ensures GetViewType(s, default) == default
  {
    DateMaskPrefix(s, 10);
    FullDateMask(s[..10]);
    assert DateMask(s) == DateMask(s)[..10] + [DateMask(s)[10]];
    ViewTypeByMask(s, default);
  }

  /** The library reading a 'YYYY-MM-DD' parameter (a final newline
      ignored): the date it names when that date exists. */
  function ParseDate(s: string): (r: Option<Date>)
    ensures r.Some? ==> ValidateFullDate(s)
  {
    var t := if |s| == 11 && s[10] == '\n' then s[..10] else s;
    if !FullDateShape(t) then None
    else
      var c := CivilDate(Number(t[..4]), Number(t[5..7]), Number(t[8..10]));
      if ValidCivil(c) then Some(c) else None
  }

  // ---------------------------------------------------------------------
  // setRangeViewType

  /** `setRangeViewType` for a window with both ends: the day view for a
      single day, else the week view for start's Sunday to Saturday, else the
      month view for start's whole month, else the range view. */
  function RangeViewType(startDate: Date, endDate: Date): (r: View)
    ensures r != Today && r != Default
    ensures r == Day <==> startDate == endDate
    ensures r == Week ==> WeekdayOf(startDate) == 0 && Ordinal(endDate) == Ordinal(startDate) + 6
    ensures r == Month ==>
      startDate.day == 1 && endDate.year == startDate.year && endDate.month == startDate.month
      && endDate.day == DaysInMonth(startDate.year, startDate.month)
    ensures startDate != endDate && WeekdayOf(startDate) == 0 && Ordinal(endDate) == Ordinal(startDate) + 6 ==> r == Week
    ensures startDate.day == 1 && endDate == FinalDayOfMonth(startDate) ==> r == Month
  {
    SundayWindow(startDate, endDate);
    if startDate == endDate then Day
    else if startDate == FirstDayOfWeek(startDate) && endDate == FinalDayOfWeek(startDate) then Week
    else if startDate == FirstDayOfMonth(startDate) && endDate == FinalDayOfMonth(startDate) then Month
    else Range
  }

  /** A window from a Sunday to the Saturday six days on is that Sunday's week. */
  lemma SundayWindow(a: Date, b: Date)
    ensures WeekdayOf(a) == 0 && Ordinal(b) == Ordinal(a) + 6 ==> a == FirstDayOfWeek(a) && b == FinalDayOfWeek(a)
  {
    if WeekdayOf(a) == 0 && Ordinal(b) == Ordinal(a) + 6 {
      SameWeekdayWithinWeek(FirstDayOfWeek(a), a);
      OrdinalInjective(b, FinalDayOfWeek(a));
    }
  }

  lemma FirstDayOfWeekFixed(d: Date)
    ensures FirstDayOfWeek(FirstDayOfWeek(d)) == FirstDayOfWeek(d)
    ensures FinalDayOfWeek(FirstDayOfWeek(d)) == FinalDayOfWeek(d)
  {
    var f := FirstDayOfWeek(d);
    SameWeekdayWithinWeek(FirstDayOfWeek(f), f);
    OrdinalInjective(FinalDayOfWeek(f), FinalDayOfWeek(d));
  }

  /** The windows the single-date views set are classified back into their
      own views: one day is a day, a Sunday-to-Saturday week a week and a
      whole month a month. */
  lemma ViewWindowsClassify(d: Date)
    ensures RangeViewType(d, d) == Day
    ensures RangeViewType(FirstDayOfWeek(d), FinalDayOfWeek(d)) == Week
    ensures RangeViewType(FirstDayOfMonth(d), FinalDayOfMonth(d)) == Month
  {
    FirstDayOfWeekFixed(d);
    var f := FirstDayOfMonth(d);
    assert FirstDayOfMonth(f) == f && FinalDayOfMonth(f) == FinalDayOfMonth(d);
    assert Ordinal(FinalDayOfMonth(d)) - Ordinal(f) >= 27;
    assert Ordinal(FinalDayOfWeek(f)) - Ordinal(f) <= 6;
  }

  // ---------------------------------------------------------------------
  // The windows of the views

  /** The view and window a request leaves on the controller. */
  datatype Window = Window(view: View, startDate: Option<Date>, endDate: Option<Date>)

  /** `setRangeView`: the two dates, classified by `setRangeViewType`. A date
      the library cannot read leaves its end unset and the view a range. */
  function RangeWindow(startDate: Option<Date>, endDate: Option<Date>): Window {
    Window(if startDate.Some? && endDate.Some? then RangeViewType(startDate.value, endDate.value) else Range,
           startDate, endDate)
  }

  /** `setMonthView`: the first of the month named by 'YYYY-MM' (this month
      for 'month'), to that month's last day. */
  function MonthWindow(date: string, today: Date): Window {
    var first := if date == "month" then Some(FirstDayOfMonth(today)) else ParseDate(date + "-01");
    Window(Month, first, if first.Some? then Some(FinalDayOfMonth(first.value)) else None)
  }

  /** `setCustomView`: a valid second date selects the range view; otherwise
      the first parameter's view type picks the window setter. */
  function CustomView(date: string, otherDate: string, today: Date, defaultFutureMonths: int): Window {
    if otherDate != "" && ValidateFullDate(otherDate) then RangeWindow(ParseDate(date), ParseDate(otherDate))
    else match GetViewType(date, Default)
      case Default => Window(Default, Some(today), Some(AddMonths(today, defaultFutureMonths)))
      case Today => Window(Today, Some(today), Some(today))
      case Week => Window(Week, Some(FirstDayOfWeek(today)), Some(FinalDayOfWeek(today)))
      case Month => MonthWindow(date, today)
      case Day => Window(Day, ParseDate(date), ParseDate(date))
      case Range => Window(Range, None, None)
  }

  /** A valid second date forces the range setter whatever the first
      parameter is: the window runs between the two dates read, and its
      view is their classification, never today or the default. */
  lemma SecondDateForcesRange(date: string, otherDate: string, today: Date, months: int)
    requires ValidateFullDate(otherDate)
    ensures CustomView(date, otherDate, today, months) == RangeWindow(ParseDate(date), ParseDate(otherDate))
    ensures CustomView(date, otherDate, today, months).view != Today
    ensures CustomView(date, otherDate, today, months).view != Default
  {
    assert |otherDate| >= 10;
  }

  /** The window `w` fits its view: today and a day are one day, a week runs
      Sunday to Saturday around today, a month from its first to its last
      day; and each window with both ends is classified back into its own
      view (today as a day). */
  predicate FitsView(w: Window, today: Date) {
    w.view != Range
    && (w.view == Today || w.view == Day ==> w.startDate == w.endDate)
    && (w.view == Today ==> w.startDate == Some(today))
    && (w.view == Week ==>
          w.startDate.Some? && w.endDate.Some?
          && WeekdayOf(w.startDate.value) == 0 && Ordinal(w.endDate.value) == Ordinal(w.startDate.value) + 6
          && Ordinal(w.startDate.value) <= Ordinal(today) <= Ordinal(w.endDate.value))
    && (w.view == Month && w.startDate.Some? ==>
          w.endDate.Some? && w.startDate.value.day == 1 && w.endDate.value == FinalDayOfMonth(w.startDate.value))
    && (w.startDate.Some? && w.endDate.Some? && w.view != Default ==>
          RangeViewType(w.startDate.value, w.endDate.value) == if w.view == Today then Day else w.view)
  }

  lemma WeekWindowFits(today: Date)
    ensures FitsView(Window(Week, Some(FirstDayOfWeek(today)), Some(FinalDayOfWeek(today))), today)
  {
    ViewWindowsClassify(today);
  }

  /** What the month view reads from 'YYYY-MM' + '-01' is a first of a month. */
  lemma ParsedMonthStart(date: string)
    ensures ParseDate(date + "-01").Some? ==> ParseDate(date + "-01").value.day == 1
  {
    var s := date + "-01";
    if ParseDate(s).Some? {
      assert s[|s| - 1] == '1';
      assert |s| == 10;
      assert s[8..10] == "01";
      assert Number("01") == 1 by { assert "01"[..1] == "0"; }
    }
  }

  lemma MonthWindowFits(date: string, today: Date)
    ensures FitsView(MonthWindow(date, today), today)
  {
    var w := MonthWindow(date, today);
    ParsedMonthStart(date);
    if w.startDate.Some? {
      var f := w.startDate.value;
      ViewWindowsClassify(f);
      assert FirstDayOfMonth(f) == f;
    }
  }

  lemma DayWindowFits(d: Option<Date>, view: View, today: Date)
    requires view == Day || (view == Today && d == Some(today))
    ensures FitsView(Window(view, d, d), today)
  {
    if d.Some? {
      ViewWindowsClassify(d.value);
    }
  }

  /** Without a valid second date, the window set fits the view selected. */
  lemma CustomViewWindows(date: string, otherDate: string, today: Date, months: int)
    requires !(otherDate != "" && ValidateFullDate(otherDate))
    ensures FitsView(CustomView(date, otherDate, today, months), today)
  {
    match GetViewType(date, Default)
    case Default =>
    case Today => DayWindowFits(Some(today), Today, today);
    case Week => WeekWindowFits(today);
    case Month => MonthWindowFits(date, today);
    case Day => DayWindowFits(ParseDate(date), Day, today);
  }

  // ---------------------------------------------------------------------
  // Jump links

  /** `hasJumpLinks` */
  predicate HasJumpLinks(view: View) {
    view == Day || view == Week || view == Month || view == Today
  }

  /** The window a jump link shows: a day, or a range to `to`. */
  datatype JumpLink = JumpLink(from: Date, to: Option<Date>)

  /** `getEventJumpLinks`: the previous and next link of a view that has
      them. */
  function JumpLinks(view: View, startDate: Date): (r: Option<(JumpLink, JumpLink)>)
    ensures r.Some? <==> HasJumpLinks(view)
  {
    match view
    case Month =>
      var prev, next := AddMonths(startDate, -1), AddMonths(startDate, 1);
      Some((JumpLink(prev, Some(FinalDayOfMonth(prev))), JumpLink(next, Some(FinalDayOfMonth(next)))))
    case Week =>
      var prev, next := AddDays(startDate, -7), AddDays(startDate, 7);
      Some((JumpLink(prev, Some(FinalDayOfWeek(prev))), JumpLink(next, Some(FinalDayOfWeek(next)))))
    case Day => Some((JumpLink(AddDays(startDate, -1), None), JumpLink(AddDays(startDate, 1), None)))
    case Today => Some((JumpLink(AddDays(startDate, -1), None), JumpLink(AddDays(startDate, 1), None)))
    case _ => None
  }

  /** From a month view the links open the whole previous and next months,
      which are classified as months again. */
  lemma MonthJumpLinks(startDate: Date)
    requires startDate.day == 1
    ensures var (prev, next) := JumpLinks(Month, startDate).value;
      MonthNumber(prev.from) == MonthNumber(startDate) - 1 && prev.from.day == 1
      && MonthNumber(next.from) == MonthNumber(startDate) + 1 && next.from.day == 1
      && RangeViewType(prev.from, prev.to.value) == Month && RangeViewType(next.from, next.to.value) == Month
  {
    var (prev, next) := JumpLinks(Month, startDate).value;
    ViewWindowsClassify(prev.from);
    ViewWindowsClassify(next.from);
    assert FirstDayOfMonth(prev.from) == prev.from;
    assert FirstDayOfMonth(next.from) == next.from;
  }

  /** A Sunday's week is classified as a week. */
  lemma SundayWeek(d: Date)
    requires WeekdayOf(d) == 0
    ensures RangeViewType(d, FinalDayOfWeek(d)) == Week
  {
    SameWeekdayWithinWeek(FirstDayOfWeek(d), d);
    ViewWindowsClassify(d);
  }

  /** Days a week apart fall on the same weekday. */
  lemma WeekApart(d: Date, e: Date)
    requires Ordinal(e) == Ordinal(d) + 7
    ensures WeekdayOf(e) == WeekdayOf(d)
  {
    var x := Ordinal(d) + 1;
    assert (x + 7) % 7 == x % 7;
  }

  /** From a week view the links open the weeks before and after, which are
      classified as weeks again. */
  lemma WeekJumpLinks(startDate: Date)
    requires WeekdayOf(startDate) == 0
    ensures var (prev, next) := JumpLinks(Week, startDate).value;
      Ordinal(prev.from) == Ordinal(startDate) - 7 && Ordinal(next.from) == Ordinal(startDate) + 7
      && RangeViewType(prev.from, prev.to.value) == Week && RangeViewType(next.from, next.to.value) == Week
  {
    var prev, next := AddDays(startDate, -7), AddDays(startDate, 7);
    WeekApart(prev, startDate);
    WeekApart(startDate, next);
    SundayWeek(prev);
    SundayWeek(next);
  }

  /** Day and today links open the single days before and after. */
  lemma DayJumpLinks(startDate: Date)
    ensures JumpLinks(Today, startDate) == JumpLinks(Day, startDate)
    ensures var (prev, next) := JumpLinks(Day, startDate).value;
      Ordinal(prev.from) == Ordinal(startDate) - 1 && Ordinal(next.from) == Ordinal(startDate) + 1
      && prev.to.None? && next.to.None?
  {
  }

  // ---------------------------------------------------------------------
  // buildMonthOptions

  /** The choices of one year in the month jump form. */
  datatype YearOptions = YearOptions(year: int, keys: seq<string>)

  /** A year as PHP prints an integer. */
  function YearText(y: int): string {
    if y < 0 then "-" + Decimal(-y) else Decimal(y)
  }

  /** The key of a month choice: 'YYYY-MM'. */
  function MonthKey(year: int, month: int): string
    requires 1 <= month <= 12
  {
    YearText(year) + "-" + TwoDigits(month)
  }

  /** The keys of one year, January to December. */
  function MonthKeys(year: int): (r: seq<string>)
    ensures |r| == 12
  {
    seq(12, i requires 0 <= i < 12 => MonthKey(year, i + 1))
  }

  /** Every key of a four-digit year selects the month view, and the first
      of that month is the date the month view reads from it. */
  lemma MonthKeyOpensMonth(year: int, month: int)
    requires 1000 <= year <= 9999 && 1 <= month <= 12
    ensures MonthShape(MonthKey(year, month))
    ensures GetViewType(MonthKey(year, month), Default) == Month
    ensures ParseDate(MonthKey(year, month) + "-01") == Some(CivilDate(year, month, 1))
  {
    FourDigitDecimal(year);
    var k := MonthKey(year, month);
    ViewTypeOfDates(k, Default);
    var t := k + "-01";
    assert t[..4] == Decimal(year) && t[5..7] == TwoDigits(month);
    assert t[8..10] == "01";
    assert Number("01") == 1 by { assert "01"[..1] == "0"; }
  }

  /** Keys of different months are different. */
  lemma MonthKeysDistinct(y1: int, m1: int, y2: int, m2: int)
    requires 1000 <= y1 <= 9999 && 1 <= m1 <= 12 && 1000 <= y2 <= 9999 && 1 <= m2 <= 12
    requires (y1, m1) != (y2, m2)
    ensures MonthKey(y1, m1) != MonthKey(y2, m2)
  {
    MonthKeyOpensMonth(y1, m1);
    MonthKeyOpensMonth(y2, m2);
  }

  // ---------------------------------------------------------------------
  // The controller

  class EventsOverviewController {
    var startDate: Option<Date>
    var endDate: Option<Date>
    var view: View

    constructor ()
      ensures startDate == None && endDate == None && view == Default
    {
      startDate, endDate, view := None, None, Default;
    }

    /** `setDefaultView`: from today, `DefaultFutureMonths` months on. */
    method SetDefaultView(today: Date, defaultFutureMonths: int)
      modifies this
      ensures startDate == Some(today) && endDate == Some(AddMonths(today, defaultFutureMonths))
      ensures view == old(view)
    {
      startDate := Some(today);
      endDate := Some(AddMonths(today, defaultFutureMonths));
    }

    /** `setMonthView` */
    method SetMonthView(date: string, today: Date)
      modifies this
      ensures Window(view, startDate, endDate) == MonthWindow(date, today)
    {
      if date == "month" {
        startDate := Some(FirstDayOfMonth(today));
      } else {
        startDate := ParseDate(date + "-01");
      }
      endDate := if startDate.Some? then Some(FinalDayOfMonth(startDate.value)) else None;
      view := Month;
    }

    /** `setWeekView`: this week, Sunday to Saturday. */
    method SetWeekView(today: Date)
      modifies this
      ensures startDate == Some(FirstDayOfWeek(today)) && endDate == Some(FinalDayOfWeek(today)) && view == Week
    {
      startDate := Some(FirstDayOfWeek(today));
      endDate := Some(FinalDayOfWeek(today));
      view := Week;
    }

    /** `setTodayView` */
    method SetTodayView(today: Date)
      modifies this
      ensures startDate == Some(today) && endDate == Some(today) && view == Today
    {
      startDate := Some(today);
      endDate := Some(today);
      view := Today;
    }

    /** `setDayView` */
    method SetDayView(date: string)
      modifies this
      ensures startDate == ParseDate(date) && endDate == ParseDate(date) && view == Day
    {
      startDate := ParseDate(date);
      endDate := ParseDate(date);
      view := Day;
    }

    /** `setRangeView` */
    method SetRangeView(date: string, otherDate: string)
      modifies this
      ensures Window(view, startDate, endDate) == RangeWindow(ParseDate(date), ParseDate(otherDate))
    {
      startDate := ParseDate(date);
      endDate := ParseDate(otherDate);
      SetRangeViewType();
    }

    /** `setRangeViewType` */
    method SetRangeViewType()
      modifies this
      ensures startDate == old(startDate) && endDate == old(endDate)
      ensures view == RangeWindow(startDate, endDate).view
    {
      if startDate.None? || endDate.None? {
        view := Range;
      } else if startDate.value == endDate.value {
        view := Day;
      } else if startDate.value == FirstDayOfWeek(startDate.value) && endDate.value == FinalDayOfWeek(startDate.value) {
        view := Week;
      } else if startDate.value == FirstDayOfMonth(startDate.value) && endDate.value == FinalDayOfMonth(startDate.value) {
        view := Month;
      } else {
        view := Range;
      }
    }

    /** `setCustomView`: the `show` action's parameters `ID` and `OtherID`. */
    method SetCustomView(date: string, otherDate: string, today: Date, defaultFutureMonths: int)
      modifies this
      ensures Window(view, startDate, endDate) == CustomView(date, otherDate, today, defaultFutureMonths)
    {
      if otherDate != "" && ValidateFullDate(otherDate) {
        SetRangeView(date, otherDate);
        return;
      }
      view := GetViewType(date, Default);
      match view
      case Default => SetDefaultView(today, defaultFutureMonths);
      case Today => SetTodayView(today);
      case Week => SetWeekView(today);
      case Month => SetMonthView(date, today);
      case Day => SetDayView(date);
      case Range => assert false;
    }

    /** `hasJumpLinks` */
    predicate HasJumpLinksNow()
      reads this
      ensures HasJumpLinksNow() <==> view != Default && view != Range
    {
      HasJumpLinks(view)
    }

    /** `getEventJumpLinks` for a controller whose window has a start. */
    function EventJumpLinks(): (r: Option<(JumpLink, JumpLink)>)
      reads this
      requires startDate.Some?
      ensures r.Some? <==> HasJumpLinksNow()
    {
      JumpLinks(view, startDate.value)
    }

    /** `buildMonthOptions`: the years from last year to two years on (the
        base date is moved back one year, then on three), each with its
        twelve month keys. */
    method BuildMonthOptions(today: Date) returns (options: seq<YearOptions>)
      ensures |options| == 4
      ensures forall i :: 0 <= i < 4 ==>
        options[i] == YearOptions(today.year - 1 + i, MonthKeys(today.year - 1 + i))
    {
      var first := today.year - 1;
      var last := first + 3;
      options := [];
      var year := first;
      while year <= last
        invariant first <= year <= last + 1
        invariant |options| == year - first
        invariant forall i :: 0 <= i < |options| ==> options[i] == YearOptions(first + i, MonthKeys(first + i))
      {
        var keys: seq<string> := [];
        var month := 1;
        while month <= 12
          invariant 1 <= month <= 13
          invariant keys == MonthKeys(year)[..month - 1]
        {
          keys := keys + [MonthKey(year, month)];
          month := month + 1;
        }
        options := options + [YearOptions(year, keys)];
        year := year + 1;
      }
    }
  }
}
