/** `getEventList` of an events overview page (src/pagetypes/EventsOverviewPage.php):
    the standard rows merged with the generated ones and sorted by start
    date, then start time; and the lower bound of `dateFilter` as the code
    carries it from one recurring event to the next. */
module EventListing {
  import opened Wrappers
  import opened Calendar
  import opened EventRecords
  import opened RecursionReading
  import opened EventsOverview

  // ---------------------------------------------------------------------
  // Sorting by (StartDate, StartTime)

  /** Row `a` comes no later than row `b` in the listing order: an earlier
      start date ('YYYY-MM-DD' strings compare as dates), or the same start
      date and no later start time. */
  predicate StartsNoLater(a: EventDateTime, b: EventDateTime) {
    CivilBefore(a.startDate, b.startDate)
    || (a.startDate == b.startDate && a.startTime <= b.startTime)
  }

  /** The listing order is the order of the start dates' day numbers, then of
      the start times. */
  lemma StartsNoLaterByDayNumber(a: EventDateTime, b: EventDateTime)
    ensures StartsNoLater(a, b) <==>
      Ordinal(a.startDate) < Ordinal(b.startDate)
      || (Ordinal(a.startDate) == Ordinal(b.startDate) && a.startTime <= b.startTime)
  {
    if CivilBefore(a.startDate, b.startDate) {
      CivilBeforeOrdinal(a.startDate, b.startDate);
    } else if CivilBefore(b.startDate, a.startDate) {
      CivilBeforeOrdinal(b.startDate, a.startDate);
    } else {
      OrdinalInjective(a.startDate, b.startDate);
    }
  }

  predicate SortedByStart(s: seq<EventDateTime>) {
    forall i, j :: 0 <= i < j < |s| ==> StartsNoLater(s[i], s[j])
  }

  /** `x` put in front of the first row of a sorted list that it comes no later than. */
  function InsertByStart(x: EventDateTime, s: seq<EventDateTime>): (r: seq<EventDateTime>)
    requires SortedByStart(s)
    ensures SortedByStart(r)
    ensures multiset(r) == multiset(s) + multiset{x}
  {
    if s == [] then [x]
    else if StartsNoLater(x, s[0]) then
      assert forall k :: 0 <= k < |s| ==> StartsNoLater(s[0], s[k]);
      [x] + s
    else
      var rest := InsertByStart(x, s[1..]);
      assert multiset(s) == multiset{s[0]} + multiset(s[1..]) by {
        assert s == [s[0]] + s[1..];
      }
      assert forall k :: 0 <= k < |rest| ==> StartsNoLater(s[0], rest[k]) by {
        forall k | 0 <= k < |rest|
          ensures StartsNoLater(s[0], rest[k])
        {
          assert rest[k] in multiset(rest);
          assert rest[k] == x || rest[k] in multiset(s[1..]);
          if rest[k] != x {
            var j :| 0 <= j < |s[1..]| && s[1..][j] == rest[k];
            assert s[j + 1] == rest[k];
          }
        }
      }
      [s[0]] + rest
  }

  /** The `sort(["StartDate" => "ASC", "StartTime" => "ASC"])` of a list: a
      reordering of its rows into listing order. */
  function SortByStart(s: seq<EventDateTime>): (r: seq<EventDateTime>)
    ensures SortedByStart(r)
    ensures multiset(r) == multiset(s)
  {
    if s == [] then []
    else
      assert s == [s[0]] + s[1..];
      InsertByStart(s[0], SortByStart(s[1..]))
  }

  /** The rows of `s` that start at moment (`d`, `t`), in their order in `s`. */
  function AtMoment(s: seq<EventDateTime>, d: Date, t: nat): (r: seq<EventDateTime>)
    ensures forall k :: 0 <= k < |r| ==> r[k] in s && r[k].startDate == d && r[k].startTime == t
    ensures forall x :: x in s && x.startDate == d && x.startTime == t ==> x in r
  {
    if s == [] then []
    else (if s[0].startDate == d && s[0].startTime == t then [s[0]] else []) + AtMoment(s[1..], d, t)
  }

  /** `AtMoment` of a list with a row in front. */
  lemma AtMomentCons(h: EventDateTime, s: seq<EventDateTime>, d: Date, t: nat)
    ensures AtMoment([h] + s, d, t)
         == (if h.startDate == d && h.startTime == t then [h] else []) + AtMoment(s, d, t)
  {
    assert ([h] + s)[1..] == s;
  }

  /** Two prefixes of which one is empty can be swapped. */
  lemma SwapPastEmpty<T>(a: seq<T>, b: seq<T>, c: seq<T>)
    requires a == [] || b == []
    ensures a + (b + c) == b + (a + c)
  {
    if a == [] {
      assert a + (b + c) == b + c;
      assert a + c == c;
    } else {
      assert b + (a + c) == a + c;
      assert b + c == c;
    }
  }

  /** Inserting a row keeps the rows of each moment in order: the new row
      goes before those it ties with. */
  lemma {:induction false} InsertByStartStable(x: EventDateTime, s: seq<EventDateTime>, d: Date, t: nat)
    requires SortedByStart(s)
    ensures AtMoment(InsertByStart(x, s), d, t)
         == (if x.startDate == d && x.startTime == t then [x] else []) + AtMoment(s, d, t)
  {
    if s == [] {
      AtMomentCons(x, [], d, t);
    } else if StartsNoLater(x, s[0]) {
      AtMomentCons(x, s, d, t);
    } else {
      var rest := InsertByStart(x, s[1..]);
      InsertByStartStable(x, s[1..], d, t);
      AtMomentCons(s[0], rest, d, t);
      AtMomentCons(s[0], s[1..], d, t);
      assert s == [s[0]] + s[1..];
      var hx := if x.startDate == d && x.startTime == t then [x] else [];
      var h0 := if s[0].startDate == d && s[0].startTime == t then [s[0]] else [];
      assert hx == [] || h0 == [];
      SwapPastEmpty(h0, hx, AtMoment(s[1..], d, t));
    }
  }

  /** The sort is stable: the rows that start at one moment keep the order
      they had in the input. */
  lemma {:induction false} SortByStartStable(s: seq<EventDateTime>, d: Date, t: nat)
    ensures AtMoment(SortByStart(s), d, t) == AtMoment(s, d, t)
  {
    if s != [] {
      SortByStartStable(s[1..], d, t);
      InsertByStartStable(s[0], SortByStart(s[1..]), d, t);
    }
  }

  /** Two lists whose k-th rows start at the same moment, for every k. */
  predicate SameMoments(a: seq<EventDateTime>, b: seq<EventDateTime>) {
    |a| == |b| && forall k :: 0 <= k < |a| ==> a[k].startDate == b[k].startDate && a[k].startTime == b[k].startTime
  }

  /** A sorted reordering of a list is unique up to rows that start at the
      same moment: the k-th start moment of the listing depends on the rows
      only, not on their original order. */
  lemma {:induction false} SortedStartsAgree(a: seq<EventDateTime>, b: seq<EventDateTime>)
    requires SortedByStart(a) && SortedByStart(b)
    requires multiset(a) == multiset(b)
    ensures SameMoments(a, b)
    decreases |a|
  {
    assert |a| == |multiset(a)| == |multiset(b)| == |b|;
    if a != [] {
      var i := IndexOf(a[0], b);
      var j := IndexOf(b[0], a);
      EarliestHeads(a, b, i, j);
      var rb := RemoveAt(b, i);
      TailAndRemoved(a, b, i);
      SortedRemoveAt(b, i);
      SortedStartsAgree(a[1..], rb);
      RemoveEarliest(b, i);
      SameMomentsCons(a, b, rb);
    }
  }

  lemma TailAndRemoved(a: seq<EventDateTime>, b: seq<EventDateTime>, i: nat)
    requires a != [] && i < |b| && b[i] == a[0] && multiset(a) == multiset(b)
    ensures multiset(a[1..]) == multiset(RemoveAt(b, i))
  {
    assert a == [a[0]] + a[1..];
  }

  /** The first rows of two sorted lists that hold each other's first row
      start at the same moment. */
  lemma EarliestHeads(a: seq<EventDateTime>, b: seq<EventDateTime>, i: nat, j: nat)
    requires SortedByStart(a) && SortedByStart(b)
    requires i < |b| && j < |a| && b[i] == a[0] && a[j] == b[0]
    ensures a[0].startDate == b[0].startDate && a[0].startTime == b[0].startTime
  {
    assert StartsNoLater(a[0], a[j]) || j == 0;
    assert StartsNoLater(b[0], b[i]) || i == 0;
  }

  lemma SameMomentsCons(a: seq<EventDateTime>, b: seq<EventDateTime>, rb: seq<EventDateTime>)
    requires a != [] && b != []
    requires a[0].startDate == b[0].startDate && a[0].startTime == b[0].startTime
    requires SameMoments(a[1..], rb) && SameMoments(rb, b[1..])
    ensures SameMoments(a, b)
  {
    forall k | 0 <= k < |a|
      ensures a[k].startDate == b[k].startDate && a[k].startTime == b[k].startTime
    {
      if k > 0 {
        assert a[k] == a[1..][k - 1] && b[k] == b[1..][k - 1];
      }
    }
  }

  function RemoveAt(s: seq<EventDateTime>, i: nat): (r: seq<EventDateTime>)
    requires i < |s|
    ensures |r| == |s| - 1
    ensures multiset(r) == multiset(s) - multiset{s[i]}
  {
    assert s == s[..i] + [s[i]] + s[i + 1..];
    s[..i] + s[i + 1..]
  }

  lemma SortedRemoveAt(s: seq<EventDateTime>, i: nat)
    requires i < |s| && SortedByStart(s)
    ensures SortedByStart(RemoveAt(s, i))
  {
    var r := RemoveAt(s, i);
    forall p, q | 0 <= p < q < |r|
      ensures StartsNoLater(r[p], r[q])
    {
      var p', q' := if p < i then p else p + 1, if q < i then q else q + 1;
      assert r[p] == s[p'] && r[q] == s[q'];
    }
  }

  /** Removing from a sorted list a row that starts with its first row
      leaves the same moments as removing the first row. */
  lemma RemoveEarliest(b: seq<EventDateTime>, i: nat)
    requires SortedByStart(b) && i < |b|
    requires b[i].startDate == b[0].startDate && b[i].startTime == b[0].startTime
    ensures SameMoments(RemoveAt(b, i), b[1..])
  {
    var rb := RemoveAt(b, i);
    forall k | 0 <= k < |rb|
      ensures rb[k].startDate == b[1..][k].startDate && rb[k].startTime == b[1..][k].startTime
    {
      if k < i {
        // b[0] .. b[i] all start at the same moment.
        assert rb[k] == b[k] && b[1..][k] == b[k + 1];
        assert StartsNoLater(b[0], b[k]) || k == 0;
        assert StartsNoLater(b[k], b[k + 1]);
        assert k + 1 == i || StartsNoLater(b[k + 1], b[i]);
      } else {
        assert rb[k] == b[k + 1];
      }
    }
  }

  // ---------------------------------------------------------------------
  // getEventList

  /** The list `getEventList` returns: the standard rows and the rows
      generated for the recurring events, numbered on from `firstIndex`,
      in listing order. */
  function EventList(standard: seq<EventDateTime>, recurring: seq<EventsPage>, windowStart: Date, windowEnd: Date,
                     firstIndex: nat): seq<EventDateTime>
    requires forall e :: e in recurring ==> IntervalsUsable(e)
  {
    SortByStart(standard + Generated(AllOccurrences(recurring, windowStart, windowEnd), firstIndex))
  }

  /** The event list is in listing order and holds every standard row and
      every generated row, each as often as it was produced, and nothing
      else. */
  lemma EventListContents(standard: seq<EventDateTime>, recurring: seq<EventsPage>, windowStart: Date, windowEnd: Date,
                          firstIndex: nat)
    requires forall e :: e in recurring ==> IntervalsUsable(e)
    ensures var list := EventList(standard, recurring, windowStart, windowEnd, firstIndex);
      var generated := Generated(AllOccurrences(recurring, windowStart, windowEnd), firstIndex);
      SortedByStart(list)
      && multiset(list) == multiset(standard) + multiset(generated)
      && |list| == |standard| + |AllOccurrences(recurring, windowStart, windowEnd)|
      && (forall r :: r in list <==> r in standard || r in generated)
  {
    var list := EventList(standard, recurring, windowStart, windowEnd, firstIndex);
    var generated := Generated(AllOccurrences(recurring, windowStart, windowEnd), firstIndex);
    assert |list| == |multiset(list)|;
    forall r
      ensures r in list <==> r in standard || r in generated
    {
      assert r in list <==> r in multiset(list);
      assert r in standard <==> r in multiset(standard);
      assert r in generated <==> r in multiset(generated);
    }
  }

  /** `getEventList`: merge the standard rows with the generated ones, then
      sort by start date and start time. */
  method GetEventList(windowStart: Date, windowEnd: Date, standard: seq<EventDateTime>, recurring: seq<EventsPage>,
                      counter: OccurrenceCounter)
    returns (list: seq<EventDateTime>)
    requires forall e :: e in recurring ==> IntervalsUsable(e)
    modifies counter
    ensures list == EventList(standard, recurring, windowStart, windowEnd, old(counter.value))
    ensures counter.value == old(counter.value) + |AllOccurrences(recurring, windowStart, windowEnd)|
  {
    var all := AddRecurringEvents(windowStart, windowEnd, recurring, standard, counter);
    list := SortByStart(all);
  }
}
