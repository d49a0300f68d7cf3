/** The lookup tables of the recurrence options (src/models/RecurringDayOfWeek.php,
    src/models/RecurringDayOfMonth.php): one record per weekday 0..6 and one
    per day of the month 1..31, kept in that shape by `requireDefaultRecords`
    and listed by value. A table is the sequence of its records' values in
    storage order. */
module LookupTables {
  import opened Wrappers

  /** The values `first`, `first + 1`, ..., `first + count - 1`. */
  function DefaultValues(first: int, count: nat): (r: seq<int>)
    ensures |r| == count
    ensures forall k :: 0 <= k < count ==> r[k] == first + k
  {
    seq(count, k => first + k)
  }

  /** The table `requireDefaultRecords` leaves: a table of exactly `count`
      records is kept as it is, any other one (empty or not) is replaced by
      the default records. */
  function Normalised(values: seq<int>, first: int, count: nat): (r: seq<int>)
    requires count > 0
    ensures |r| == count
    ensures r == values || r == DefaultValues(first, count)
    ensures |values| == count <==> r == values
  {
    if |values| == count then values else DefaultValues(first, count)
  }

  /** Building the tables again leaves them as they are. */
  lemma NormalisedIdempotent(values: seq<int>, first: int, count: nat)
    requires count > 0
    ensures Normalised(Normalised(values, first, count), first, count) == Normalised(values, first, count)
  {
  }

  predicate Ascending(s: seq<int>) {
    forall i, j :: 0 <= i < j < |s| ==> s[i] <= s[j]
  }

  function InsertValue(x: int, s: seq<int>): (r: seq<int>)
    requires Ascending(s)
    ensures Ascending(r)
    ensures multiset(r) == multiset(s) + multiset{x}
  {
    if s == [] || x <= s[0] then [x] + s
    else
      var rest := InsertValue(x, s[1..]);
      assert multiset(s) == multiset{s[0]} + multiset(s[1..]) by {
        assert s == [s[0]] + s[1..];
      }
      HeadBelowAll(s[0], x, s[1..], rest);
      [s[0]] + rest
  }

  /** A value no greater than `x` and every value of `t` is no greater than
      any value of a reordering of `t` with `x` added. */
  lemma HeadBelowAll(h: int, x: int, t: seq<int>, rest: seq<int>)
    requires h <= x && forall k :: 0 <= k < |t| ==> h <= t[k]
    requires multiset(rest) == multiset(t) + multiset{x}
    ensures forall k :: 0 <= k < |rest| ==> h <= rest[k]
  {
    forall k | 0 <= k < |rest|
      ensures h <= rest[k]
    {
      assert rest[k] in multiset(rest);
      if rest[k] != x {
        var j := IndexOf(rest[k], t);
      }
    }
  }

  /** `$default_sort = "Value ASC"`, the order both tables are listed in:
      the records by value. */
  function Listed(values: seq<int>): (r: seq<int>)
    ensures Ascending(r)
    ensures multiset(r) == multiset(values)
  {
    if values == [] then []
    else
      assert values == [values[0]] + values[1..];
      InsertValue(values[0], Listed(values[1..]))
  }

  /** A table already in value order is listed as it is stored. */
  lemma {:induction false} ListedAscending(values: seq<int>)
    requires Ascending(values)
    ensures Listed(values) == values
  {
    if values != [] {
      ListedAscending(values[1..]);
      assert values == [values[0]] + values[1..];
    }
  }

  /** The default records are listed `first` to `first + count - 1`, and a
      normalised table of the wrong size is listed that way too. */
  lemma ListedDefaults(values: seq<int>, first: int, count: nat)
    requires count > 0
    ensures Listed(DefaultValues(first, count)) == DefaultValues(first, count)
    ensures |values| != count ==> Listed(Normalised(values, first, count)) == DefaultValues(first, count)
  {
    ListedAscending(DefaultValues(first, count));
  }

  /** `create_default_records`: write one record for each of the values
      `first` to `first + count - 1`, in that order. */
  method AppendDefaults(values: seq<int>, first: int, count: nat) returns (r: seq<int>)
    ensures r == values + DefaultValues(first, count)
  {
    r := values;
    for i := 0 to count
      invariant r == values + DefaultValues(first, i)
    {
      r := r + [first + i];
    }
  }

  /** `requireDefaultRecords`: seed an empty table; delete every record of
      a table that does not hold exactly `count`, then seed it. */
  method RequireDefaults(values: seq<int>, first: int, count: nat) returns (r: seq<int>)
    requires count > 0
    ensures r == Normalised(values, first, count)
  {
    r := values;
    if r == [] {
      r := AppendDefaults(r, first, count);
    } else if |r| != count {
      for i := 0 to |values|
        invariant r == values[i..]
      {
        r := r[1..];
      }
      r := AppendDefaults(r, first, count);
    }
  }

  /** The table of weekdays, 0 = Sunday to 6 = Saturday. */
  class RecurringDayOfWeek {
    var values: seq<int>

    constructor (stored: seq<int>)
      ensures values == stored
    {
      values := stored;
    }

    /** `create_default_records`: the records 0..6. */
    method CreateDefaultRecords()
      modifies this
      ensures values == old(values) + DefaultValues(0, 7)
    {
      values := AppendDefaults(values, 0, 7);
    }

    /** `requireDefaultRecords` with 7 records expected. */
    method RequireDefaultRecords()
      modifies this
      ensures values == Normalised(old(values), 0, 7)
    {
      values := RequireDefaults(values, 0, 7);
    }
  }

  /** The table of days of the month, 1 to 31. */
  class RecurringDayOfMonth {
    var values: seq<int>

    constructor (stored: seq<int>)
      ensures values == stored
    {
      values := stored;
    }

    /** `create_default_records`: the records 1..31. */
    method CreateDefaultRecords()
      modifies this
      ensures values == old(values) + DefaultValues(1, 31)
    {
      values := AppendDefaults(values, 1, 31);
    }

    /** `requireDefaultRecords` with 31 records expected. */
    method RequireDefaultRecords()
      modifies this
      ensures values == Normalised(old(values), 1, 31)
    {
      values := RequireDefaults(values, 1, 31);
    }
  }
}
