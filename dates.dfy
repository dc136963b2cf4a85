/** Calendar dates (section 4.1.2.2 of ISO 8601:2004), their order,
    their `str()` form, the truncation of a combined date-time stamp to
    its date, and the ascending listing that `sorted()` gives a set of
    dates. */
module Dates {
  import opened Decimal

  datatype Date = Date(year: int, month: int, day: int)

  predicate IsLeapYear(y: int) { y % 4 == 0 && (y % 100 != 0 || y % 400 == 0) }

  function DaysInMonth(y: int, m: int): int
    requires 1 <= m <= 12
  {
    if m == 2 then (if IsLeapYear(y) then 29 else 28)
    else if m == 4 || m == 6 || m == 9 || m == 11 then 30
    else 31
  }

  /** The dates a Python `datetime.date` can hold. */
  predicate ValidDate(d: Date)
  {
    1 <= d.year <= 9999 && 1 <= d.month <= 12 && 1 <= d.day <= DaysInMonth(d.year, d.month)
  }

  /** A date the clock can read. */
  type CalendarDate = d: Date | ValidDate(d) witness Date(1970, 1, 1)

  /** Chronological order, as Python compares `date` objects. */
  predicate Before(a: Date, b: Date)
  {
    a.year < b.year ||
    (a.year == b.year && (a.month < b.month || (a.month == b.month && a.day < b.day)))
  }

  predicate NotAfter(a: Date, b: Date) { a == b || Before(a, b) }

  /** `str(d)`: `YYYY-MM-DD`. */
  function FormatDate(d: Date): (s: string)
    requires ValidDate(d)
    ensures |s| == 10
  {
    assert Pow10(4) == 10000 && Pow10(2) == 100;
    PaddedDigits(d.year, 4) + "-" + PaddedDigits(d.month, 2) + "-" + PaddedDigits(d.day, 2)
  }

  /** Ten characters laid out as `DDDD-DD-DD`. */
  predicate IsDateShape(s: string)
  {
    |s| == 10 && s[4] == '-' && s[7] == '-' &&
    AllDigits(s[..4]) && AllDigits(s[5..7]) && AllDigits(s[8..])
  }

  function ParseDate(s: string): Date
    requires IsDateShape(s)
  {
    Date(DigitsValue(s[..4]), DigitsValue(s[5..7]), DigitsValue(s[8..]))
  }

  /** A calendar date written as `YYYY-MM-DD`. */
  predicate IsCalendarDate(s: string) { IsDateShape(s) && ValidDate(ParseDate(s)) }

  /** A `Datum` field: a combined date-time stamp (section 4.3.2 of ISO 8601:2004)
      whose last character is the zone designator and whose first ten
      characters are the calendar date. */
  predicate IsTimestamp(s: string) { |s| >= 11 && IsCalendarDate(s[..10]) }

  lemma FormatParseDate(s: string)
    requires IsDateShape(s)
    ensures IsCalendarDate(s) ==> FormatDate(ParseDate(s)) == s
  {
    DigitsValueRoundTrip(s[..4]);
    DigitsValueRoundTrip(s[5..7]);
    DigitsValueRoundTrip(s[8..]);
    if IsCalendarDate(s) {
      assert s == s[..4] + "-" + s[5..7] + "-" + s[8..];
    }
  }

  /** `_get_right_datetime`: drop the trailing zone designator, then keep
      the calendar date of what remains. */
  function GetRightDatetime(datum: string): Date
    requires IsTimestamp(datum)
  {
    var withoutZone := datum[..|datum| - 1];
    assert withoutZone[..10] == datum[..10];
    ParseDate(withoutZone[..10])
  }

  /** The truncated date is a calendar date. */
  lemma GetRightDatetimeValid(datum: string)
    requires IsTimestamp(datum)
    ensures ValidDate(GetRightDatetime(datum))
  {
    assert datum[..|datum| - 1][..10] == datum[..10];
  }

  /** The truncated date is the one whose `str()` is the stamp's first ten
      characters, so two stamps give the same date exactly when they
      begin with the same ten characters. */
  lemma GetRightDatetimeFormat(datum: string)
    requires IsTimestamp(datum)
    ensures ValidDate(GetRightDatetime(datum)) && FormatDate(GetRightDatetime(datum)) == datum[..10]
  {
    GetRightDatetimeValid(datum);
    assert datum[..|datum| - 1][..10] == datum[..10];
    FormatParseDate(datum[..10]);
  }

  /** `str(d)` reads back as `d`. */
  lemma FormatDateRoundTrip(d: Date)
    requires ValidDate(d)
    ensures IsCalendarDate(FormatDate(d)) && ParseDate(FormatDate(d)) == d
  {
    var s := FormatDate(d);
    assert Pow10(4) == 10000 && Pow10(2) == 100;
    var y, m, dd := PaddedDigits(d.year, 4), PaddedDigits(d.month, 2), PaddedDigits(d.day, 2);
    assert s == y + "-" + m + "-" + dd;
    assert s[..4] == y && s[5..7] == m && s[8..] == dd;
    PaddedDigitsRoundTrip(d.year, 4);
    PaddedDigitsRoundTrip(d.month, 2);
    PaddedDigitsRoundTrip(d.day, 2);
  }

  /** A stamp built from a date's `str()` and any time part and zone
      designator truncates back to that date. */
  lemma TimestampRoundTrip(d: Date, rest: string)
    requires ValidDate(d) && |rest| >= 1
    ensures IsTimestamp(FormatDate(d) + rest)
    ensures GetRightDatetime(FormatDate(d) + rest) == d
  {
    var s := FormatDate(d);
    FormatDateRoundTrip(d);
    var stamp := s + rest;
    assert stamp[..10] == s && stamp[..|stamp| - 1][..10] == s;
  }

  lemma BeforeTransitive(a: Date, b: Date, c: Date)
    requires Before(a, b) && Before(b, c)
    ensures Before(a, c)
  {
  }

  /** Every non-empty set of dates has an earliest element. */
  lemma {:induction false} HasEarliest(s: set<Date>)
    requires s != {}
    ensures exists m :: m in s && forall d :: d in s ==> NotAfter(m, d)
  {
    var x :| x in s;
    if s != {x} {
      HasEarliest(s - {x});
      var m :| m in s - {x} && forall d :: d in s - {x} ==> NotAfter(m, d);
      if Before(x, m) {
        forall d | d in s ensures NotAfter(x, d) {
          if d != x && d != m {
            assert d in s - {x};
            BeforeTransitive(x, m, d);
          }
        }
      } else {
        assert forall d :: d in s ==> NotAfter(m, d);
      }
    }
  }

  function Earliest(s: set<Date>): (m: Date)
    requires s != {}
    ensures m in s && forall d :: d in s ==> NotAfter(m, d)
  {
    HasEarliest(s);
    var m :| m in s && forall d :: d in s ==> NotAfter(m, d);
    m
  }

  predicate StrictlyAscending(ds: seq<Date>)
  {
    forall i, j :: 0 <= i < j < |ds| ==> Before(ds[i], ds[j])
  }

  /** `sorted(keys)`: the keys, earliest first. */
  function Sorted(keys: set<Date>): (ds: seq<Date>)
    ensures |ds| == |keys|
    ensures forall d :: d in ds <==> d in keys
    decreases |keys|
  {
    if keys == {} then []
    else
      var m := Earliest(keys);
      [m] + Sorted(keys - {m})
  }

  /** The listing is strictly ascending, so each key occurs once. */
  lemma {:induction false} SortedAscending(keys: set<Date>)
    ensures StrictlyAscending(Sorted(keys))
    decreases |keys|
  {
    if keys != {} {
      var m := Earliest(keys);
      var rest := Sorted(keys - {m});
      SortedAscending(keys - {m});
      var ds := Sorted(keys);
      assert ds == [m] + rest;
      forall i, j | 0 <= i < j < |ds| ensures Before(ds[i], ds[j]) {
        if i == 0 {
          assert ds[j] == rest[j - 1] && ds[j] in keys - {m};
        } else {
          assert ds[i] == rest[i - 1] && ds[j] == rest[j - 1];
        }
      }
    }
  }

  lemma HeadIsMember(s: seq<Date>)
    ensures s != [] ==> s[0] in s
  {
  }

  /** An ascending listing of a set of dates is unique, so `Sorted` is the
      only sequence with the three properties it promises. */
  lemma {:induction false} AscendingListingUnique(a: seq<Date>, b: seq<Date>)
    requires StrictlyAscending(a) && StrictlyAscending(b)
    requires forall d :: d in a <==> d in b
    ensures a == b
  {
    if a == [] {
      HeadIsMember(b);
    } else {
      assert b != [] by { assert a[0] in b; }
      assert b[0] in a && a[0] in b;
      var i :| 0 <= i < |a| && a[i] == b[0];
      var j :| 0 <= j < |b| && b[j] == a[0];
      assert NotAfter(a[0], a[i]) && NotAfter(b[0], b[j]);
      assert a[0] == b[0];
      forall d ensures d in a[1..] <==> d in b[1..] {
        if d in a[1..] {
          var k :| 0 <= k < |a| - 1 && a[1..][k] == d;
          assert Before(a[0], a[k + 1]);
          assert d in b && d != b[0];
          var k' :| 0 <= k' < |b| && b[k'] == d;
          assert b[1..][k' - 1] == d;
        }
        if d in b[1..] {
          var k :| 0 <= k < |b| - 1 && b[1..][k] == d;
          assert Before(b[0], b[k + 1]);
          assert d in a && d != a[0];
          var k' :| 0 <= k' < |a| && a[k'] == d;
          assert a[1..][k' - 1] == d;
        }
      }
      AscendingListingUnique(a[1..], b[1..]);
      assert a == [a[0]] + a[1..] && b == [b[0]] + b[1..];
    }
  }

  lemma SortedIsTheAscendingListing(keys: set<Date>, ds: seq<Date>)
    requires StrictlyAscending(ds) && forall d :: d in ds <==> d in keys
    ensures ds == Sorted(keys)
  {
    SortedAscending(keys);
    AscendingListingUnique(ds, Sorted(keys));
  }
}
