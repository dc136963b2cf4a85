/** The trailing-window incidence of `calculated_incidence`: for each
    position of the ascending dates, the sum of the window of counts
    ending there, scaled to cases per 100000 inhabitants and held in
    exact tenths, and the date-keyed dict built from the pairs. */
module Incidence {
  import opened Dates

  function Sum(s: seq<int>): int
  {
    if s == [] then 0 else s[0] + Sum(s[1..])
  }

  lemma {:induction false} SumSnoc(s: seq<int>, x: int)
    ensures Sum(s + [x]) == Sum(s) + x
  {
    if s == [] {
      assert [x][1..] == [];
    } else {
      assert (s + [x])[1..] == s[1..] + [x];
      SumSnoc(s[1..], x);
    }
  }

  lemma {:induction false} SumConstant(s: seq<int>, c: int)
    requires forall k :: 0 <= k < |s| ==> s[k] == c
    ensures Sum(s) == |s| * c
  {
    if s != [] {
      SumConstant(s[1..], c);
    }
  }

  /** `self.combined_data[d]` for each position of the sorted dates. */
  function ValuesAt(dates: seq<Date>, m: map<Date, int>): (v: seq<int>)
    requires forall d :: d in dates ==> d in m
    ensures |v| == |dates|
    ensures forall k :: 0 <= k < |dates| ==> v[k] == m[dates[k]]
  {
    seq(|dates|, k requires 0 <= k < |dates| => m[dates[k]])
  }

  /** `illnesses` at position `counter`: past the first `w + 1` positions,
      the sum of the values at positions `counter - w .. counter`; 0 before
      that, and 0 when the window `range(0, w + 1)` is empty. */
  function WindowSum(v: seq<int>, counter: nat, w: int): int
    requires counter < |v|
  {
    if counter > w && w >= 0 then Sum(v[counter - w .. counter + 1]) else 0
  }

  /** The sum of the values at positions `lo .. hi - 1`, added from the back
      as the window loop of `calculated_incidence` adds them. */
  function SumRange(v: seq<int>, lo: nat, hi: nat): int
    requires lo <= hi <= |v|
    decreases hi - lo
  {
    if lo == hi then 0 else v[lo] + SumRange(v, lo + 1, hi)
  }

  lemma {:induction false} SumRangeIsSum(v: seq<int>, lo: nat, hi: nat)
    requires lo <= hi <= |v|
    ensures SumRange(v, lo, hi) == Sum(v[lo..hi])
    decreases hi - lo
  {
    if lo < hi {
      SumRangeIsSum(v, lo + 1, hi);
      assert v[lo..hi][1..] == v[lo + 1..hi];
    }
  }

  /** The inner loop of `calculated_incidence`: walks the window back
      from position `counter`, adding the count of each date. */
  method WindowIllnesses(dates: seq<Date>, m: map<Date, int>, counter: nat, w: int) returns (illnesses: int)
    requires forall d :: d in dates ==> d in m
    requires counter < |dates|
    ensures illnesses == WindowSum(ValuesAt(dates, m), counter, w)
  {
    ghost var v := ValuesAt(dates, m);
    illnesses := 0;
    if counter > w {
      var i := 0;
      while i < w + 1
        invariant 0 <= i <= (if w >= 0 then w + 1 else 0)
        invariant illnesses == SumRange(v, counter - i + 1, counter + 1)
      {
        illnesses := illnesses + m[dates[counter - i]];
        i := i + 1;
      }
      SumRangeIsSum(v, counter - i + 1, counter + 1);
    }
  }

  /** Moving the window one position on adds the new value and drops the
      oldest: the slice-and-sum agrees with an incremental moving sum. */
  lemma WindowSumSlides(v: seq<int>, counter: nat, w: int)
    requires 0 <= w < counter && counter + 1 < |v|
    ensures WindowSum(v, counter + 1, w) == WindowSum(v, counter, w) + v[counter + 1] - v[counter - w]
  {
    var mid := v[counter - w + 1 .. counter + 1];
    assert v[counter - w .. counter + 1] == [v[counter - w]] + mid;
    assert v[counter + 1 - w .. counter + 2] == mid + [v[counter + 1]];
    SumSnoc(mid, v[counter + 1]);
  }

  /** A window over a constant series sums to `w + 1` times the constant. */
  lemma WindowSumConstant(v: seq<int>, counter: nat, w: int, c: int)
    requires counter < |v| && counter > w >= 0
    requires forall k :: 0 <= k < |v| ==> v[k] == c
    ensures WindowSum(v, counter, w) == (w + 1) * c
  {
    SumConstant(v[counter - w .. counter + 1], c);
  }

  /** `num / den` rounded to the nearest integer, ties to the even one. */
  function RoundHalfEven(num: int, den: int): (q: int)
    requires den > 0
    ensures -den <= 2 * (num - q * den) <= den
    ensures (2 * (num - q * den) == den || 2 * (num - q * den) == -den) ==> q % 2 == 0
  {
    var f, r := num / den, num % den;
    assert num == f * den + r;
    assert num - (f + 1) * den == r - den;
    if 2 * r > den || (2 * r == den && f % 2 != 0) then f + 1 else f
  }

  /** `_calc_incidence`: `illnesses / einwohnerzahl * 100000` rounded to one
      decimal, as a whole number of tenths: the tenths nearest to the exact
      quotient `illnesses * 1000000 / einwohnerzahl`, ties to even. */
  function CalcIncidence(illnesses: int, einwohnerzahl: int): (tenths: int)
    requires einwohnerzahl != 0
    ensures var e := illnesses * 1000000 - tenths * einwohnerzahl;
            2 * (if e < 0 then -e else e) <= (if einwohnerzahl < 0 then -einwohnerzahl else einwohnerzahl)
    ensures illnesses == 0 ==> tenths == 0
  {
    if einwohnerzahl > 0 then RoundHalfEven(illnesses * 1000000, einwohnerzahl)
    else
      var q := RoundHalfEven(-illnesses * 1000000, -einwohnerzahl);
      assert -illnesses * 1000000 - q * -einwohnerzahl == -(illnesses * 1000000 - q * einwohnerzahl);
      q
  }

  /** `_calculated_incidence` for the ascending `dates` of the case map `m`:
      one `(date, incidence)` pair per position. */
  function IncidenceSeries(dates: seq<Date>, m: map<Date, int>, w: int, einwohnerzahl: int): (s: seq<(Date, int)>)
    requires forall d :: d in dates ==> d in m
    requires einwohnerzahl != 0
    ensures |s| == |dates|
  {
    var v := ValuesAt(dates, m);
    seq(|dates|, k requires 0 <= k < |dates| => (dates[k], CalcIncidence(WindowSum(v, k, w), einwohnerzahl)))
  }

  /** The series up to position `k` is the series up to `k - 1` and the pair at `k`. */
  lemma IncidenceSeriesStep(dates: seq<Date>, m: map<Date, int>, w: int, einwohnerzahl: int, k: nat)
    requires forall d :: d in dates ==> d in m
    requires einwohnerzahl != 0 && k < |dates|
    ensures IncidenceSeries(dates, m, w, einwohnerzahl)[..k + 1] ==
            IncidenceSeries(dates, m, w, einwohnerzahl)[..k] +
            [(dates[k], CalcIncidence(WindowSum(ValuesAt(dates, m), k, w), einwohnerzahl))]
  {
    var s := IncidenceSeries(dates, m, w, einwohnerzahl);
    assert s[..k + 1] == s[..k] + [s[k]];
  }

  /** The series has one pair per date, in the dates' order; the first
      `w + 1` positions are 0, and all of them when `w < 0` leaves the
      window empty; every later position scales the sum of the
      `w + 1` counts at positions `k - w .. k`. */
  lemma IncidenceSeriesSpec(dates: seq<Date>, m: map<Date, int>, w: int, einwohnerzahl: int)
    requires forall d :: d in dates ==> d in m
    requires einwohnerzahl != 0
    ensures |IncidenceSeries(dates, m, w, einwohnerzahl)| == |dates|
    ensures forall k :: 0 <= k < |dates| ==> IncidenceSeries(dates, m, w, einwohnerzahl)[k].0 == dates[k]
    ensures forall k :: 0 <= k < |dates| && k <= w ==> IncidenceSeries(dates, m, w, einwohnerzahl)[k].1 == 0
    ensures w < 0 ==> forall k :: 0 <= k < |dates| ==> IncidenceSeries(dates, m, w, einwohnerzahl)[k].1 == 0
    ensures forall k :: 0 <= k < |dates| && 0 <= w < k ==>
              IncidenceSeries(dates, m, w, einwohnerzahl)[k].1 ==
              CalcIncidence(Sum(seq(w + 1, j requires 0 <= j < w + 1 => m[dates[k - w + j]])), einwohnerzahl)
  {
    var v := ValuesAt(dates, m);
    forall k | 0 <= k < |dates| && 0 <= w < k
      ensures WindowSum(v, k, w) == Sum(seq(w + 1, j requires 0 <= j < w + 1 => m[dates[k - w + j]]))
    {
      assert v[k - w .. k + 1] == seq(w + 1, j requires 0 <= j < w + 1 => m[dates[k - w + j]]);
    }
  }

  /** `calculated_incidence_dict`: the pairs written into a dict in order. */
  function Dict(pairs: seq<(Date, int)>): (m: map<Date, int>)
    ensures m.Keys == set p | p in pairs :: p.0
  {
    if pairs == [] then map[]
    else
      var init, last := pairs[..|pairs| - 1], pairs[|pairs| - 1];
      assert pairs == init + [last];
      Dict(init)[last.0 := last.1]
  }

  lemma DictStep(pairs: seq<(Date, int)>, k: nat)
    requires k < |pairs|
    ensures Dict(pairs[..k + 1]) == Dict(pairs[..k])[pairs[k].0 := pairs[k].1]
  {
    assert pairs[..k + 1][..k] == pairs[..k];
  }

  /** The loop of `calculated_incidence_dict`: each pair written into a
      new dict in order. */
  method BuildDict(pairs: seq<(Date, int)>) returns (retVal: map<Date, int>)
    ensures retVal == Dict(pairs)
  {
    retVal := map[];
    var k := 0;
    while k < |pairs|
      invariant 0 <= k <= |pairs|
      invariant retVal == Dict(pairs[..k])
    {
      DictStep(pairs, k);
      retVal := retVal[pairs[k].0 := pairs[k].1];
      k := k + 1;
    }
    assert pairs[..k] == pairs;
  }

  /** With distinct dates every pair survives into the dict. */
  lemma {:induction false} DictOfDistinct(pairs: seq<(Date, int)>, k: nat)
    requires forall i, j :: 0 <= i < j < |pairs| ==> pairs[i].0 != pairs[j].0
    requires k < |pairs|
    ensures Dict(pairs)[pairs[k].0] == pairs[k].1
  {
    var init := pairs[..|pairs| - 1];
    if k < |pairs| - 1 {
      assert init[k] == pairs[k];
      DictOfDistinct(init, k);
    }
  }

  /** `calculated_incidence_dict` of the series of ascending dates has the
      same dates as keys and each date's incidence as value. */
  lemma IncidenceDictSpec(dates: seq<Date>, m: map<Date, int>, w: int, einwohnerzahl: int)
    requires StrictlyAscending(dates)
    requires forall d :: d in dates ==> d in m
    requires einwohnerzahl != 0
    ensures Dict(IncidenceSeries(dates, m, w, einwohnerzahl)).Keys == set d | d in dates
    ensures forall k :: 0 <= k < |dates| ==>
              Dict(IncidenceSeries(dates, m, w, einwohnerzahl))[dates[k]] == IncidenceSeries(dates, m, w, einwohnerzahl)[k].1
  {
    var s := IncidenceSeries(dates, m, w, einwohnerzahl);
    assert forall i :: 0 <= i < |s| ==> s[i].0 == dates[i];
    assert (set p | p in s :: p.0) == set d | d in dates by {
      forall d | d in dates ensures d in set p | p in s :: p.0 {
        var i :| 0 <= i < |dates| && dates[i] == d;
        assert s[i] in s;
      }
    }
    forall k | 0 <= k < |dates| ensures Dict(s)[dates[k]] == s[k].1 {
      DictOfDistinct(s, k);
    }
  }

  /** A series of pairs whose dates are `dates`, position by position,
      lists the same dates in the same order. */
  lemma SameDates(s: seq<(Date, int)>, dates: seq<Date>)
    requires |s| == |dates| && forall k :: 0 <= k < |s| ==> s[k].0 == dates[k]
    ensures StrictlyAscending(dates) ==> forall i, j :: 0 <= i < j < |s| ==> Before(s[i].0, s[j].0)
    ensures forall d :: d in dates <==> exists k :: 0 <= k < |s| && s[k].0 == d
  {
    forall d ensures d in dates <==> exists k :: 0 <= k < |s| && s[k].0 == d {
      if d in dates {
        var k :| 0 <= k < |dates| && dates[k] == d;
        assert s[k].0 == d;
      }
    }
  }

  /** The series of a case map over its sorted dates has one pair per
      date of the map, in strictly ascending date order. */
  lemma SortedSeriesDates(m: map<Date, int>, w: int, einwohnerzahl: int)
    requires einwohnerzahl != 0
    ensures |IncidenceSeries(Sorted(m.Keys), m, w, einwohnerzahl)| == |m.Keys|
    ensures var s := IncidenceSeries(Sorted(m.Keys), m, w, einwohnerzahl);
            forall i, j :: 0 <= i < j < |s| ==> Before(s[i].0, s[j].0)
    ensures var s := IncidenceSeries(Sorted(m.Keys), m, w, einwohnerzahl);
            forall d :: d in m <==> exists k :: 0 <= k < |s| && s[k].0 == d
  {
    var dates := Sorted(m.Keys);
    SortedAscending(m.Keys);
    SameDates(IncidenceSeries(dates, m, w, einwohnerzahl), dates);
  }

  /** ... and is 0 at its first `w + 1` positions, and everywhere when `w < 0`. */
  lemma SortedSeriesLeadingZeros(m: map<Date, int>, w: int, einwohnerzahl: int)
    requires einwohnerzahl != 0
    ensures var s := IncidenceSeries(Sorted(m.Keys), m, w, einwohnerzahl);
            forall k :: 0 <= k < |s| && k <= w ==> s[k].1 == 0
    ensures var s := IncidenceSeries(Sorted(m.Keys), m, w, einwohnerzahl);
            w < 0 ==> forall k :: 0 <= k < |s| ==> s[k].1 == 0
  {
  }

  /** ... and its dict has exactly the map's dates as keys. */
  lemma SortedSeriesDict(m: map<Date, int>, w: int, einwohnerzahl: int)
    requires einwohnerzahl != 0
    ensures Dict(IncidenceSeries(Sorted(m.Keys), m, w, einwohnerzahl)).Keys == m.Keys
  {
    SortedAscending(m.Keys);
    IncidenceDictSpec(Sorted(m.Keys), m, w, einwohnerzahl);
  }

  /** Nine days of 10 cases in 100000 inhabitants with the 7-day window:
      the ninth day (position 8) is the first with an incidence, 80.0;
      the eighth (position 7) is still 0.0. */
  lemma WorkedExample(dates: seq<Date>, m: map<Date, int>)
    requires |dates| == 9 && forall d :: d in dates ==> d in m && m[d] == 10
    ensures IncidenceSeries(dates, m, 7, 100000)[7].1 == 0
    ensures IncidenceSeries(dates, m, 7, 100000)[8].1 == 800
  {
    var v := ValuesAt(dates, m);
    assert forall k :: 0 <= k < |v| ==> v[k] == 10;
    WindowSumConstant(v, 8, 7, 10);
  }
}
