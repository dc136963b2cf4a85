/** The `PrintTable` class of `main.py`: the dates of the first region,
    the last `n` of them, the widths of the value columns, the border
    line, and one row of strings per date with one value per region. The
    printing itself is not modelled; the lines and rows are. */
module Table {
  import opened Wrappers
  import opened Decimal
  import opened Dates
  import opened Region
  import opened Incidence
  import opened CoronaRegion

  /** What `calculated_incidence_dict` gives region `v`. */
  function IncidenceDictOf(v: Corona): Result<map<Date, int>>
  {
    var series := RegionIncidence(v.data, v.lk, v.inzidenz, v.today);
    if series.Ok? then Ok(Dict(series.value)) else Err(series.error)
  }

  /** The dicts of all regions, in region order. */
  function Dicts(values: seq<Corona>): (ds: seq<Result<map<Date, int>>>)
    ensures |ds| == |values| && forall j :: 0 <= j < |values| ==> ds[j] == IncidenceDictOf(values[j])
  {
    seq(|values|, j requires 0 <= j < |values| => IncidenceDictOf(values[j]))
  }

  /** `dates`: the sorted dates of the first region; an empty region list
      raises. */
  function TableDates(values: seq<Corona>): Result<seq<Date>>
  {
    if values == [] then Err(NoRegions)
    else
      match RegionCombined(values[0].data, values[0].lk, values[0].today)
      case Err(e) => Err(e)
      case Ok(m) => Ok(Sorted(m.Keys))
  }

  /** Every date of the table is a calendar date. */
  lemma TableDatesValid(values: seq<Corona>)
    ensures TableDates(values).Ok? ==> forall d :: d in TableDates(values).value ==> ValidDate(d)
  {
    if values != [] {
      CombinedDatesValid(values[0].data, values[0].lk, values[0].today);
    }
  }

  /** Python's `s[start:]`: a negative start counts from the end, and
      either kind is clipped to the bounds. */
  function SliceFrom<T>(s: seq<T>, start: int): seq<T>
  {
    var k := if start < 0 then (if start + |s| < 0 then 0 else start + |s|)
             else (if start > |s| then |s| else start);
    s[k..]
  }

  /** `valid_dates`: all dates for `None`, else `dates[n * -1:]`. */
  function LastDays(dates: seq<Date>, lastDays: Option<int>): (r: seq<Date>)
    ensures forall d :: d in r ==> d in dates
  {
    match lastDays
    case None => dates
    case Some(n) => SliceFrom(dates, n * -1)
  }

  /** `valid_dates(n)` keeps the last `min(n, len)` dates for `n > 0`,
      keeps all of them for `n == 0` (since `-0` is `0`), and drops the
      first `-n` for `n < 0`. */
  lemma LastDaysSpec(dates: seq<Date>, n: int)
    ensures |LastDays(dates, Some(n))| <= |dates|
    ensures LastDays(dates, Some(n)) == dates[|dates| - |LastDays(dates, Some(n))|..]
    ensures n > 0 ==> |LastDays(dates, Some(n))| == (if n < |dates| then n else |dates|)
    ensures n == 0 ==> LastDays(dates, Some(n)) == dates
    ensures n < 0 ==> LastDays(dates, Some(n)) == if -n < |dates| then dates[-n..] else []
    ensures LastDays(dates, None) == dates
  {
  }

  /** `str(lk.calculated_incidence_dict[date])` for each region in order;
      the first region whose dict fails, or lacks the date, raises. */
  function RowValues(date: Date, dicts: seq<Result<map<Date, int>>>): Result<seq<string>>
  {
    if dicts == [] then Ok([])
    else
      match RowValues(date, dicts[..|dicts| - 1])
      case Err(e) => Err(e)
      case Ok(vs) =>
        match dicts[|dicts| - 1]
        case Err(e) => Err(e)
        case Ok(m) => if date in m then Ok(vs + [FormatTenths(m[date])]) else Err(DateMissing)
  }

  /** `(str(date), *data)`. */
  function Row(date: CalendarDate, dicts: seq<Result<map<Date, int>>>): Result<seq<string>>
  {
    match RowValues(date, dicts)
    case Err(e) => Err(e)
    case Ok(vs) => Ok([FormatDate(date)] + vs)
  }

  /** The rows appended to `to_print`, and whether the loop ran to its end. */
  datatype Appended = Appended(rows: seq<seq<string>>, outcome: Outcome)

  /** The loop of `calc_to_print` over `dates`: one row per date in order,
      stopping at the first date whose row raises. */
  function Rows(dates: seq<CalendarDate>, dicts: seq<Result<map<Date, int>>>): Appended
  {
    if dates == [] then Appended([], Pass)
    else
      var before := Rows(dates[..|dates| - 1], dicts);
      if before.outcome.Fail? then before
      else
        match Row(dates[|dates| - 1], dicts)
        case Err(e) => Appended(before.rows, Fail(e))
        case Ok(row) => Appended(before.rows + [row], Pass)
  }

  /** `calc_to_print(last_days)`: what it appends and whether it raises. */
  function CalcToPrintSpec(values: seq<Corona>, lastDays: Option<int>): Appended
  {
    match TableDates(values)
    case Err(e) => Appended([], Fail(e))
    case Ok(ds) =>
      TableDatesValid(values);
      var valid: seq<CalendarDate> := LastDays(ds, lastDays);
      Rows(valid, Dicts(values))
  }

  /** Every region's dict exists and holds `date`. */
  predicate Covers(dicts: seq<Result<map<Date, int>>>, date: Date)
  {
    forall j :: 0 <= j < |dicts| ==> dicts[j].Ok? && date in dicts[j].value
  }

  /** A row of values exists exactly when every region's dict exists and
      holds the date; it then holds one value per region, in region
      order; otherwise the failure is that of the first region at fault. */
  lemma {:induction false} RowValuesSpec(date: Date, dicts: seq<Result<map<Date, int>>>)
    ensures RowValues(date, dicts).Ok? <==> Covers(dicts, date)
    ensures RowValues(date, dicts).Ok? ==>
              |RowValues(date, dicts).value| == |dicts| &&
              forall j :: 0 <= j < |dicts| ==> RowValues(date, dicts).value[j] == FormatTenths(dicts[j].value[date])
    ensures RowValues(date, dicts).Err? ==>
              exists j :: 0 <= j < |dicts| && Covers(dicts[..j], date) &&
                !(dicts[j].Ok? && date in dicts[j].value) &&
                RowValues(date, dicts).error == if dicts[j].Err? then dicts[j].error else DateMissing
  {
    if dicts != [] {
      var init := dicts[..|dicts| - 1];
      RowValuesSpec(date, init);
      assert forall j :: 0 <= j < |init| ==> init[j] == dicts[j];
      if RowValues(date, init).Err? {
        var j :| 0 <= j < |init| && Covers(init[..j], date) &&
                 !(init[j].Ok? && date in init[j].value) &&
                 RowValues(date, init).error == if init[j].Err? then init[j].error else DateMissing;
        assert dicts[j] == init[j] && dicts[..j] == init[..j];
      } else if !Covers(dicts, date) {
        assert dicts[..|init|] == init;
      }
    }
  }

  lemma {:induction false} RowValuesStep(date: Date, dicts: seq<Result<map<Date, int>>>, j: nat)
    requires j < |dicts|
    ensures RowValues(date, dicts[..j + 1]) ==
              match RowValues(date, dicts[..j])
              case Err(e) => Err(e)
              case Ok(vs) =>
                match dicts[j]
                case Err(e) => Err(e)
                case Ok(m) => if date in m then Ok(vs + [FormatTenths(m[date])]) else Err(DateMissing)
  {
    assert dicts[..j + 1][..j] == dicts[..j];
  }

  /** Once a region fails, the row fails with that failure. */
  lemma {:induction false} RowValuesFailStays(date: Date, dicts: seq<Result<map<Date, int>>>, j: nat)
    requires j <= |dicts| && RowValues(date, dicts[..j]).Err?
    ensures RowValues(date, dicts) == RowValues(date, dicts[..j])
    decreases |dicts| - j
  {
    if j < |dicts| {
      RowValuesStep(date, dicts, j);
      RowValuesFailStays(date, dicts, j + 1);
    } else {
      assert dicts[..j] == dicts;
    }
  }

  lemma {:induction false} RowsStep(dates: seq<CalendarDate>, dicts: seq<Result<map<Date, int>>>, k: nat)
    requires k < |dates|
    ensures Rows(dates[..k + 1], dicts) ==
              var before := Rows(dates[..k], dicts);
              if before.outcome.Fail? then before
              else
                match Row(dates[k], dicts)
                case Err(e) => Appended(before.rows, Fail(e))
                case Ok(row) => Appended(before.rows + [row], Pass)
  {
    assert dates[..k + 1][..k] == dates[..k];
  }

  /** Once a date fails, no later row is appended. */
  lemma {:induction false} RowsFailStays(dates: seq<CalendarDate>, dicts: seq<Result<map<Date, int>>>, k: nat)
    requires k <= |dates|
    requires Rows(dates[..k], dicts).outcome.Fail?
    ensures Rows(dates, dicts) == Rows(dates[..k], dicts)
    decreases |dates| - k
  {
    if k < |dates| {
      RowsStep(dates, dicts, k);
      RowsFailStays(dates, dicts, k + 1);
    } else {
      assert dates[..k] == dates;
    }
  }

  /** A covered date appends its row. */
  lemma RowsExtend(dates: seq<CalendarDate>, dicts: seq<Result<map<Date, int>>>, k: nat, row: seq<string>)
    requires k < |dates| && Row(dates[k], dicts) == Ok(row)
    requires Rows(dates[..k], dicts).outcome.Pass?
    ensures Rows(dates[..k + 1], dicts) == Appended(Rows(dates[..k], dicts).rows + [row], Pass)
  {
    RowsStep(dates, dicts, k);
  }

  /** An uncovered date ends the loop with the rows before it. */
  lemma RowsStop(dates: seq<CalendarDate>, dicts: seq<Result<map<Date, int>>>, k: nat)
    requires k < |dates| && Row(dates[k], dicts).Err?
    requires Rows(dates[..k], dicts).outcome.Pass?
    ensures Rows(dates, dicts) == Appended(Rows(dates[..k], dicts).rows, Fail(Row(dates[k], dicts).error))
  {
    RowsStep(dates, dicts, k);
    RowsFailStays(dates, dicts, k + 1);
  }

  /** The loop runs to its end exactly when every date is covered by
      every region; each row then holds the date and that date's values. */
  lemma {:induction false} RowsPass(dates: seq<CalendarDate>, dicts: seq<Result<map<Date, int>>>)
    ensures Rows(dates, dicts).outcome.Pass? <==> forall i :: 0 <= i < |dates| ==> Covers(dicts, dates[i])
    ensures Rows(dates, dicts).outcome.Pass? ==>
              |Rows(dates, dicts).rows| == |dates| &&
              forall i :: 0 <= i < |dates| ==>
                RowValues(dates[i], dicts).Ok? &&
                Rows(dates, dicts).rows[i] == [FormatDate(dates[i])] + RowValues(dates[i], dicts).value
  {
    if dates != [] {
      var init, last := dates[..|dates| - 1], dates[|dates| - 1];
      assert forall d :: d in init ==> d in dates;
      assert forall i :: 0 <= i < |init| ==> init[i] == dates[i];
      RowsPass(init, dicts);
      RowValuesSpec(last, dicts);
      var before := Rows(init, dicts);
      if before.outcome.Fail? {
        assert Rows(dates, dicts) == before;
        var i :| 0 <= i < |init| && !Covers(dicts, init[i]);
        assert !Covers(dicts, dates[i]);
      } else if !Covers(dicts, last) {
        assert Rows(dates, dicts).outcome.Fail?;
      } else {
        var row := [FormatDate(last)] + RowValues(last, dicts).value;
        assert Rows(dates, dicts) == Appended(before.rows + [row], Pass);
      }
    }
  }

  /** A loop that raises has appended the rows of the covered dates before
      the first uncovered one, and raises what that date's row raises. */
  lemma {:induction false} RowsStopped(dates: seq<CalendarDate>, dicts: seq<Result<map<Date, int>>>)
    ensures Rows(dates, dicts).outcome.Fail? ==>
              var n := |Rows(dates, dicts).rows|;
              n < |dates| && !Covers(dicts, dates[n]) && RowValues(dates[n], dicts).Err? &&
              Rows(dates, dicts).outcome.error == RowValues(dates[n], dicts).error &&
              forall i :: 0 <= i < n ==> Covers(dicts, dates[i])
  {
    if dates != [] {
      var init, last := dates[..|dates| - 1], dates[|dates| - 1];
      assert forall d :: d in init ==> d in dates;
      assert forall i :: 0 <= i < |init| ==> init[i] == dates[i];
      RowsStopped(init, dicts);
      RowsPass(init, dicts);
      RowValuesSpec(last, dicts);
      var before := Rows(init, dicts);
      if before.outcome.Fail? {
        assert Rows(dates, dicts) == before;
      } else if !Covers(dicts, last) {
        assert Rows(dates, dicts) == Appended(before.rows, Fail(RowValues(last, dicts).error));
        assert |before.rows| == |init|;
      }
    }
  }

  /** `calc_to_print` runs to its end exactly when every region's dict
      exists and holds every date; it then appends one row per date, in
      date order, holding `str(date)` and one value per region in region
      order. */
  lemma RowsSpec(dates: seq<CalendarDate>, dicts: seq<Result<map<Date, int>>>)
    ensures Rows(dates, dicts).outcome.Pass? <==>
              forall i, j :: 0 <= i < |dates| && 0 <= j < |dicts| ==> dicts[j].Ok? && dates[i] in dicts[j].value
    ensures Rows(dates, dicts).outcome.Pass? ==>
              var rows := Rows(dates, dicts).rows;
              |rows| == |dates| &&
              forall i :: 0 <= i < |dates| ==>
                |rows[i]| == |dicts| + 1 && rows[i][0] == FormatDate(dates[i]) &&
                forall j :: 0 <= j < |dicts| ==> rows[i][j + 1] == FormatTenths(dicts[j].value[dates[i]])
  {
    RowsPass(dates, dicts);
    if Rows(dates, dicts).outcome.Pass? {
      var rows := Rows(dates, dicts).rows;
      forall i | 0 <= i < |dates|
        ensures Covers(dicts, dates[i])
        ensures |rows[i]| == |dicts| + 1 && rows[i][0] == FormatDate(dates[i])
        ensures forall j :: 0 <= j < |dicts| ==> rows[i][j + 1] == FormatTenths(dicts[j].value[dates[i]])
      {
        RowValuesSpec(dates[i], dicts);
      }
    } else {
      var i :| 0 <= i < |dates| && !Covers(dicts, dates[i]);
      var j :| 0 <= j < |dicts| && !(dicts[j].Ok? && dates[i] in dicts[j].value);
    }
  }

  /** Every cell of a complete table reads back exactly: the first as the
      date, the others as the regions' incidences in tenths. */
  lemma RowsRoundTrip(dates: seq<CalendarDate>, dicts: seq<Result<map<Date, int>>>, i: nat, j: nat)
    requires Rows(dates, dicts).outcome.Pass? && i < |dates| && j < |dicts|
    ensures |Rows(dates, dicts).rows| == |dates| && |Rows(dates, dicts).rows[i]| == |dicts| + 1
    ensures IsCalendarDate(Rows(dates, dicts).rows[i][0]) && ParseDate(Rows(dates, dicts).rows[i][0]) == dates[i]
    ensures dicts[j].Ok? && dates[i] in dicts[j].value
    ensures ParseTenths(Rows(dates, dicts).rows[i][j + 1]) == Some(dicts[j].value[dates[i]])
  {
    RowsSpec(dates, dicts);
    FormatDateRoundTrip(dates[i]);
    TenthsRoundTrip(dicts[j].value[dates[i]]);
  }

  /** The dates `combined_data` gives region `v` when its snapshot exists. */
  function CombinedKeys(v: Corona): set<Date>
  {
    HistoryMap(v.data, v.lk).Keys + {v.today}
  }

  /** A region with a snapshot and a non-zero population has a dict whose
      dates are its combined dates. */
  lemma DictOfCovers(v: Corona)
    requires RegionSnapshot(v.data, v.lk).Some? && RegionPopulation(v.data, v.lk) != 0
    ensures IncidenceDictOf(v).Ok? && IncidenceDictOf(v).value.Keys == CombinedKeys(v)
  {
    RegionIncidenceSpec(v.data, v.lk, v.inzidenz, v.today);
  }

  /** With a snapshot, the table's dates are the first region's combined
      dates in ascending order. */
  lemma TableDatesOfFirst(values: seq<Corona>)
    requires values != [] && RegionSnapshot(values[0].data, values[0].lk).Some?
    ensures TableDates(values) == Ok(Sorted(CombinedKeys(values[0])))
  {
    var v := values[0];
    assert RegionCombined(v.data, v.lk, v.today).value.Keys == CombinedKeys(v);
  }

  /** When every region has a snapshot and a non-zero population, and
      every region's combined map holds the first region's dates, the
      table is complete: one row per valid date. */
  lemma CompleteTable(values: seq<Corona>, lastDays: Option<int>)
    requires values != []
    requires forall j :: 0 <= j < |values| ==>
               RegionSnapshot(values[j].data, values[j].lk).Some? && RegionPopulation(values[j].data, values[j].lk) != 0
    requires forall j :: 0 <= j < |values| ==> CombinedKeys(values[0]) <= CombinedKeys(values[j])
    ensures CalcToPrintSpec(values, lastDays).outcome.Pass?
    ensures |CalcToPrintSpec(values, lastDays).rows| == |LastDays(TableDates(values).value, lastDays)|
  {
    var dicts := Dicts(values);
    forall j | 0 <= j < |values|
      ensures dicts[j].Ok? && dicts[j].value.Keys == CombinedKeys(values[j])
    {
      DictOfCovers(values[j]);
    }
    TableDatesOfFirst(values);
    var all := Sorted(CombinedKeys(values[0]));
    TableDatesValid(values);
    var ds: seq<CalendarDate> := LastDays(all, lastDays);
    assert CalcToPrintSpec(values, lastDays) == Rows(ds, dicts);
    forall i | 0 <= i < |ds|
      ensures Covers(dicts, ds[i])
    {
      assert ds[i] in all;
    }
    RowsPass(ds, dicts);
  }

  /** A run of `n` dashes, `'-' * n`. */
  function Dashes(n: nat): (s: string)
    ensures |s| == n && forall i :: 0 <= i < n ==> s[i] == '-'
  {
    seq(n, _ => '-')
  }

  /** One `'+' + '-' * w` piece per width, in order. */
  function Segments(widths: seq<nat>): string
  {
    if widths == [] then [] else "+" + Dashes(widths[0]) + Segments(widths[1..])
  }

  /** The line `print_line` writes: the date column's segment, one segment
      per value column, and a closing `+`. */
  function Border(datePadding: nat, widths: seq<nat>): string
  {
    Segments([datePadding] + widths) + "+"
  }

  lemma {:induction false} SegmentsSnoc(widths: seq<nat>, w: nat)
    ensures Segments(widths + [w]) == Segments(widths) + "+" + Dashes(w)
  {
    if widths != [] {
      assert (widths + [w])[1..] == widths[1..] + [w];
      SegmentsSnoc(widths[1..], w);
    } else {
      assert Segments([w]) == "+" + Dashes(w) + Segments([]);
    }
  }

  /** The length of the run of dashes `s` starts with. */
  function LeadingDashes(s: string): (k: nat)
    ensures k <= |s|
  {
    if s != [] && s[0] == '-' then 1 + LeadingDashes(s[1..]) else 0
  }

  /** Reads the column widths back from a border line. */
  function ReadSegments(s: string): Option<seq<nat>>
    decreases |s|
  {
    if s == "+" then Some([])
    else if |s| >= 2 && s[0] == '+' then
      var k := LeadingDashes(s[1..]);
      match ReadSegments(s[1 + k..])
      case None => None
      case Some(ws) => Some([k] + ws)
    else None
  }

  lemma {:induction false} LeadingDashesOf(n: nat, rest: string)
    requires rest != [] && rest[0] == '+'
    ensures LeadingDashes(Dashes(n) + rest) == n
  {
    if n > 0 {
      assert (Dashes(n) + rest)[1..] == Dashes(n - 1) + rest;
      LeadingDashesOf(n - 1, rest);
    } else {
      assert Dashes(n) + rest == rest;
    }
  }

  /** A segment list closed by `+` starts with `+`. */
  lemma SegmentsOpen(widths: seq<nat>)
    ensures (Segments(widths) + "+")[0] == '+'
  {
    var x := Segments(widths);
    if widths == [] {
      assert x + "+" == "+";
    } else {
      var rest := Dashes(widths[0]) + Segments(widths[1..]);
      assert x == "+" + rest;
      assert x[0] == '+';
    }
  }

  lemma {:induction false} SegmentsRoundTrip(widths: seq<nat>)
    ensures ReadSegments(Segments(widths) + "+") == Some(widths)
  {
    if widths != [] {
      var w, tail := widths[0], Segments(widths[1..]) + "+";
      var s := Segments(widths) + "+";
      assert s == "+" + (Dashes(w) + tail);
      SegmentsOpen(widths[1..]);
      LeadingDashesOf(w, tail);
      assert s[1 + w..] == tail;
      SegmentsRoundTrip(widths[1..]);
      assert [w] + widths[1..] == widths;
    }
  }

  /** The border gives back the date column's width and every value
      column's width, in order. */
  lemma BorderRoundTrip(datePadding: nat, widths: seq<nat>)
    ensures ReadSegments(Border(datePadding, widths)) == Some([datePadding] + widths)
  {
    SegmentsRoundTrip([datePadding] + widths);
  }

  /** `len(lk.lk)` for each region, in order. */
  function Paddings(values: seq<Corona>): (ps: seq<nat>)
    ensures |ps| == |values| && forall j :: 0 <= j < |values| ==> ps[j] == |values[j].lk|
  {
    seq(|values|, j requires 0 <= j < |values| => |values[j].lk|)
  }

  class PrintTable {
    const values: seq<Corona>
    /** The regions of `values`, as the frame of the methods that fill their caches. */
    ghost const regions: set<Corona>
    const datePadding: nat
    var toPrint: seq<seq<string>>      // `to_print`
    var valuePadding: seq<nat>         // `value_padding`

    ghost predicate Valid()
      reads regions
    {
      (forall j :: 0 <= j < |values| ==> values[j] in regions) &&
      forall v :: v in regions ==> v.Valid()
    }

    constructor (values: seq<Corona>)
      requires forall j :: 0 <= j < |values| ==> values[j].Valid()
      ensures Valid() && this.values == values && datePadding == 12
      ensures toPrint == [] && valuePadding == []
    {
      this.values := values;
      regions := set j | 0 <= j < |values| :: values[j];
      datePadding := 12;
      toPrint := [];
      valuePadding := [];
    }

    /** `calc_value_padding`: appends the width of every region's name; a
        second call appends them again. */
    method CalcValuePadding()
      modifies this`valuePadding
      ensures valuePadding == old(valuePadding) + Paddings(values)
    {
      var k := 0;
      while k < |values|
        invariant 0 <= k <= |values|
        invariant valuePadding == old(valuePadding) + Paddings(values)[..k]
      {
        valuePadding := valuePadding + [|values[k].lk|];
        k := k + 1;
      }
      assert Paddings(values)[..k] == Paddings(values);
    }

    /** `print_line`, as the line it would print: the border over the first
        `len(values)` paddings; fewer paddings than regions raise. */
    method PrintLine() returns (r: Result<string>)
      ensures |valuePadding| < |values| ==> r == Err(PaddingMissing)
      ensures |valuePadding| >= |values| ==> r == Ok(Border(datePadding, valuePadding[..|values|]))
    {
      var line := "+" + Dashes(datePadding);
      var i := 0;
      while i < |values|
        invariant 0 <= i <= |values|
        invariant i <= |valuePadding|
        invariant line == Segments([datePadding] + valuePadding[..i])
      {
        if i >= |valuePadding| {
          return Err(PaddingMissing);
        }
        SegmentsSnoc([datePadding] + valuePadding[..i], valuePadding[i]);
        assert [datePadding] + valuePadding[..i + 1] == [datePadding] + valuePadding[..i] + [valuePadding[i]];
        line := line + "+" + Dashes(valuePadding[i]);
        i := i + 1;
      }
      return Ok(line + "+");
    }

    /** `dates`: the first region's `sorted_dates`. */
    method Dates() returns (r: Result<seq<Date>>)
      requires Valid()
      modifies regions
      ensures Valid()
      ensures r == TableDates(values)
      ensures r.Ok? ==> values != [] && values[0].overlaid &&
                        values[0].cleanedDataHistory == RegionCombined(values[0].data, values[0].lk, values[0].today).value
    {
      if values == [] {
        return Err(NoRegions);
      }
      r := values[0].SortedDates();
    }

    /** `valid_dates`. */
    method ValidDates(lastDays: Option<int>) returns (r: Result<seq<Date>>)
      requires Valid()
      modifies regions
      ensures Valid()
      ensures r == match TableDates(values)
                   case Err(e) => Err(e)
                   case Ok(ds) => Ok(LastDays(ds, lastDays))
      ensures r.Ok? ==> values != [] && values[0].overlaid &&
                        values[0].cleanedDataHistory == RegionCombined(values[0].data, values[0].lk, values[0].today).value
    {
      var dates := Dates();
      if dates.Err? {
        return Err(dates.error);
      }
      return Ok(LastDays(dates.value, lastDays));
    }

    /** `lk.calculated_incidence_dict` for the region at position `j`. */
    method RegionDict(j: nat) returns (r: Result<map<Date, int>>)
      requires Valid() && j < |values|
      modifies regions
      ensures Valid() && unchanged(this)
      ensures r == IncidenceDictOf(values[j])
      ensures old(values[0].overlaid) ==> values[0].overlaid
    {
      r := values[j].CalculatedIncidenceDict();
    }

    /** The inner loop of `calc_to_print`: the value of every region at
        `date`, in region order. */
    method RowData(date: Date) returns (r: Result<seq<string>>)
      requires Valid()
      modifies regions
      ensures Valid() && unchanged(this)
      ensures r == RowValues(date, Dicts(values))
      ensures values != [] && old(values[0].overlaid) ==> values[0].overlaid
    {
      ghost var dicts := Dicts(values);
      ghost var firstOverlaid := values != [] && values[0].overlaid;
      var data := [];
      var j := 0;
      while j < |values|
        invariant 0 <= j <= |values|
        invariant Valid()
        invariant firstOverlaid ==> values != [] && values[0].overlaid
        invariant RowValues(date, dicts[..j]) == Ok(data)
      {
        var dict := RegionDict(j);
        RowValuesStep(date, dicts, j);
        if dict.Err? || date !in dict.value {
          RowValuesFailStays(date, dicts, j + 1);
          return if dict.Err? then Err(dict.error) else Err(DateMissing);
        }
        data := data + [FormatTenths(dict.value[date])];
        j := j + 1;
      }
      assert dicts[..j] == dicts;
      return Ok(data);
    }

    /** `calc_to_print`: appends one row per valid date; a failing row
        raises after the rows before it were appended. */
    method CalcToPrint(lastDays: Option<int>) returns (r: Outcome)
      requires Valid()
      modifies this`toPrint, regions
      ensures Valid()
      ensures toPrint == old(toPrint) + CalcToPrintSpec(values, lastDays).rows
      ensures r == CalcToPrintSpec(values, lastDays).outcome
      ensures TableDates(values).Ok? ==>
                values != [] && values[0].overlaid &&
                values[0].cleanedDataHistory == RegionCombined(values[0].data, values[0].lk, values[0].today).value
    {
      var dates := ValidDates(lastDays);
      if dates.Err? {
        return Fail(dates.error);
      }
      TableDatesValid(values);
      var ds: seq<CalendarDate> := dates.value;
      assert CalcToPrintSpec(values, lastDays) == Rows(ds, Dicts(values));
      r := AppendRows(ds);
    }

    /** The loop of `calc_to_print` over the valid dates `ds`. The source
        appends each row to `to_print` as it is built; nothing in the loop
        reads `to_print`, so the rows are gathered here and appended when
        the loop ends or a row raises, which leaves the same list. */
    method AppendRows(ds: seq<CalendarDate>) returns (r: Outcome)
      requires Valid()
      modifies this`toPrint, regions
      ensures Valid()
      ensures toPrint == old(toPrint) + Rows(ds, Dicts(values)).rows
      ensures r == Rows(ds, Dicts(values)).outcome
      ensures values != [] && old(values[0].overlaid) ==> values[0].overlaid
    {
      ghost var dicts := Dicts(values);
      ghost var firstOverlaid := values != [] && values[0].overlaid;
      var rows := [];
      var k := 0;
      while k < |ds|
        invariant 0 <= k <= |ds|
        invariant Valid() && toPrint == old(toPrint)
        invariant firstOverlaid ==> values != [] && values[0].overlaid
        invariant Rows(ds[..k], dicts) == Appended(rows, Pass)
      {
        var date := ds[k];
        var data := RowData(date);
        if data.Err? {
          RowsStop(ds, dicts, k);
          toPrint := toPrint + rows;
          return Fail(data.error);
        }
        var row := [FormatDate(date)] + data.value;
        RowsExtend(ds, dicts, k, row);
        rows := rows + [row];
        k := k + 1;
      }
      assert ds[..k] == ds;
      toPrint := toPrint + rows;
      return Pass;
    }
  }
}
