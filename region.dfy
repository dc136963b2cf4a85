/** The five datasets as parsed records, and what the `Corona` pipeline
    computes from them for one region on first access: the region's
    unit id, its population, its history records, its snapshot record,
    its date-indexed case map and the map with today's snapshot laid
    over it. */
module Region {
  import opened Wrappers
  import opened Dates

  /** `admin` (the administrative-unit index): `Name`, `AdmUnitId`. */
  datatype AdminFeature = AdminFeature(name: string, admUnitId: int)

  /** `landkreise` (districts): `AdmUnitId`, `EWZ` (population). */
  datatype DistrictFeature = DistrictFeature(admUnitId: int, ewz: int)

  /** `bundeslaender` (states): `AdmUnitId`, `LAN_ew_EWZ` (population). */
  datatype StateFeature = StateFeature(admUnitId: int, lanEwEwz: int)

  /** `history`: `AdmUnitId`, `Datum` (a date-time stamp), `AnzFallVortag` (cases). */
  datatype HistoryEntry = HistoryEntry(admUnitId: int, datum: string, anzFallVortag: int)

  /** `actual` (the latest-day snapshot): `AdmUnitId`, `AnzFallNeu` (cases). */
  datatype ActualEntry = ActualEntry(admUnitId: int, anzFallNeu: int)

  /** The `properties` of every feature of the five datasets, in file order. */
  datatype Data = Data(
    history: seq<HistoryEntry>,
    admin: seq<AdminFeature>,
    actual: seq<ActualEntry>,
    landkreise: seq<DistrictFeature>,
    bundeslaender: seq<StateFeature>)

  predicate AllTimestamps(es: seq<HistoryEntry>) { forall e :: e in es ==> IsTimestamp(e.datum) }

  /** Every `Datum` has a calendar date that `_get_right_datetime` can read. */
  predicate WellFormed(data: Data) { AllTimestamps(data.history) }

  type WellFormedData = data: Data | WellFormed(data) witness Data([], [], [], [], [])

  /** `record['AdmUnitId'] == self.id`; an unresolved region (`None`) matches nothing. */
  predicate Matches(unit: int, id: Option<int>) { id == Some(unit) }

  /** `id`: the `AdmUnitId` of the first admin feature named exactly `lk`. */
  function FindId(admin: seq<AdminFeature>, lk: string): Option<int>
  {
    if admin == [] then None
    else if admin[0].name == lk then Some(admin[0].admUnitId)
    else FindId(admin[1..], lk)
  }

  /** No id exactly when no feature has the name; otherwise the id is that of
      the first feature with the name. */
  lemma {:induction false} FindIdSpec(admin: seq<AdminFeature>, lk: string)
    ensures FindId(admin, lk).None? <==> forall i :: 0 <= i < |admin| ==> admin[i].name != lk
    ensures FindId(admin, lk).Some? ==>
              exists i :: 0 <= i < |admin| && admin[i].name == lk && admin[i].admUnitId == FindId(admin, lk).value &&
                          forall j :: 0 <= j < i ==> admin[j].name != lk
  {
    if admin != [] && admin[0].name != lk {
      var tail := admin[1..];
      FindIdSpec(tail, lk);
      assert forall i :: 0 <= i < |tail| ==> tail[i] == admin[i + 1];
      if FindId(tail, lk).Some? {
        var i :| 0 <= i < |tail| && tail[i].name == lk && tail[i].admUnitId == FindId(tail, lk).value &&
                 forall j :: 0 <= j < i ==> tail[j].name != lk;
        assert admin[i + 1] == tail[i];
        assert forall j :: 0 <= j < i + 1 ==> admin[j].name != lk by {
          forall j | 0 <= j < i + 1 ensures admin[j].name != lk {
            if j > 0 { assert admin[j] == tail[j - 1]; }
          }
        }
      } else {
        forall i | 0 <= i < |admin| ensures admin[i].name != lk {
          if i > 0 { assert admin[i] == tail[i - 1]; }
        }
      }
    }
  }

  /** The total of `LAN_ew_EWZ` over the states, added up in file order. */
  function SumStates(states: seq<StateFeature>): int
  {
    if states == [] then 0 else SumStates(states[..|states| - 1]) + states[|states| - 1].lanEwEwz
  }

  lemma SumStatesStep(states: seq<StateFeature>, k: nat)
    requires k < |states|
    ensures SumStates(states[..k + 1]) == SumStates(states[..k]) + states[k].lanEwEwz
  {
    assert states[..k + 1][..k] == states[..k];
  }

  /** The `EWZ` of the first district of unit `id`, if any. */
  function DistrictPopulation(districts: seq<DistrictFeature>, id: Option<int>): Option<int>
  {
    if districts == [] then None
    else if Matches(districts[0].admUnitId, id) then Some(districts[0].ewz)
    else DistrictPopulation(districts[1..], id)
  }

  /** The `LAN_ew_EWZ` of the first state of unit `id`, if any. */
  function StatePopulation(states: seq<StateFeature>, id: Option<int>): Option<int>
  {
    if states == [] then None
    else if Matches(states[0].admUnitId, id) then Some(states[0].lanEwEwz)
    else StatePopulation(states[1..], id)
  }

  /** `einwohnerzahl` for a resolved id: the first matching district's
      `EWZ`; failing that, the first matching state's `LAN_ew_EWZ`;
      failing that, the sum over all states. */
  function Population(data: Data, id: Option<int>): int
  {
    match DistrictPopulation(data.landkreise, id)
    case Some(n) => n
    case None =>
      match StatePopulation(data.bundeslaender, id)
      case Some(n) => n
      case None => SumStates(data.bundeslaender)
  }

  lemma {:induction false} DistrictPopulationSpec(districts: seq<DistrictFeature>, id: Option<int>)
    ensures DistrictPopulation(districts, id).None? <==> forall i :: 0 <= i < |districts| ==> !Matches(districts[i].admUnitId, id)
    ensures forall i :: 0 <= i < |districts| && Matches(districts[i].admUnitId, id) &&
                        (forall j :: 0 <= j < i ==> !Matches(districts[j].admUnitId, id))
                        ==> DistrictPopulation(districts, id) == Some(districts[i].ewz)
  {
    if districts != [] && !Matches(districts[0].admUnitId, id) {
      var tail := districts[1..];
      DistrictPopulationSpec(tail, id);
      forall i | 0 <= i < |districts| && Matches(districts[i].admUnitId, id) &&
                 (forall j :: 0 <= j < i ==> !Matches(districts[j].admUnitId, id))
        ensures DistrictPopulation(districts, id) == Some(districts[i].ewz)
      {
        assert tail[i - 1] == districts[i];
        forall j | 0 <= j < i - 1 ensures !Matches(tail[j].admUnitId, id) {
          assert tail[j] == districts[j + 1];
        }
      }
      forall i | 0 <= i < |tail| ensures tail[i] == districts[i + 1] { }
    }
  }

  lemma {:induction false} StatePopulationSpec(states: seq<StateFeature>, id: Option<int>)
    ensures StatePopulation(states, id).None? <==> forall i :: 0 <= i < |states| ==> !Matches(states[i].admUnitId, id)
    ensures forall i :: 0 <= i < |states| && Matches(states[i].admUnitId, id) &&
                        (forall j :: 0 <= j < i ==> !Matches(states[j].admUnitId, id))
                        ==> StatePopulation(states, id) == Some(states[i].lanEwEwz)
  {
    if states != [] && !Matches(states[0].admUnitId, id) {
      var tail := states[1..];
      StatePopulationSpec(tail, id);
      forall i | 0 <= i < |states| && Matches(states[i].admUnitId, id) &&
                 (forall j :: 0 <= j < i ==> !Matches(states[j].admUnitId, id))
        ensures StatePopulation(states, id) == Some(states[i].lanEwEwz)
      {
        assert tail[i - 1] == states[i];
        forall j | 0 <= j < i - 1 ensures !Matches(tail[j].admUnitId, id) {
          assert tail[j] == states[j + 1];
        }
      }
      forall i | 0 <= i < |tail| ensures tail[i] == states[i + 1] { }
    }
  }

  /** The population is the first matching district's, else the first
      matching state's, else the sum over all states. */
  lemma PopulationSpec(data: Data, id: Option<int>)
    ensures forall i :: 0 <= i < |data.landkreise| && Matches(data.landkreise[i].admUnitId, id) &&
                        (forall j :: 0 <= j < i ==> !Matches(data.landkreise[j].admUnitId, id))
                        ==> Population(data, id) == data.landkreise[i].ewz
    ensures (forall i :: 0 <= i < |data.landkreise| ==> !Matches(data.landkreise[i].admUnitId, id)) ==>
              forall i :: 0 <= i < |data.bundeslaender| && Matches(data.bundeslaender[i].admUnitId, id) &&
                          (forall j :: 0 <= j < i ==> !Matches(data.bundeslaender[j].admUnitId, id))
                          ==> Population(data, id) == data.bundeslaender[i].lanEwEwz
    ensures (forall i :: 0 <= i < |data.landkreise| ==> !Matches(data.landkreise[i].admUnitId, id)) &&
            (forall i :: 0 <= i < |data.bundeslaender| ==> !Matches(data.bundeslaender[i].admUnitId, id))
            ==> Population(data, id) == SumStates(data.bundeslaender)
  {
    DistrictPopulationSpec(data.landkreise, id);
    StatePopulationSpec(data.bundeslaender, id);
  }

  /** `specific_data_history`: the history records of unit `id`, in file order. */
  function FilterHistory(history: seq<HistoryEntry>, id: Option<int>): seq<HistoryEntry>
  {
    if history == [] then []
    else
      var init, last := history[..|history| - 1], history[|history| - 1];
      FilterHistory(init, id) + (if Matches(last.admUnitId, id) then [last] else [])
  }

  /** The filter keeps exactly the records of unit `id`, and no more of them. */
  lemma {:induction false} FilterHistoryMembers(history: seq<HistoryEntry>, id: Option<int>)
    ensures |FilterHistory(history, id)| <= |history|
    ensures forall e :: e in FilterHistory(history, id) <==> e in history && Matches(e.admUnitId, id)
  {
    if history != [] {
      var init, last := history[..|history| - 1], history[|history| - 1];
      assert history == init + [last];
      FilterHistoryMembers(init, id);
    }
  }

  lemma FilterHistoryStep(history: seq<HistoryEntry>, id: Option<int>, k: nat)
    requires k < |history|
    ensures FilterHistory(history[..k + 1], id) ==
            FilterHistory(history[..k], id) + (if Matches(history[k].admUnitId, id) then [history[k]] else [])
  {
    assert history[..k + 1][..k] == history[..k];
  }

  /** Filtering distributes over concatenation, so it keeps the file order. */
  lemma {:induction false} FilterHistoryAppend(a: seq<HistoryEntry>, b: seq<HistoryEntry>, id: Option<int>)
    ensures FilterHistory(a + b, id) == FilterHistory(a, id) + FilterHistory(b, id)
  {
    if b == [] {
      assert a + b == a;
    } else {
      var init, last := b[..|b| - 1], b[|b| - 1];
      var ab := a + b;
      assert ab[..|ab| - 1] == a + init;
      assert ab[|ab| - 1] == last;
      var tail := if Matches(last.admUnitId, id) then [last] else [];
      assert FilterHistory(ab, id) == FilterHistory(a + init, id) + tail;
      assert FilterHistory(b, id) == FilterHistory(init, id) + tail;
      FilterHistoryAppend(a, init, id);
      assert FilterHistory(a, id) + FilterHistory(init, id) + tail ==
             FilterHistory(a, id) + (FilterHistory(init, id) + tail);
    }
  }

  /** `specific_data_actual`: the first snapshot record of unit `id`, if any. */
  function FirstActual(actual: seq<ActualEntry>, id: Option<int>): Option<ActualEntry>
  {
    if actual == [] then None
    else if Matches(actual[0].admUnitId, id) then Some(actual[0])
    else FirstActual(actual[1..], id)
  }

  /** No record exactly when no record is of unit `id`; otherwise the
      first such record. */
  lemma {:induction false} FirstActualSpec(actual: seq<ActualEntry>, id: Option<int>)
    ensures FirstActual(actual, id).None? <==> forall i :: 0 <= i < |actual| ==> !Matches(actual[i].admUnitId, id)
    ensures FirstActual(actual, id).Some? ==>
              exists i :: 0 <= i < |actual| && actual[i] == FirstActual(actual, id).value &&
                          Matches(actual[i].admUnitId, id) &&
                          forall j :: 0 <= j < i ==> !Matches(actual[j].admUnitId, id)
  {
    if actual != [] && !Matches(actual[0].admUnitId, id) {
      var tail := actual[1..];
      FirstActualSpec(tail, id);
      assert forall i :: 0 <= i < |tail| ==> tail[i] == actual[i + 1];
      if FirstActual(tail, id).Some? {
        var i :| 0 <= i < |tail| && tail[i] == FirstActual(tail, id).value && Matches(tail[i].admUnitId, id) &&
                 forall j :: 0 <= j < i ==> !Matches(tail[j].admUnitId, id);
        assert actual[i + 1] == tail[i];
        forall j | 0 <= j < i + 1 ensures !Matches(actual[j].admUnitId, id) {
          if j > 0 { assert actual[j] == tail[j - 1]; }
        }
      } else {
        forall i | 0 <= i < |actual| ensures !Matches(actual[i].admUnitId, id) {
          if i > 0 { assert actual[i] == tail[i - 1]; }
        }
      }
    }
  }

  function DateOf(e: HistoryEntry): Date
    requires IsTimestamp(e.datum)
  {
    GetRightDatetime(e.datum)
  }

  /** `cleaned_data_history`: each record's date mapped to its `AnzFallVortag`,
      a later record overwriting an earlier one of the same date. */
  function CleanedHistory(es: seq<HistoryEntry>): map<Date, int>
    requires AllTimestamps(es)
  {
    if es == [] then map[]
    else
      var init, last := es[..|es| - 1], es[|es| - 1];
      assert es == init + [last];
      CleanedHistory(init)[DateOf(last) := last.anzFallVortag]
  }

  /** The map has one key per date that occurs among the records. */
  lemma {:induction false} CleanedHistoryKeys(es: seq<HistoryEntry>)
    requires AllTimestamps(es)
    ensures CleanedHistory(es).Keys == set e | e in es :: DateOf(e)
  {
    if es != [] {
      var init, last := es[..|es| - 1], es[|es| - 1];
      assert es == init + [last];
      CleanedHistoryKeys(init);
    }
  }

  lemma CleanedHistorySnoc(es: seq<HistoryEntry>, e: HistoryEntry)
    requires AllTimestamps(es) && IsTimestamp(e.datum)
    ensures AllTimestamps(es + [e])
    ensures CleanedHistory(es + [e]) == CleanedHistory(es)[DateOf(e) := e.anzFallVortag]
  {
    assert (es + [e])[..|es|] == es;
  }

  lemma CleanedHistoryStep(es: seq<HistoryEntry>, k: nat)
    requires AllTimestamps(es) && k < |es|
    ensures AllTimestamps(es[..k]) && AllTimestamps(es[..k + 1])
    ensures CleanedHistory(es[..k + 1]) == CleanedHistory(es[..k])[DateOf(es[k]) := es[k].anzFallVortag]
  {
    assert es[..k + 1][..k] == es[..k];
  }

  /** Of several records with one date, the last gives the count. */
  lemma {:induction false} CleanedHistoryLatestWins(es: seq<HistoryEntry>, i: nat)
    requires AllTimestamps(es) && i < |es|
    requires forall j :: i < j < |es| ==> DateOf(es[j]) != DateOf(es[i])
    ensures DateOf(es[i]) in CleanedHistory(es) && CleanedHistory(es)[DateOf(es[i])] == es[i].anzFallVortag
  {
    hide IsTimestamp;
    var init, last := es[..|es| - 1], es[|es| - 1];
    assert es == init + [last];
    CleanedHistorySnoc(init, last);
    if i < |es| - 1 {
      assert init[i] == es[i];
      assert DateOf(last) != DateOf(es[i]);
      forall j | i < j < |init| ensures DateOf(init[j]) != DateOf(init[i]) {
        assert init[j] == es[j];
      }
      CleanedHistoryLatestWins(init, i);
    }
  }

  /** `dict.update` with a one-entry dict writes that one entry. */
  lemma MergeSingleton(m: map<Date, int>, d: Date, n: int)
    ensures m + map[d := n] == m[d := n]
  {
  }

  /** Writing one entry twice is writing it once. */
  lemma UpdateTwice(m: map<Date, int>, d: Date, n: int)
    ensures m[d := n][d := n] == m[d := n]
  {
  }

  function RegionId(data: Data, lk: string): Option<int> { FindId(data.admin, lk) }

  function RegionPopulation(data: Data, lk: string): int { Population(data, RegionId(data, lk)) }

  function RegionHistory(data: Data, lk: string): (r: seq<HistoryEntry>)
    requires WellFormed(data)
    ensures AllTimestamps(r)
  {
    FilterHistoryMembers(data.history, RegionId(data, lk));
    FilterHistory(data.history, RegionId(data, lk))
  }

  function RegionSnapshot(data: Data, lk: string): Option<ActualEntry> { FirstActual(data.actual, RegionId(data, lk)) }

  function HistoryMap(data: Data, lk: string): map<Date, int>
    requires WellFormed(data)
  {
    CleanedHistory(RegionHistory(data, lk))
  }

  /** `combined_data` on first access with clock reading `today`: the
      history map with today's snapshot count written over it; reading
      the count of a missing snapshot raises. */
  function RegionCombined(data: Data, lk: string, today: Date): (r: Result<map<Date, int>>)
    requires WellFormed(data)
    ensures r.Ok? ==> today in r.value
  {
    match RegionSnapshot(data, lk)
    case None => Err(SnapshotMissing)
    case Some(a) => Ok(HistoryMap(data, lk)[today := a.anzFallNeu])
  }

  /** With a clock reading that is a calendar date, every key of the
      combined map is one, so `str()` can write it. */
  lemma CombinedDatesValid(data: Data, lk: string, today: Date)
    requires WellFormed(data) && ValidDate(today)
    ensures RegionCombined(data, lk, today).Ok? ==>
              forall d :: d in RegionCombined(data, lk, today).value ==> ValidDate(d)
  {
    var f := RegionHistory(data, lk);
    CleanedHistoryKeys(f);
    forall e | e in f ensures ValidDate(DateOf(e)) {
      GetRightDatetimeValid(e.datum);
    }
  }

  /** The dates of the history records of unit `id`. */
  function HistoryDates(data: Data, id: Option<int>): set<Date>
    requires WellFormed(data)
  {
    set e | e in data.history && Matches(e.admUnitId, id) :: DateOf(e)
  }

  /** Filtering keeps the records that carry timestamps. */
  lemma FilterHistoryTimestamps(h: seq<HistoryEntry>, id: Option<int>)
    requires AllTimestamps(h)
    ensures AllTimestamps(FilterHistory(h, id))
  {
    FilterHistoryMembers(h, id);
  }

  /** The case map of the filtered records, one record at a time. */
  lemma CleanedFilterSnoc(h: seq<HistoryEntry>, id: Option<int>)
    requires AllTimestamps(h) && h != []
    ensures AllTimestamps(h[..|h| - 1])
    ensures AllTimestamps(FilterHistory(h[..|h| - 1], id)) && AllTimestamps(FilterHistory(h, id))
    ensures CleanedHistory(FilterHistory(h, id)) ==
            if Matches(h[|h| - 1].admUnitId, id)
            then CleanedHistory(FilterHistory(h[..|h| - 1], id))[DateOf(h[|h| - 1]) := h[|h| - 1].anzFallVortag]
            else CleanedHistory(FilterHistory(h[..|h| - 1], id))
  {
    var init, last := h[..|h| - 1], h[|h| - 1];
    assert h == init + [last];
    FilterHistoryTimestamps(init, id);
    var f := FilterHistory(init, id);
    if Matches(last.admUnitId, id) {
      CleanedHistorySnoc(f, last);
    } else {
      assert f + [] == f;
    }
  }

  /** Of several matching history records with one date, the last in file
      order gives the count. */
  lemma {:induction false} LatestRecordWins(h: seq<HistoryEntry>, id: Option<int>, i: nat)
    requires AllTimestamps(h)
    requires i < |h| && Matches(h[i].admUnitId, id)
    requires forall j :: i < j < |h| && Matches(h[j].admUnitId, id) ==> DateOf(h[j]) != DateOf(h[i])
    ensures AllTimestamps(FilterHistory(h, id))
    ensures DateOf(h[i]) in CleanedHistory(FilterHistory(h, id)) &&
            CleanedHistory(FilterHistory(h, id))[DateOf(h[i])] == h[i].anzFallVortag
  {
    CleanedFilterSnoc(h, id);
    if i < |h| - 1 {
      var init := h[..|h| - 1];
      assert init[i] == h[i];
      LatestRecordWins(init, id, i);
    }
  }

  /** What `combined_data` gives on first access: it fails
      exactly when no snapshot record matches; its keys are the dates of
      the region's history records plus today; today holds the snapshot's
      `AnzFallNeu` whether or not the history had today; every other date
      holds the count of its last history record. */
  lemma CombinedDataSpec(data: Data, lk: string, today: Date)
    requires WellFormed(data)
    ensures RegionCombined(data, lk, today).Err? <==>
              forall i :: 0 <= i < |data.actual| ==> !Matches(data.actual[i].admUnitId, RegionId(data, lk))
    ensures RegionCombined(data, lk, today).Ok? ==>
              RegionCombined(data, lk, today).value.Keys == HistoryDates(data, RegionId(data, lk)) + {today}
    ensures RegionCombined(data, lk, today).Ok? ==>
              RegionCombined(data, lk, today).value[today] == RegionSnapshot(data, lk).value.anzFallNeu
    ensures forall i :: 0 <= i < |data.history| && Matches(data.history[i].admUnitId, RegionId(data, lk)) &&
                        DateOf(data.history[i]) != today &&
                        (forall j :: i < j < |data.history| && Matches(data.history[j].admUnitId, RegionId(data, lk))
                                     ==> DateOf(data.history[j]) != DateOf(data.history[i]))
                        ==> RegionCombined(data, lk, today).Ok? ==>
                              RegionCombined(data, lk, today).value[DateOf(data.history[i])] == data.history[i].anzFallVortag
  {
    var id := RegionId(data, lk);
    var f := RegionHistory(data, lk);
    FirstActualSpec(data.actual, id);
    FilterHistoryMembers(data.history, id);
    CleanedHistoryKeys(f);
    assert HistoryMap(data, lk).Keys == HistoryDates(data, id) by {
      forall d ensures d in HistoryMap(data, lk).Keys <==> d in HistoryDates(data, id) {
        if d in HistoryDates(data, id) {
          var e :| e in data.history && Matches(e.admUnitId, id) && DateOf(e) == d;
          assert e in f;
        }
      }
    }
    forall i | 0 <= i < |data.history| && Matches(data.history[i].admUnitId, id) &&
               (forall j :: i < j < |data.history| && Matches(data.history[j].admUnitId, id)
                            ==> DateOf(data.history[j]) != DateOf(data.history[i]))
      ensures HistoryMap(data, lk)[DateOf(data.history[i])] == data.history[i].anzFallVortag
    {
      LatestRecordWins(data.history, id, i);
    }
  }
}
