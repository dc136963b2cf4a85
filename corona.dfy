/** The `Corona` class of `main.py`: one region's pipeline, whose cache
    fields are filled on first access. The clock reading
    `datetime.now().date()` is the date `today` the object is built with. */
module CoronaRegion {
  import opened Wrappers
  import opened Dates
  import opened Region
  import opened Incidence

  /** `calculated_incidence` on first access: one `(date, incidence)` pair
      per date of the combined map, in ascending order; reading the count
      of a missing snapshot raises, and so does dividing by a population
      of 0 (at the first pair, since the map always holds today). */
  function RegionIncidence(data: WellFormedData, lk: string, w: int, today: Date): Result<seq<(Date, int)>>
  {
    match RegionCombined(data, lk, today)
    case Err(e) => Err(e)
    case Ok(m) =>
      if RegionPopulation(data, lk) == 0 then Err(ZeroPopulation)
      else Ok(IncidenceSeries(Sorted(m.Keys), m, w, RegionPopulation(data, lk)))
  }

  /** The promises of `calculated_incidence` and `calculated_incidence_dict`
      on first access: they fail exactly when the snapshot is missing or the
      population is 0; otherwise one pair per date of the combined map, in
      ascending date order; 0 at the first `w + 1` positions, and at all of
      them when `w < 0`; and a dict with exactly the combined map's dates. */
  lemma RegionIncidenceSpec(data: WellFormedData, lk: string, w: int, today: Date)
    ensures RegionIncidence(data, lk, w, today).Err? <==>
              RegionSnapshot(data, lk).None? || RegionPopulation(data, lk) == 0
    ensures RegionIncidence(data, lk, w, today).Err? ==>
              RegionIncidence(data, lk, w, today).error ==
                if RegionSnapshot(data, lk).None? then SnapshotMissing else ZeroPopulation
    ensures RegionIncidence(data, lk, w, today).Ok? ==>
              var m := RegionCombined(data, lk, today).value;
              var s := RegionIncidence(data, lk, w, today).value;
              |s| == |m.Keys| &&
              (forall i, j :: 0 <= i < j < |s| ==> Before(s[i].0, s[j].0)) &&
              (forall d :: d in m <==> exists k :: 0 <= k < |s| && s[k].0 == d) &&
              (forall k :: 0 <= k < |s| && k <= w ==> s[k].1 == 0) &&
              (w < 0 ==> forall k :: 0 <= k < |s| ==> s[k].1 == 0) &&
              Dict(s).Keys == m.Keys
  {
    if RegionIncidence(data, lk, w, today).Ok? {
      var m := RegionCombined(data, lk, today).value;
      SortedSeriesDates(m, w, RegionPopulation(data, lk));
      SortedSeriesLeadingZeros(m, w, RegionPopulation(data, lk));
      SortedSeriesDict(m, w, RegionPopulation(data, lk));
    }
  }

  class Corona {
    const lk: string
    const data: WellFormedData
    const inzidenz: int
    /** The clock reading that `cleaned_data_actual` takes. */
    const today: CalendarDate

    var idCache: Option<int>                      // `_id`
    var einwohnerzahlCache: Option<int>           // `_einwohnerzahl`
    var specificDataHistory: seq<HistoryEntry>    // `_specific_data_history`
    var specificDataActual: Option<ActualEntry>   // `_specific_data_actual`
    var cleanedDataHistory: map<Date, int>        // `_cleaned_data_history`
    var calculatedIncidence: seq<(Date, int)>     // `_calculated_incidence`

    /** Whether `combined_data` has written today's count into `cleanedDataHistory`. */
    ghost var overlaid: bool

    ghost predicate IdOk()
      reads this`idCache
    {
      idCache.Some? ==> idCache == RegionId(data, lk)
    }

    ghost predicate PopulationOk()
      reads this`einwohnerzahlCache
    {
      einwohnerzahlCache.Some? ==> einwohnerzahlCache.value == RegionPopulation(data, lk)
    }

    ghost predicate HistoryOk()
      reads this`specificDataHistory
    {
      specificDataHistory != [] ==> specificDataHistory == RegionHistory(data, lk)
    }

    ghost predicate SnapshotOk()
      reads this`specificDataActual
    {
      specificDataActual.Some? ==> specificDataActual == RegionSnapshot(data, lk)
    }

    /** Before `combined_data` the cache is empty or the history map; after
        it, the combined map. */
    ghost predicate CleanedOk()
      reads this`cleanedDataHistory, this`overlaid
    {
      if overlaid then RegionCombined(data, lk, today) == Ok(cleanedDataHistory)
      else cleanedDataHistory == map[] || cleanedDataHistory == HistoryMap(data, lk)
    }

    /** A filled cache is the first-access series, and filling it wrote
        today's count into the history dict. */
    ghost predicate IncidenceOk()
      reads this`calculatedIncidence, this`overlaid
    {
      calculatedIncidence != [] ==> RegionIncidence(data, lk, inzidenz, today) == Ok(calculatedIncidence) && overlaid
    }

    ghost predicate SeriesOk()
      reads this
    {
      IdOk() && HistoryOk() && SnapshotOk() && CleanedOk()
    }

    ghost predicate Valid()
      reads this
    {
      SeriesOk() && PopulationOk() && IncidenceOk()
    }

    constructor (lk: string, data: WellFormedData, inzidenz: int, today: CalendarDate)
      ensures Valid()
      ensures this.lk == lk && this.data == data && this.inzidenz == inzidenz && this.today == today
      ensures idCache == None && einwohnerzahlCache == None && specificDataActual == None
      ensures specificDataHistory == [] && cleanedDataHistory == map[] && calculatedIncidence == []
    {
      this.lk := lk;
      this.data := data;
      this.inzidenz := inzidenz;
      this.today := today;
      specificDataHistory := [];
      specificDataActual := None;
      cleanedDataHistory := map[];
      idCache := None;
      einwohnerzahlCache := None;
      calculatedIncidence := [];
      overlaid := false;
    }

    /** `id`: the first exact name match; `None` when no feature matches. */
    method Id() returns (r: Option<int>)
      requires IdOk()
      modifies this`idCache
      ensures IdOk()
      ensures r == RegionId(data, lk)
      ensures idCache == if r.Some? then r else old(idCache)
    {
      if idCache.Some? {
        return idCache;
      }
      FindIdSpec(data.admin, lk);
      var k := 0;
      while k < |data.admin|
        invariant 0 <= k <= |data.admin|
        invariant forall j :: 0 <= j < k ==> data.admin[j].name != lk
        invariant idCache == old(idCache) == None
      {
        if data.admin[k].name == lk {
          idCache := Some(data.admin[k].admUnitId);
          return idCache;
        }
        k := k + 1;
      }
      return None;
    }

    /** `einwohnerzahl`: district, then state, then the sum over all states. */
    method Einwohnerzahl() returns (r: int)
      requires IdOk() && PopulationOk()
      modifies this`idCache, this`einwohnerzahlCache
      ensures IdOk() && PopulationOk()
      ensures r == RegionPopulation(data, lk) && einwohnerzahlCache == Some(r)
      ensures idCache == old(idCache) || idCache == RegionId(data, lk)
    {
      if einwohnerzahlCache.Some? {
        return einwohnerzahlCache.value;
      }
      var districts, states := data.landkreise, data.bundeslaender;
      DistrictPopulationSpec(districts, RegionId(data, lk));
      var k := 0;
      while k < |districts|
        invariant 0 <= k <= |districts|
        invariant IdOk() && einwohnerzahlCache == None
        invariant idCache == old(idCache) || idCache == RegionId(data, lk)
        invariant forall j :: 0 <= j < k ==> !Matches(districts[j].admUnitId, RegionId(data, lk))
      {
        var id := Id();
        if Matches(districts[k].admUnitId, id) {
          einwohnerzahlCache := Some(districts[k].ewz);
          return einwohnerzahlCache.value;
        }
        k := k + 1;
      }
      StatePopulationSpec(states, RegionId(data, lk));
      k := 0;
      while k < |states|
        invariant 0 <= k <= |states|
        invariant IdOk() && einwohnerzahlCache == None
        invariant idCache == old(idCache) || idCache == RegionId(data, lk)
        invariant forall j :: 0 <= j < k ==> !Matches(states[j].admUnitId, RegionId(data, lk))
      {
        var id := Id();
        if Matches(states[k].admUnitId, id) {
          einwohnerzahlCache := Some(states[k].lanEwEwz);
          return einwohnerzahlCache.value;
        }
        k := k + 1;
      }
      einwohnerzahlCache := Some(0);
      k := 0;
      while k < |states|
        invariant 0 <= k <= |states|
        modifies this`einwohnerzahlCache
        invariant einwohnerzahlCache == Some(SumStates(states[..k]))
      {
        SumStatesStep(states, k);
        einwohnerzahlCache := Some(einwohnerzahlCache.value + states[k].lanEwEwz);
        k := k + 1;
      }
      assert states[..k] == states;
      return einwohnerzahlCache.value;
    }

    /** `specific_data_history`: the region's history records in file order,
        appended one by one to the cached list. */
    method SpecificDataHistory() returns (r: seq<HistoryEntry>)
      requires IdOk() && HistoryOk()
      modifies this`idCache, this`specificDataHistory
      ensures IdOk() && HistoryOk()
      ensures r == RegionHistory(data, lk) && specificDataHistory == r
      ensures idCache == old(idCache) || idCache == RegionId(data, lk)
    {
      if specificDataHistory != [] {
        return specificDataHistory;
      }
      var history := data.history;
      var k := 0;
      while k < |history|
        invariant 0 <= k <= |history|
        invariant IdOk()
        invariant idCache == old(idCache) || idCache == RegionId(data, lk)
        invariant specificDataHistory == FilterHistory(history[..k], RegionId(data, lk))
      {
        var newEntry := history[k];
        FilterHistoryStep(history, RegionId(data, lk), k);
        var id := Id();
        if Matches(newEntry.admUnitId, id) {
          specificDataHistory := specificDataHistory + [newEntry];
        }
        k := k + 1;
      }
      assert history[..k] == history;
      return specificDataHistory;
    }

    /** `specific_data_actual`: the first matching snapshot record; later
        duplicates are not looked at. */
    method SpecificDataActual() returns (r: Option<ActualEntry>)
      requires IdOk() && SnapshotOk()
      modifies this`idCache, this`specificDataActual
      ensures IdOk() && SnapshotOk()
      ensures r == RegionSnapshot(data, lk)
      ensures specificDataActual == if r.Some? then r else old(specificDataActual)
      ensures idCache == old(idCache) || idCache == RegionId(data, lk)
    {
      if specificDataActual.Some? {
        return specificDataActual;
      }
      var actual := data.actual;
      FirstActualSpec(actual, RegionId(data, lk));
      var k := 0;
      while k < |actual|
        invariant 0 <= k <= |actual|
        invariant IdOk() && specificDataActual == None
        invariant idCache == old(idCache) || idCache == RegionId(data, lk)
        invariant forall j :: 0 <= j < k ==> !Matches(actual[j].admUnitId, RegionId(data, lk))
      {
        var id := Id();
        if Matches(actual[k].admUnitId, id) {
          specificDataActual := Some(actual[k]);
          return specificDataActual;
        }
        k := k + 1;
      }
      return None;
    }

    /** `cleaned_data_history`: the cached dict if it is non-empty, else the
        region's records written into it date by date. */
    method CleanedDataHistory() returns (r: map<Date, int>)
      requires IdOk() && HistoryOk() && CleanedOk()
      modifies this`idCache, this`specificDataHistory, this`cleanedDataHistory
      ensures IdOk() && HistoryOk() && CleanedOk()
      ensures r == cleanedDataHistory
      ensures !overlaid ==> r == HistoryMap(data, lk)
      ensures old(cleanedDataHistory) != map[] ==> r == old(cleanedDataHistory)
      ensures idCache == old(idCache) || idCache == RegionId(data, lk)
    {
      if cleanedDataHistory != map[] {
        return cleanedDataHistory;
      }
      var entries := SpecificDataHistory();
      var k := 0;
      while k < |entries|
        invariant 0 <= k <= |entries|
        modifies this`cleanedDataHistory
        invariant AllTimestamps(entries[..k])
        invariant cleanedDataHistory == CleanedHistory(entries[..k])
      {
        CleanedHistoryStep(entries, k);
        cleanedDataHistory := cleanedDataHistory[DateOf(entries[k]) := entries[k].anzFallVortag];
        k := k + 1;
      }
      assert entries[..k] == entries;
      return cleanedDataHistory;
    }

    /** `cleaned_data_actual`: today mapped to the snapshot's `AnzFallNeu`;
        a missing snapshot raises. */
    method CleanedDataActual() returns (r: Result<map<Date, int>>)
      requires IdOk() && SnapshotOk()
      modifies this`idCache, this`specificDataActual
      ensures IdOk() && SnapshotOk()
      ensures r == match RegionSnapshot(data, lk)
                   case None => Err(SnapshotMissing)
                   case Some(a) => Ok(map[today := a.anzFallNeu])
      ensures idCache == old(idCache) || idCache == RegionId(data, lk)
    {
      var actual := SpecificDataActual();
      if actual.None? {
        return Err(SnapshotMissing);
      }
      return Ok(map[today := actual.value.anzFallNeu]);
    }

    /** `combined_data`: writes today's snapshot count into the cached
        history dict itself and returns that dict; once written, a later
        call gives the same map and leaves the cache as it was. */
    method CombinedData() returns (r: Result<map<Date, int>>)
      requires SeriesOk()
      modifies this`idCache, this`specificDataHistory, this`specificDataActual, this`cleanedDataHistory, this`overlaid
      ensures SeriesOk()
      ensures r == RegionCombined(data, lk, today)
      ensures r.Ok? ==> overlaid && cleanedDataHistory == r.value
      ensures r.Err? && !old(overlaid) ==> cleanedDataHistory == HistoryMap(data, lk)
      ensures old(overlaid) ==> overlaid && cleanedDataHistory == old(cleanedDataHistory)
    {
      var newDict := CleanedDataHistory();
      var actual := CleanedDataActual();
      if actual.Err? {
        return Err(actual.error);
      }
      MergeSingleton(newDict, today, actual.value[today]);
      UpdateTwice(HistoryMap(data, lk), today, actual.value[today]);
      // `new_dict` is the cached dict itself, so the update lands in the cache.
      cleanedDataHistory := newDict + actual.value;
      overlaid := true;
      return Ok(cleanedDataHistory);
    }

    /** `sorted_dates`: the combined map's dates in ascending order. */
    method SortedDates() returns (r: Result<seq<Date>>)
      requires Valid()
      modifies this`idCache, this`specificDataHistory, this`specificDataActual, this`cleanedDataHistory, this`overlaid
      ensures Valid()
      ensures r == match RegionCombined(data, lk, today)
                   case Err(e) => Err(e)
                   case Ok(m) => Ok(Sorted(m.Keys))
      ensures r.Ok? ==> overlaid && cleanedDataHistory == RegionCombined(data, lk, today).value && today in r.value
      ensures old(overlaid) ==> overlaid && cleanedDataHistory == old(cleanedDataHistory)
    {
      var combined := CombinedData();
      if combined.Err? {
        return Err(combined.error);
      }
      return Ok(Sorted(combined.value.Keys));
    }

    /** `calculated_incidence`: the cached series if it is non-empty; else
        one `(date, incidence)` pair per sorted date, appended in order. */
    method CalculatedIncidence() returns (r: Result<seq<(Date, int)>>)
      requires Valid()
      modifies this
      ensures Valid()
      ensures r == RegionIncidence(data, lk, inzidenz, today)
      ensures r.Ok? ==> calculatedIncidence == r.value
      ensures r.Ok? ==> overlaid && cleanedDataHistory == RegionCombined(data, lk, today).value
      ensures r.Err? ==> calculatedIncidence == []
      ensures old(overlaid) ==> overlaid
      ensures old(calculatedIncidence) != [] ==> unchanged(this)
    {
      if calculatedIncidence != [] {
        return Ok(calculatedIncidence);
      }
      var sorted := SortedDates();
      if sorted.Err? {
        return Err(sorted.error);
      }
      r := AppendIncidences(sorted.value, cleanedDataHistory);
    }

    /** The outer loop of `calculated_incidence`: one pair per position of
        `dates`, appended to the empty cache in order; the population is
        read for every pair, so a zero population raises at the first one,
        before anything is appended. The source re-reads `combined_data`
        and `sorted_dates` for every term of the window; once today's count
        is written both return what they returned before and change nothing
        (see `CombinedData`), so the window is read from `combined` here. */
    method AppendIncidences(dates: seq<Date>, combined: map<Date, int>)
      returns (r: Result<seq<(Date, int)>>)
      requires IdOk() && PopulationOk() && calculatedIncidence == []
      requires forall d :: d in dates ==> d in combined
      modifies this`idCache, this`einwohnerzahlCache, this`calculatedIncidence
      ensures IdOk() && PopulationOk()
      ensures r.Err? <==> |dates| > 0 && RegionPopulation(data, lk) == 0
      ensures r.Err? ==> r.error == ZeroPopulation && calculatedIncidence == []
      ensures r.Ok? && |dates| > 0 ==>
                RegionPopulation(data, lk) != 0 &&
                r.value == calculatedIncidence == IncidenceSeries(dates, combined, inzidenz, RegionPopulation(data, lk))
      ensures r.Ok? && |dates| == 0 ==> r.value == calculatedIncidence == []
    {
      ghost var pop := RegionPopulation(data, lk);
      var counter := 0;
      while counter < |dates|
        invariant 0 <= counter <= |dates|
        invariant IdOk() && PopulationOk()
        invariant counter == 0 ==> calculatedIncidence == []
        invariant counter > 0 ==> pop != 0 && calculatedIncidence == IncidenceSeries(dates, combined, inzidenz, pop)[..counter]
      {
        var illnesses := WindowIllnesses(dates, combined, counter, inzidenz);
        var einwohnerzahl := Einwohnerzahl();
        if einwohnerzahl == 0 {
          return Err(ZeroPopulation);
        }
        calculatedIncidence := calculatedIncidence + [(dates[counter], CalcIncidence(illnesses, einwohnerzahl))];
        IncidenceSeriesStep(dates, combined, inzidenz, pop, counter);
        counter := counter + 1;
      }
      if counter > 0 {
        assert calculatedIncidence[..counter] == calculatedIncidence;
      }
      return Ok(calculatedIncidence);
    }

    /** `calculated_incidence_dict`: the series' pairs written into a new dict. */
    method CalculatedIncidenceDict() returns (r: Result<map<Date, int>>)
      requires Valid()
      modifies this
      ensures Valid()
      ensures r == match RegionIncidence(data, lk, inzidenz, today)
                   case Err(e) => Err(e)
                   case Ok(s) => Ok(Dict(s))
      ensures r.Ok? ==> calculatedIncidence == RegionIncidence(data, lk, inzidenz, today).value
      ensures r.Ok? ==> overlaid && cleanedDataHistory == RegionCombined(data, lk, today).value
      ensures old(overlaid) ==> overlaid
      ensures old(calculatedIncidence) != [] ==> unchanged(this)
    {
      var series := CalculatedIncidence();
      if series.Err? {
        return Err(series.error);
      }
      var retVal := BuildDict(series.value);
      return Ok(retVal);
    }
  }
}
