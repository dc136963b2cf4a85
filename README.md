# Seven-day incidence per region, as a verified Dafny model

`main.py` prints a table of COVID-19 incidences for German districts and
states. The `Corona` class runs one region's pipeline over five open-data
datasets:

- resolve the region's `AdmUnitId` by name (`id`);
- resolve its population (`einwohnerzahl`): district, then state, then the
  sum over all states;
- filter the history and snapshot records to that unit
  (`specific_data_history`, `specific_data_actual`);
- map each history record's date to its case count
  (`cleaned_data_history`);
- lay today's snapshot count over that map (`combined_data`);
- sort the dates (`sorted_dates`) and compute a trailing-window incidence
  per date (`calculated_incidence`, `calculated_incidence_dict`).

`PrintTable` takes the first region's dates and keeps the last `n` of them
(`valid_dates`). It computes the value-column widths
(`calc_value_padding`) and the border line (`print_line`). It builds one
row of strings per date, with one value per region (`calc_to_print`).

The model follows the program's structure:

| file | module | what it holds |
|---|---|---|
| `wrappers.dfy` | `Wrappers` | `Option`, `Result`, `Outcome`, and the `Failure` kinds: the exceptions the Python code would raise |
| `decimal.dfy` | `Decimal` | digit strings; `str()` of a one-decimal value held in tenths, and reading it back |
| `dates.dfy` | `Dates` | `(year, month, day)` dates, their order, `str(date)`, the timestamp truncation of `_get_right_datetime`, and `sorted()` of a set of dates |
| `region.dfy` | `Region` | the dataset records; the first-access values of `id`, `einwohnerzahl`, the filters, `cleaned_data_history` and `combined_data`, as functions with their lemmas |
| `incidence.dfy` | `Incidence` | the window sum, `_calc_incidence` in exact tenths, the series and its dict |
| `corona.dfy` | `CoronaRegion` | class `Corona`: the cache fields, filled on first access by loop-based methods, each proved against the functions above |
| `table.dfy` | `Table` | class `PrintTable`: `value_padding` and `to_print` as fields, the loops of `calc_value_padding`, `print_line` and `calc_to_print`, and the lemmas about the rows and the border |

`Corona` keeps the source's cache fields. They are `_id`, `_einwohnerzahl`,
`_specific_data_history`, `_specific_data_actual`, `_cleaned_data_history`
and `_calculated_incidence`. Its `Valid()` states that a filled cache holds
the first-access value. The one exception is `_cleaned_data_history`:
`combined_data` writes today's count into it in place, so after that call it
holds the combined map rather than what its first access returned. A ghost
flag records whether that write has happened. Every method keeps the
invariant. Each method's
`ensures` ties its result to the specification function in `Region`,
`Incidence` or `CoronaRegion`. The lemmas then state what the source
promises about those functions.

What the code does at its edge cases:

- An unknown region name does not raise. `id` gives `None`, and `None`
  matches no record, so the population falls back to the sum over all
  states.
- Several snapshot records for one unit are not rejected. The first one is
  taken.
- A missing snapshot makes `cleaned_data_actual` raise `TypeError`, since it
  indexes `None`. The model gives `Err(SnapshotMissing)`.
- The window is taken by sorted position, so a gap in the dates never
  causes a failed lookup.
- Only a population of exactly 0 fails (`ZeroDivisionError`, modelled as
  `Err(ZeroPopulation)`). A negative population gives a value.

## Model

| member | source | states |
|---|---|---|
| Dates.GetRightDatetimeValid | main.py:171-173 | the date taken from a timestamp is a calendar date |
| Dates.GetRightDatetimeFormat | main.py:171-173 | the truncated date is the date whose `str()` is the stamp's first ten characters, so two stamps give the same date iff they share those characters |
| Dates.TimestampRoundTrip | main.py:171-173 | a stamp made of `str(d)`, any time part and a zone designator truncates back to `d` |
| Dates.FormatDateRoundTrip | main.py:270 | `str(date)` in a row is a well-formed calendar date that reads back as the date |
| Dates.Sorted | main.py:181-183 | `sorted(keys)` lists every key and nothing else, one entry per key |
| Dates.SortedAscending | main.py:181-183 | the sorted keys are in strictly ascending date order |
| Dates.SortedIsTheAscendingListing | main.py:181-183 | any strictly ascending listing of the keys equals `sorted(keys)` |
| Decimal.TenthsRoundTrip | main.py:269 | the string written for an incidence reads back as that incidence, in tenths |
| Region.FindIdSpec | main.py:112-119 | `id` is `None` iff no admin feature has the name; otherwise it is the `AdmUnitId` of the first feature named exactly `lk`, and later duplicates are ignored |
| Region.DistrictPopulationSpec | main.py:125-128 | the district step finds nothing iff no district matches; otherwise it finds the first matching district's `EWZ` |
| Region.StatePopulationSpec | main.py:129-132 | the state step finds nothing iff no state matches; otherwise it finds the first matching state's `LAN_ew_EWZ` |
| Region.PopulationSpec | main.py:121-136 | the first matching district's `EWZ` wins even when a state matches too; failing that, the first matching state's `LAN_ew_EWZ`; failing that, the sum of `LAN_ew_EWZ` over all states |
| Region.FilterHistoryMembers | main.py:138-146 | the region's history holds exactly the records of its unit, and no more records than the dataset |
| Region.FilterHistoryAppend | main.py:142-145 | filtering distributes over concatenation, so the unit's records keep their file order |
| Region.FirstActualSpec | main.py:148-157 | the snapshot is absent iff no record is of the unit; otherwise it is the first such record |
| Region.CleanedHistoryKeys | main.py:159-165 | the cleaned map has one key per date among the records |
| Region.CleanedHistoryLatestWins | main.py:163-164 | a record with no later record of the same date gives that date's count: the later record overwrites |
| Region.LatestRecordWins | main.py:142-164 | of the unit's records with one date, the last in file order gives the count in the cleaned map |
| Region.RegionCombined | main.py:175-179 | a combined map always holds today |
| Region.CombinedDatesValid | main.py:171-179 | every key of the combined map is a calendar date, so `str()` can write it |
| Region.CombinedDataSpec | main.py:159-179 | `combined_data` fails iff no snapshot record matches; its keys are the history dates of the unit plus today; today holds the snapshot's `AnzFallNeu` even when the history had today; every other date holds its last record's count |
| Incidence.SumRangeIsSum | main.py:192-193 | adding the window from its newest position back gives the sum of the slice |
| Incidence.WindowIllnesses | main.py:190-193 | the inner loop computes the window sum: 0 up to position `inzidenz`, then the sum of the `inzidenz + 1` counts ending at `counter` |
| Incidence.WindowSumSlides | main.py:190-193 | moving the window one position on adds the new count and drops the oldest |
| Incidence.WindowSumConstant | main.py:190-193 | a window over constant counts sums to `inzidenz + 1` times the count |
| Incidence.RoundHalfEven | main.py:205 | the quotient rounded to the nearest integer, ties to the even neighbour |
| Incidence.CalcIncidence | main.py:204-205 | the result in tenths is within half a tenth of `illnesses / einwohnerzahl * 100000`; no cases give 0 |
| Incidence.IncidenceSeriesSpec | main.py:189-194 | one pair per sorted date, in order; 0 at the first `inzidenz + 1` positions, and everywhere when `inzidenz < 0` makes the window empty; after them, the scaled sum of the `inzidenz + 1` counts at positions `counter - inzidenz .. counter` |
| Incidence.BuildDict | main.py:197-202 | the dict loop writes the pairs in order |
| Incidence.IncidenceDictSpec | main.py:197-202 | over ascending dates, the dict has exactly those dates as keys and each date's incidence as value |
| Incidence.SortedSeriesDates | main.py:189-194 | over the sorted keys of a case map, the series has one pair per date of the map, strictly ascending |
| Incidence.SortedSeriesLeadingZeros | main.py:190-193 | over the sorted keys, the first `inzidenz + 1` values are 0, and all of them when `inzidenz < 0` |
| Incidence.SortedSeriesDict | main.py:197-202 | the dict of that series has exactly the map's dates as keys |
| Incidence.WorkedExample | main.py:185-205 | nine days of 10 cases in 100000 inhabitants with `inzidenz = 7`: position 7 is 0.0, position 8 is 80.0 |
| CoronaRegion.RegionIncidenceSpec | main.py:185-202 | the incidence fails iff the snapshot is missing or the population is 0, and says which; otherwise one pair per combined date, ascending, 0 at the first `inzidenz + 1` positions (all of them when `inzidenz < 0`), and a dict with exactly the combined dates |
| CoronaRegion.Corona.constructor | main.py:101-110 | every cache starts empty |
| CoronaRegion.Corona.Id | main.py:112-119 | returns the first-match id; caches it only when found, so a miss is searched again on the next call |
| CoronaRegion.Corona.Einwohnerzahl | main.py:121-136 | returns the fallback population and caches it, the sum loop included |
| CoronaRegion.Corona.SpecificDataHistory | main.py:138-146 | appends the unit's records in file order to the empty cache; a non-empty cache is returned as it is |
| CoronaRegion.Corona.SpecificDataActual | main.py:148-157 | returns and caches the first matching snapshot record, later duplicates unread |
| CoronaRegion.Corona.CleanedDataHistory | main.py:159-165 | fills the empty cache with the date-to-count map, date by date; a non-empty cache is returned unchanged |
| CoronaRegion.Corona.CleanedDataActual | main.py:167-169 | `{today: AnzFallNeu}`, or the failure of reading a missing snapshot |
| CoronaRegion.Corona.CombinedData | main.py:175-179 | returns the combined map and writes it into the cached history dict; when the snapshot read raises, the cache is left holding the history map; once written, later calls return the same map and leave the cache as it is |
| CoronaRegion.Corona.SortedDates | main.py:181-183 | the combined map's dates in ascending order, today among them; the history cache then holds the combined map, and stays overlaid once it is |
| CoronaRegion.Corona.CalculatedIncidence | main.py:185-195 | returns the first-access series; on success the history cache holds the combined map, so a later `cleaned_data_history` returns it; once filled, the cache is returned and nothing changes; a failure leaves the cache empty |
| CoronaRegion.Corona.AppendIncidences | main.py:189-194 | appends one pair per date in order; a zero population fails before any pair is appended |
| CoronaRegion.Corona.CalculatedIncidenceDict | main.py:197-202 | the dict of the series, or the series' failure; on success the incidence cache holds the series and the history cache the combined map |
| Table.LastDays | main.py:259-263 | `valid_dates` keeps only dates of `dates` |
| Table.LastDaysSpec | main.py:259-263 | `None` keeps every date; `n > 0` keeps the last `min(n, len)`; `n == 0` keeps every date, since `-0` is `0`; `n < 0` drops the first `-n`; the result is always a suffix |
| Table.RowValuesSpec | main.py:267-269 | a row's values exist iff every region's dict exists and holds the date; they are then one `str()` of the incidence per region, in region order; otherwise the failure is that of the first region at fault |
| Table.RowValuesFailStays | main.py:267-269 | once a region fails, the row fails with that failure |
| Table.RowsPass | main.py:265-270 | the loop runs to its end iff every date is covered by every region; row `i` is then `str(date)` followed by that date's values |
| Table.RowsStopped | main.py:265-270 | a loop that raises has appended the rows of the dates before the first uncovered one, and raises what that date's row raises |
| Table.RowsSpec | main.py:265-270 | the loop runs to its end iff every region's dict holds every date; it then appends one row per date, in order, each `str(date)` then one value per region in region order |
| Table.RowsRoundTrip | main.py:266-270 | every cell of a complete table reads back: the first as the date, the others as the regions' incidences |
| Table.TableDatesValid | main.py:272-274 | every date of the table is a calendar date |
| Table.DictOfCovers | main.py:197-202 | a region with a snapshot and a non-zero population has a dict whose keys are its combined dates |
| Table.TableDatesOfFirst | main.py:272-274 | with a snapshot, the table's dates are the first region's combined dates, ascending |
| Table.CompleteTable | main.py:265-274 | when every region has a snapshot and a non-zero population and holds the first region's dates, `calc_to_print` runs to its end with one row per valid date |
| Table.SegmentsRoundTrip | main.py:232-235 | the `'+' + '-' * w` segments closed by `'+'` read back as the widths |
| Table.BorderRoundTrip | main.py:231-236 | the border line gives back the date column's width and every value column's width, in order |
| Table.PrintTable.constructor | main.py:214-218 | empty `to_print` and `value_padding`, date column width 12 |
| Table.PrintTable.CalcValuePadding | main.py:227-229 | appends every region's name length to `value_padding`; a second call appends them again |
| Table.PrintTable.PrintLine | main.py:231-236 | the border over the first `len(values)` paddings; fewer paddings than regions raise `IndexError` |
| Table.PrintTable.Dates | main.py:272-274 | the first region's `sorted_dates`; an empty region list raises; on success the first region's history cache holds its combined map |
| Table.PrintTable.ValidDates | main.py:259-263 | the last-days slice of `dates`, or the failure of `dates`; on success the first region's history cache holds its combined map |
| Table.PrintTable.RegionDict | main.py:269 | `calculated_incidence_dict` of one region, keeping the first region's overlay |
| Table.PrintTable.RowData | main.py:267-269 | the `str()` of every region's incidence at the date, in region order, or the first region's failure |
| Table.PrintTable.CalcToPrint | main.py:265-270 | appends to `to_print` the rows of the valid dates and reports whether a row raised; whenever the dates exist, the first region's history cache is left holding its combined map |
| Table.PrintTable.AppendRows | main.py:266-270 | appends one row per date in order, and stops at the first date whose row raises |

## Left out

- The `Data` class (`main.py:9-97`): network fetching, JSON decoding, the daily file cache and the deletion of old files are I/O. The five datasets are given as sequences of records holding the fields the core reads.
- `datetime.now()`: the clock is read once, as the `today` of each `Corona` object. The source reads it on every call of `cleaned_data_actual`. The model does not cover a run that crosses midnight.
- `datetime.fromisoformat`: only the truncation is modelled, which drops the last character and keeps the calendar date in `YYYY-MM-DD` form. The other forms the library accepts (basic and week dates in newer Python versions) and the grammar of the time part are not modelled, nor is the `ValueError` it raises on a string it rejects.
- Region.WellFormed: the model requires every record of the history dataset, not only the region's, to carry a `YYYY-MM-DD` calendar date in its first ten characters. The source parses only the `Datum` of the region's own records, so a malformed `Datum` in another unit's record is accepted there and excluded here.
- Incidence.CalcIncidence: the float division and `round(..., 1)` are modelled as exact tenths, rounded half to even. The source rounds the float product. Where the two differ in the last digit, the model does not follow the float.
- Decimal.FormatTenths: it writes `str()` of a one-decimal float. The exponent form for very large or very small values and `-0.0` are not modelled.
- CoronaRegion.Corona.AppendIncidences: the source re-reads `combined_data` and `sorted_dates` for every term of the window. After the first write those calls return the same map and change nothing, as `CombinedData` states, so the model reads the window from the map it was given.
- Table.PrintTable.AppendRows: the source appends each row to `to_print` as it is built. The model appends the rows it has gathered when the loop ends or a row raises. Nothing in the loop reads `to_print`, so the final list and the outcome are the same. The model does not capture the intermediate states.
- The printing methods `print_incidence`, `print_header`, `print_entries` and `print_footer` (`main.py:207-211`, `238-257`): output only. `print_line` is modelled as the line it would print. `print_table` (`main.py:220-225`) is not modelled as a member of its own. It runs `calc_value_padding` and `calc_to_print`, which are modelled as `PrintTable.CalcValuePadding` and `PrintTable.CalcToPrint`, and then these output steps.
- The command line (`main.py:277-287`): argument parsing and the `;` split of region names.
- Concurrency: none in the source.
