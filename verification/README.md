# Vehicle record of hyundai_kia_connect_api, in Dafny

This project models the `Vehicle` record of `hyundai_kia_connect_api/Vehicle.py`.
It covers the property setters that do more than store their argument, and
it proves what they promise. Each setter becomes a pure function from the
record before the assignment to the record after it. A setter that can raise
returns a `Result`, and its `Failure` means that nothing was stored.

- `last_updated_at` runs a regression guard (`Timestamps.Reconcile`). When a
  newly assigned timestamp is earlier than the stored one, it is moved on by
  its own UTC offset. If it is still earlier, the stored one is kept.
- `daily_stats`, `month_trip_info.day_list` and `day_trip_info.trip_list`
  are sorted as they are assigned: newest date first, earliest day first and
  latest trip first. Python's `list.sort` is modelled as a stable insertion
  sort over a total preorder (`Sorting.Sort`). It is proved to return a
  sorted permutation that keeps equal keys in their original order. A sort
  that would compare an absent (`None`) key raises `TypeError` in Python.
  That case is modelled as the error path `Sorting.SortRaises`.
- The value+unit properties (ranges, distances, charge durations, target
  ranges, temperatures) are grouped in `Measures.Measures`. Each one is
  written from one `(value, unit)` pair into three fields: current value,
  raw value and unit. `air_temperature` reads the sentinel `"OFF"` back as
  no value. `odometer` first passes its value through the float parser.
- `location` is stored as (latitude, longitude, time) and read back as
  (longitude, latitude). `geocode` clears name and address on an empty input.
- Python's `str` ordering, which the day and trip sort keys use, is
  `Lexicographic.StrLe`. It is proved to be a total order that agrees with
  the "prefix, or smaller code point at the first difference" rule.

Calls into code the model cannot see become parameters:
- the datetime parser `get_safe_local_datetime` becomes `parse: R -> Option<Timestamp>`;
- the float coercion `get_float` becomes `getFloat: Option<Reading> -> Option<real>`.

A timestamp is an aware datetime, `Timestamp(instant, offset)`. Timestamps
compare by their UTC instant, and `t + t.utcoffset()` moves the instant on
by the offset.

An earlier value that its offset does not rescue is discarded, and the
previous value is kept (lines 422-423).

Sorting with an absent key is not excluded by a precondition. It is modelled
as the exception Python raises. A one-element list is never compared, so it
is stored even when its key is absent.

## Model

| member | source | states |
|---|---|---|
| Timestamps.Reconcile | hyundai_kia_connect_api/Vehicle.py:414-424 | If the new or the previous value is absent, the new one is stored, so an unparsable input clears the field. If the new value is not earlier than the previous, it is stored unshifted. If it is earlier, it is stored moved on by its UTC offset when that is no earlier than the previous; otherwise the previous value is kept. |
| Timestamps.ReconcileNeverRegresses | hyundai_kia_connect_api/Vehicle.py:414-424 | With both values present, the stored value is present and no earlier than either the previous or the new value. It is one of: the new value, the new value plus its offset, or the previous value. |
| Timestamps.NonPositiveOffsetKeepsPrevious | hyundai_kia_connect_api/Vehicle.py:417-423 | An earlier value whose offset is zero or negative never replaces the stored one. |
| Timestamps.ReconcileIdempotent | hyundai_kia_connect_api/Vehicle.py:414-424 | Assigning the same parsed value a second time changes nothing. |
| Timestamps.ReconcileAllNeverRegresses | hyundai_kia_connect_api/Vehicle.py:410-424 | Over a run of assignments that all parse, starting from a stored value, the final value is no earlier than the start or than any value assigned. |
| Timestamps.UnparsedLastUpdateClears | hyundai_kia_connect_api/Vehicle.py:413-424 | If the last assignment of a run does not parse, the field ends up absent, whatever was stored before. |
| Vehicles.SetLastUpdatedAt | hyundai_kia_connect_api/Vehicle.py:410-424 | The setter stores the guard's verdict on the parsed value. An unparsable value clears the field. A first value is stored as parsed. With both values present the result is no earlier than the previous one. No other field changes. |
| Sorting.ConsSorted | hyundai_kia_connect_api/Vehicle.py:237 | A sorted list with an element in front that is `le` its head is still sorted. This is the step the insertion sort uses. |
| Sorting.Insert | hyundai_kia_connect_api/Vehicle.py:237 | Insertion adds exactly one copy of the element: the length grows by one and the multiset gains that element. The head is either the element or the old head. |
| Sorting.Sort | hyundai_kia_connect_api/Vehicle.py:237 | The sort returns a permutation of its input (multiset equality). |
| Sorting.InsertSorted | hyundai_kia_connect_api/Vehicle.py:237 | Under a total preorder, inserting into a sorted list keeps it sorted. |
| Sorting.SortSorts | hyundai_kia_connect_api/Vehicle.py:237 | Under a total preorder, every element of the sorted list is `le` every later one. |
| Sorting.PeersAppend | hyundai_kia_connect_api/Vehicle.py:237 | The equal-key elements of a concatenation are those of the first part followed by those of the second. |
| Sorting.InsertPeers | hyundai_kia_connect_api/Vehicle.py:237 | An inserted element comes before every element with an equal key that was already there. |
| Sorting.SortIsStable | hyundai_kia_connect_api/Vehicle.py:237 | For every key, the elements with that key appear in the sorted list in their input order. This is Python's stability guarantee, which `reverse=True` keeps too. |
| Sorting.ListSort | hyundai_kia_connect_api/Vehicle.py:237 | `list.sort` raises exactly when there are two or more elements and one key is absent. Otherwise it returns a sorted, stable permutation in which every key is present once two or more elements were compared. |
| Sorting.PeersAreEquivalentMembers | hyundai_kia_connect_api/Vehicle.py:237 | Every peer of a key is an element of the sequence with that key. |
| Sorting.HeadIsOwnPeer | hyundai_kia_connect_api/Vehicle.py:237 | The head of a non-empty sequence is the first of its own peers. |
| Sorting.SortedPeersSameHead | hyundai_kia_connect_api/Vehicle.py:237 | Two non-empty sorted sequences with the same peers for every key start with the same element. |
| Sorting.SortedPeersUnique | hyundai_kia_connect_api/Vehicle.py:237 | Two sorted sequences with the same peers for every key are equal: a sorted order that is stable is unique. |
| Sorting.StableSortIsUnique | hyundai_kia_connect_api/Vehicle.py:237 | Any sorted sequence that keeps equal keys in their input order is the insertion sort's result, so every stable sort, Timsort included, returns the same list. |
| Lexicographic.StrLeReflexive | hyundai_kia_connect_api/Vehicle.py:257 | Every string is `<=` itself. |
| Lexicographic.StrLeTotal | hyundai_kia_connect_api/Vehicle.py:257 | Any two strings are comparable. |
| Lexicographic.StrLeTransitive | hyundai_kia_connect_api/Vehicle.py:257 | String `<=` is transitive. |
| Lexicographic.StrLeAntisymmetric | hyundai_kia_connect_api/Vehicle.py:257 | Strings that are each `<=` the other are equal. |
| Lexicographic.StrLeMeansFirstDifferenceSmaller | hyundai_kia_connect_api/Vehicle.py:257 | `a <= b` holds exactly when `a` is a prefix of `b`, or `a` has the smaller code point where they first differ (both directions). |
| Trips.OptionalTextLeIsTotalPreorder | hyundai_kia_connect_api/Vehicle.py:257 | Comparing optional strings, with an absent key first, is total and transitive. |
| Trips.DayNotAfterIsTotalPreorder | hyundai_kia_connect_api/Vehicle.py:257 | Ordering day entries by `yyyymmdd` is a total preorder, so the sort's guarantees apply to it. |
| Trips.TripNotEarlierIsTotalPreorder | hyundai_kia_connect_api/Vehicle.py:277 | Ordering trips by descending `hhmmss` is a total preorder. |
| Trips.StatsNotOlderIsTotalPreorder | hyundai_kia_connect_api/Vehicle.py:237 | Ordering daily stats by descending `date` is a total preorder. |
| Vehicles.SetDailyStats | hyundai_kia_connect_api/Vehicle.py:232-239 | An absent or empty list is stored as it is. A non-empty list is stored as a stable permutation of itself, with every date present and newest first. It raises exactly when two or more entries are given and one has no date. Nothing else changes. |
| Vehicles.SetDailyStatsDeterminedByOrder | hyundai_kia_connect_api/Vehicle.py:232-239 | When the assignment does not raise, any list that is newest first and keeps entries of equal date in their given order is exactly what is stored, so the result of Python's stable sort is pinned down. |
| Vehicles.SetMonthTripInfo | hyundai_kia_connect_api/Vehicle.py:248-259 | An absent value or an empty `day_list` is stored as it is. Otherwise `day_list` is stored as a stable permutation, every day present and earliest first, with `yyyymm` and `summary` untouched. It raises exactly when two or more days are given and one is absent. Nothing else changes. |
| Vehicles.SetMonthTripInfoDeterminedByOrder | hyundai_kia_connect_api/Vehicle.py:248-259 | When the assignment does not raise, any `day_list` that is earliest day first and keeps equal days in their given order is exactly what is stored, with the month and summary kept. |
| Vehicles.SetDayTripInfo | hyundai_kia_connect_api/Vehicle.py:268-279 | An absent value or an empty `trip_list` is stored as it is. Otherwise `trip_list` is stored as a stable permutation, every time present and latest first, with `yyyymmdd` and `summary` untouched. It raises exactly when two or more trips are given and one has no time. Nothing else changes. |
| Vehicles.SetDayTripInfoDeterminedByOrder | hyundai_kia_connect_api/Vehicle.py:268-279 | When the assignment does not raise, any `trip_list` that is latest trip first and keeps trips of equal time in their given order is exactly what is stored, with the day and summary kept. |
| Vehicles.SetMeasure | hyundai_kia_connect_api/Vehicle.py:380-404 | After `(v, u)` is assigned, the getter returns `v`, the raw field holds `v` and the unit field holds `u`, which the `_unit` getter returns where the property has one. No other property or field changes. |
| Vehicles.SetMeasureLastWriteWins | hyundai_kia_connect_api/Vehicle.py:486-490 | A second assignment to a property overrides the first and leaves no trace of it. |
| Vehicles.SetMeasureCommutes | hyundai_kia_connect_api/Vehicle.py:486-596 | Assignments to two different value+unit properties can be made in either order. |
| Measures.PutPut | hyundai_kia_connect_api/Vehicle.py:380-384 | Writing one property's fields twice keeps only the second write. |
| Measures.PutCommutes | hyundai_kia_connect_api/Vehicle.py:380-404 | Writes to the fields of two different properties commute. |
| Vehicles.SetAirTemperature | hyundai_kia_connect_api/Vehicle.py:472-476 | Any value other than `"OFF"` reads back as given. `"OFF"` reads back as absent, so the getter never returns `"OFF"`. The raw field keeps the value, `"OFF"` included, and the unit is stored. Nothing else changes. |
| Vehicles.SetOdometer | hyundai_kia_connect_api/Vehicle.py:454-466 | The current and raw values are both the float parser's result: absent exactly when the parser fails, otherwise that number. `odometer_unit` returns the assigned unit. Nothing else changes. |
| Vehicles.OdometerSeesOnlyTheParsedNumber | hyundai_kia_connect_api/Vehicle.py:461-466 | Two inputs that parse to the same number, with the same unit, set the same odometer. |
| Vehicles.SetGeocode | hyundai_kia_connect_api/Vehicle.py:363-370 | A place sets both name and address, and the getter returns `(name, address)`. An empty input clears both. No other field changes. |
| Vehicles.SetLocation | hyundai_kia_connect_api/Vehicle.py:434-451 | After `(lat, long, t)` is assigned, `location` returns `(long, lat)` and `location_last_updated_at` is the parsed `t`. `last_updated_at` and every other field are unaffected. |
| Scenarios.RegressionRescuedByOffset | hyundai_kia_connect_api/Vehicle.py:416-421 | 10:00 UTC is stored. Then 09:00 UTC carrying offset +2h arrives; it is moved on to 11:00 UTC and stored. |
| Scenarios.LocalRegressionRejected | hyundai_kia_connect_api/Vehicle.py:416-424 | 10:00 UTC is stored. Then 07:00 UTC (09:00 local) carrying offset +2h arrives; moved on it is 09:00 UTC, still earlier, so 10:00 UTC is kept. |
| Scenarios.RegressionRejected | hyundai_kia_connect_api/Vehicle.py:416-424 | 10:00 UTC is stored. Then 09:00 UTC carrying offset +30min arrives; moved on it is 09:30 UTC, still earlier, so 10:00 UTC is kept. |
| Scenarios.FirstTimestampStoredVerbatim | hyundai_kia_connect_api/Vehicle.py:413-424 | The first timestamp ever assigned is stored unshifted, whatever its offset. |
| Scenarios.LocationReadsBackReversed | hyundai_kia_connect_api/Vehicle.py:434-451 | Latitude 1 and longitude 2 read back as `(2, 1)`, with the location time stored. |
| Scenarios.AirTemperatureOff | hyundai_kia_connect_api/Vehicle.py:472-476 | `("OFF", "C")` reads back as no temperature, with raw `"OFF"` and unit `"C"`. |
| Scenarios.GeocodeSetAndCleared | hyundai_kia_connect_api/Vehicle.py:363-370 | `("Home", "1 Main St")` reads back as given. An empty value then clears both. |
| Scenarios.UndatedStats | hyundai_kia_connect_api/Vehicle.py:232-239 | One undated entry is stored. Two entries, one of them undated, raise. |
| Scenarios.TripListLatestFirst | hyundai_kia_connect_api/Vehicle.py:268-279 | Trips at "090000", "235900", "000100" are stored as "235900", "090000", "000100", with the day and summary kept. |

## Left out

- `get_safe_local_datetime` and `get_float` live in `hyundai_kia_connect_api/utils.py`, which is not part of this model. They are parameters, so every property holds for any parser.
- Naive datetimes are left out. For them `utcoffset()` is `None` and line 419 raises; only aware timestamps are modelled.
- `Timestamps.Before` compares UTC instants. Python compares two datetimes that share one `tzinfo` object by wall-clock time, and `t + offset` recomputes the offset of a zone with daylight saving. The two agree for fixed offsets, which the model assumes.
- `Reading` values are exact numbers or text. Python floats, and the ints or strings the API may put in these fields, are not distinguished.
- Python mutates the caller's list in place while sorting, and stores the same object. The model stores a sorted copy, and aliasing is not modelled.
- The `hasattr(result, "day_list")` and `hasattr(result, "trip_list")` tests always hold for the record types modelled here. An object without the attribute is not modelled.
- The geocode input is `Option<Place>`. An empty tuple and `None` (both falsy) are the one `None`. A one-element tuple, which raises `IndexError`, is not modelled.
- A non-tuple or short argument to a value+unit setter, which raises in Python, is not modelled.
- Logging (`_LOGGER.debug`) has no effect on state and is left out.
- The fields with no setter logic (booleans, ints, strings, the `data` debug payload, `timezone`) are left out. So are `CachedVehicleState`, `VehicleLocation`, `TripPeriodType`, `TripDayListItem`, `DISTANCE_UNITS`, and the API-only fields of `TripInfo`.
- `Timestamp.instant` is an unbounded integer. Python datetimes lie between years 1 and 9999, and `newest_updated_at + utcoffset` at line 419 raises `OverflowError` past `datetime.max`. That error is not modelled.
- `day_list` or `trip_list` set to `None` makes `len(...)` at lines 254 and 274 raise `TypeError`. Those lists are plain sequences here, so that error is not modelled.
