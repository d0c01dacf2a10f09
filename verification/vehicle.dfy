/**
 The `Vehicle` record of hyundai_kia_connect_api/Vehicle.py, restricted to the
 fields whose property setters do more than store their argument. Each
 setter is a function from the record before the assignment to the record
 after it; a setter that can raise returns a `Result` whose `Failure` means
 the assignment raised and stored nothing.
 */
module Vehicles {
  import opened Wrappers
  import opened Sorting
  import opened Timestamps
  import opened Measures
  import opened Trips
  import opened Lexicographic

  datatype Vehicle = Vehicle(
    measures: Measures,
    geocodeName: Option<string>,
    geocodeAddress: Option<string>,
    lastUpdatedAt: Option<Timestamp>,
    locationLatitude: Option<Reading>,
    locationLongitude: Option<Reading>,
    locationLastSetTime: Option<Timestamp>,
    dailyStats: Option<seq<DailyDrivingStats>>,
    monthTripInfo: Option<MonthTripInfo>,
    dayTripInfo: Option<DayTripInfo>)
  {
    /** The `geocode` getter: `(name, address)`. */
    function Geocode(): (Option<string>, Option<string>) {
      (geocodeName, geocodeAddress)
    }

    /** The `location` getter: `(longitude, latitude)`, the reverse of the setter's order. */
    function Location(): (Option<Reading>, Option<Reading>) {
      (locationLongitude, locationLatitude)
    }

    /** The `location_last_updated_at` getter; it may differ from `lastUpdatedAt`. */
    function LocationLastUpdatedAt(): Option<Timestamp> {
      locationLastSetTime
    }

    /** The getter of a value+unit property: its current value only. */
    function Value(m: Measure): Option<Reading> {
      measures.Get(m).current
    }

    /** The `<name>_unit` getter, for the properties that have one. */
    function Unit(m: Measure): Option<string>
      requires HasUnitGetter(m)
    {
      measures.Get(m).unit
    }
  }

  /** A vehicle as constructed: nothing known yet, an empty `daily_stats` list. */
  const NewVehicle: Vehicle := Vehicle(NoMeasures, None, None, None, None, None, None, Some([]), None, None)

  /** The setter's argument `(name, address)`. */
  datatype Place = Place(name: Option<string>, address: Option<string>)

  /** The `location` setter's argument `(latitude, longitude, time)`; `time` is raw, before parsing. */
  datatype LocationFix<R> = LocationFix(latitude: Option<Reading>, longitude: Option<Reading>, time: R)

  // ---------------------------------------------------------------- value+unit properties

  /** Setter of a value+unit property that stores the value as given. */
  function SetMeasure(v: Vehicle, m: Measure, p: Pair): (r: Vehicle)
    requires StoresVerbatim(m)
    ensures r.Value(m) == p.value
    ensures r.measures.Get(m).raw == p.value
    ensures r.measures.Get(m).unit == p.unit
    ensures HasUnitGetter(m) ==> r.Unit(m) == p.unit
    ensures forall m' :: m' != m ==> r.measures.Get(m') == v.measures.Get(m')
    ensures r.(measures := v.measures) == v
  {
    v.(measures := v.measures.Put(m, Quantity(p.value, p.value, p.unit)))
  }

  /**
   The `air_temperature` setter: as `SetMeasure`, except that the sentinel
   "OFF" is kept as the raw value but read back as no value.
   */
  function SetAirTemperature(v: Vehicle, p: Pair): (r: Vehicle)
    ensures p.value != Some(OffSentinel) ==> r.Value(AirTemperature) == p.value
    ensures p.value == Some(OffSentinel) ==> r.Value(AirTemperature) == None
    ensures r.Value(AirTemperature) != Some(OffSentinel)
    ensures r.measures.Get(AirTemperature).raw == p.value
    ensures r.measures.Get(AirTemperature).unit == p.unit
    ensures forall m' :: m' != AirTemperature ==> r.measures.Get(m') == v.measures.Get(m')
    ensures r.(measures := v.measures) == v
  {
    var current := if p.value != Some(OffSentinel) then p.value else None;
    v.(measures := v.measures.Put(AirTemperature, Quantity(current, p.value, p.unit)))
  }

  /**
   The `odometer` setter: the value first goes through the tolerant float
   parser `getFloat`, and the parsed number is both the current and the raw value.
   */
  function SetOdometer(v: Vehicle, p: Pair, getFloat: Option<Reading> -> Option<real>): (r: Vehicle)
    ensures r.Value(Odometer) == r.measures.Get(Odometer).raw
    ensures r.Value(Odometer).None? <==> getFloat(p.value).None?
    ensures getFloat(p.value).Some? ==> r.Value(Odometer) == Some(Number(getFloat(p.value).value))
    ensures r.Unit(Odometer) == p.unit
    ensures forall m' :: m' != Odometer ==> r.measures.Get(m') == v.measures.Get(m')
    ensures r.(measures := v.measures) == v
  {
    var parsed := match getFloat(p.value)
      case Some(x) => Some(Number(x))
      case None => None;
    v.(measures := v.measures.Put(Odometer, Quantity(parsed, parsed, p.unit)))
  }

  /** Two inputs the float parser reads as the same number set the same odometer ("123.4" and 123.4). */
  lemma OdometerSeesOnlyTheParsedNumber(v: Vehicle, a: Pair, b: Pair, getFloat: Option<Reading> -> Option<real>)
    requires getFloat(a.value) == getFloat(b.value) && a.unit == b.unit
    ensures SetOdometer(v, a, getFloat) == SetOdometer(v, b, getFloat)
  {
  }

  /** Assigning a property twice leaves what the second assignment stored. */
  lemma SetMeasureLastWriteWins(v: Vehicle, m: Measure, p: Pair, q: Pair)
    requires StoresVerbatim(m)
    ensures SetMeasure(SetMeasure(v, m, p), m, q) == SetMeasure(v, m, q)
  {
  }

  /** Assignments to two different properties can be made in either order. */
  lemma SetMeasureCommutes(v: Vehicle, m1: Measure, p1: Pair, m2: Measure, p2: Pair)
    requires StoresVerbatim(m1) && StoresVerbatim(m2) && m1 != m2
    ensures SetMeasure(SetMeasure(v, m1, p1), m2, p2) == SetMeasure(SetMeasure(v, m2, p2), m1, p1)
  {
    PutCommutes(v.measures, m1, Quantity(p1.value, p1.value, p1.unit), m2, Quantity(p2.value, p2.value, p2.unit));
  }

  // ---------------------------------------------------------------- geocode and location

  /** The `geocode` setter: a place sets name and address; `None` clears both. */
  function SetGeocode(v: Vehicle, value: Option<Place>): (r: Vehicle)
    ensures value.Some? ==> r.Geocode() == (value.value.name, value.value.address)
    ensures value.None? ==> r.Geocode() == (None, None)
    ensures r.(geocodeName := v.geocodeName, geocodeAddress := v.geocodeAddress) == v
  {
    match value
    case Some(place) => v.(geocodeName := place.name, geocodeAddress := place.address)
    case None => v.(geocodeName := None, geocodeAddress := None)
  }

  /**
   The `location` setter. Latitude and longitude are stored as given and read
   back in the opposite order; the time is parsed on its own, with no
   effect on `lastUpdatedAt`.
   */
  function SetLocation<R>(v: Vehicle, value: LocationFix<R>, parse: R -> Option<Timestamp>): (r: Vehicle)
    ensures r.Location() == (value.longitude, value.latitude)
    ensures r.LocationLastUpdatedAt() == parse(value.time)
    ensures r.lastUpdatedAt == v.lastUpdatedAt
    ensures r.(locationLatitude := v.locationLatitude, locationLongitude := v.locationLongitude,
               locationLastSetTime := v.locationLastSetTime) == v
  {
    v.(locationLatitude := value.latitude, locationLongitude := value.longitude,
       locationLastSetTime := parse(value.time))
  }

  // ---------------------------------------------------------------- last_updated_at

  /**
   The `last_updated_at` setter: the raw value is parsed by `parse` (absent
   when it cannot be read) and passed through the regression guard.
   */
  function SetLastUpdatedAt<R>(v: Vehicle, raw: R, parse: R -> Option<Timestamp>): (r: Vehicle)
    ensures r.lastUpdatedAt == Reconcile(parse(raw), v.lastUpdatedAt)
    ensures parse(raw).None? ==> r.lastUpdatedAt.None?
    ensures v.lastUpdatedAt.None? ==> r.lastUpdatedAt == parse(raw)
    ensures parse(raw).Some? && v.lastUpdatedAt.Some? ==>
      r.lastUpdatedAt.Some? && !Before(r.lastUpdatedAt.value, v.lastUpdatedAt.value)
    ensures r.(lastUpdatedAt := v.lastUpdatedAt) == v
  {
    v.(lastUpdatedAt := Reconcile(parse(raw), v.lastUpdatedAt))
  }

  // ---------------------------------------------------------------- sorted collections

  /**
   The `daily_stats` setter: a non-empty list is stored sorted newest first;
   an empty or absent one is stored as it is.
   */
  function SetDailyStats(v: Vehicle, value: Option<seq<DailyDrivingStats>>): (r: Result<Vehicle, SortError>)
    ensures r.Failure? <==> value.Some? && SortRaises(value.value, HasDate)
    ensures r.Success? ==> r.value.(dailyStats := v.dailyStats) == v
    ensures r.Success? && (value.None? || value.value == []) ==> r.value.dailyStats == value
    ensures r.Success? && value.Some? ==>
      && r.value.dailyStats.Some?
      && multiset(r.value.dailyStats.value) == multiset(value.value)
      && Stable(value.value, r.value.dailyStats.value, StatsNotOlder)
      && NewestFirst(r.value.dailyStats.value)
  {
    match value
    case None => Success(v.(dailyStats := None))
    case Some(xs) =>
      if |xs| == 0 then Success(v.(dailyStats := value))
      else
        StatsNotOlderIsTotalPreorder();
        match ListSort(xs, StatsNotOlder, HasDate)
        case Failure(e) => Failure(e)
        case Success(s) => Success(v.(dailyStats := Some(s)))
  }

  /** Every entry before another is dated, and no older than it. */
  predicate NewestFirst(s: seq<DailyDrivingStats>) {
    forall i, j :: 0 <= i < j < |s| ==>
      s[i].date.Some? && s[j].date.Some? && !Before(s[i].date.value, s[j].date.value)
  }

  /** Every day entry before another has a day, and no later one. */
  predicate EarliestDayFirst(s: seq<DayTripCounts>) {
    forall i, j :: 0 <= i < j < |s| ==>
      s[i].yyyymmdd.Some? && s[j].yyyymmdd.Some? && StrLe(s[i].yyyymmdd.value, s[j].yyyymmdd.value)
  }

  /** Every trip before another has a time of day, and no earlier one. */
  predicate LatestTripFirst(s: seq<TripInfo>) {
    forall i, j :: 0 <= i < j < |s| ==>
      s[i].hhmmss.Some? && s[j].hhmmss.Some? && StrLe(s[j].hhmmss.value, s[i].hhmmss.value)
  }

  /**
   When the assignment does not raise, the contract above fixes what is
   stored: the one list that is newest first and keeps entries of equal date
   in their given order. Any stable sort, Python's included, produces it.
   */
  lemma SetDailyStatsDeterminedByOrder(v: Vehicle, xs: seq<DailyDrivingStats>, r: seq<DailyDrivingStats>)
    requires !SortRaises(xs, HasDate)
    requires NewestFirst(r) && Stable(xs, r, StatsNotOlder)
    ensures SetDailyStats(v, Some(xs)) == Success(v.(dailyStats := Some(r)))
  {
    StatsNotOlderIsTotalPreorder();
    assert Sorted(r, StatsNotOlder);
    StableSortIsUnique(xs, r, StatsNotOlder);
  }

  /**
   The `month_trip_info` setter: a non-empty `day_list` is stored sorted by
   day, earliest first, the month and summary untouched; an absent value or
   an empty list is stored as it is.
   */
  function SetMonthTripInfo(v: Vehicle, value: Option<MonthTripInfo>): (r: Result<Vehicle, SortError>)
    ensures r.Failure? <==> value.Some? && SortRaises(value.value.dayList, HasDay)
    ensures r.Success? ==> r.value.(monthTripInfo := v.monthTripInfo) == v
    ensures r.Success? && (value.None? || value.value.dayList == []) ==> r.value.monthTripInfo == value
    ensures r.Success? && value.Some? ==>
      && r.value.monthTripInfo.Some?
      && r.value.monthTripInfo.value.yyyymm == value.value.yyyymm
      && r.value.monthTripInfo.value.summary == value.value.summary
      && multiset(r.value.monthTripInfo.value.dayList) == multiset(value.value.dayList)
      && Stable(value.value.dayList, r.value.monthTripInfo.value.dayList, DayNotAfter)
      && EarliestDayFirst(r.value.monthTripInfo.value.dayList)
  {
    match value
    case None => Success(v.(monthTripInfo := None))
    case Some(info) =>
      if |info.dayList| == 0 then Success(v.(monthTripInfo := value))
      else
        DayNotAfterIsTotalPreorder();
        match ListSort(info.dayList, DayNotAfter, HasDay)
        case Failure(e) => Failure(e)
        case Success(s) => Success(v.(monthTripInfo := Some(info.(dayList := s))))
  }

  /**
   When the assignment does not raise, the stored `day_list` is the one list
   that is earliest day first and keeps entries of equal day in their given
   order.
   */
  lemma SetMonthTripInfoDeterminedByOrder(v: Vehicle, info: MonthTripInfo, r: seq<DayTripCounts>)
    requires !SortRaises(info.dayList, HasDay)
    requires EarliestDayFirst(r) && Stable(info.dayList, r, DayNotAfter)
    ensures SetMonthTripInfo(v, Some(info)) == Success(v.(monthTripInfo := Some(info.(dayList := r))))
  {
    DayNotAfterIsTotalPreorder();
    assert Sorted(r, DayNotAfter);
    StableSortIsUnique(info.dayList, r, DayNotAfter);
  }

  /**
   The `day_trip_info` setter: a non-empty `trip_list` is stored sorted by
   time of day, latest first, the day and summary untouched; an absent value
   or an empty list is stored as it is.
   */
  function SetDayTripInfo(v: Vehicle, value: Option<DayTripInfo>): (r: Result<Vehicle, SortError>)
    ensures r.Failure? <==> value.Some? && SortRaises(value.value.tripList, HasTime)
    ensures r.Success? ==> r.value.(dayTripInfo := v.dayTripInfo) == v
    ensures r.Success? && (value.None? || value.value.tripList == []) ==> r.value.dayTripInfo == value
    ensures r.Success? && value.Some? ==>
      && r.value.dayTripInfo.Some?
      && r.value.dayTripInfo.value.yyyymmdd == value.value.yyyymmdd
      && r.value.dayTripInfo.value.summary == value.value.summary
      && multiset(r.value.dayTripInfo.value.tripList) == multiset(value.value.tripList)
      && Stable(value.value.tripList, r.value.dayTripInfo.value.tripList, TripNotEarlier)
      && LatestTripFirst(r.value.dayTripInfo.value.tripList)
  {
    match value
    case None => Success(v.(dayTripInfo := None))
    case Some(info) =>
      if |info.tripList| == 0 then Success(v.(dayTripInfo := value))
      else
        TripNotEarlierIsTotalPreorder();
        match ListSort(info.tripList, TripNotEarlier, HasTime)
        case Failure(e) => Failure(e)
        case Success(s) => Success(v.(dayTripInfo := Some(info.(tripList := s))))
  }

  /**
   When the assignment does not raise, the stored `trip_list` is the one list
   that is latest trip first and keeps trips of equal time in their given
   order.
   */
  lemma SetDayTripInfoDeterminedByOrder(v: Vehicle, info: DayTripInfo, r: seq<TripInfo>)
    requires !SortRaises(info.tripList, HasTime)
    requires LatestTripFirst(r) && Stable(info.tripList, r, TripNotEarlier)
    ensures SetDayTripInfo(v, Some(info)) == Success(v.(dayTripInfo := Some(info.(tripList := r))))
  {
    TripNotEarlierIsTotalPreorder();
    assert Sorted(r, TripNotEarlier);
    StableSortIsUnique(info.tripList, r, TripNotEarlier);
  }
}
