/**
 The trip-history records of a vehicle and the orders its setters sort them
 in (hyundai_kia_connect_api/Vehicle.py, lines 16-71 and 232-279).
 */
module Trips {
  import opened Wrappers
  import opened Sorting
  import opened Lexicographic
  import opened Timestamps
  import opened Measures

  /** One trip, or the summary of a day or month of trips (which has no `hhmmss`). */
  datatype TripInfo = TripInfo(
    hhmmss: Option<string>,
    driveTime: Option<int>,
    idleTime: Option<int>,
    distance: Option<Reading>,
    avgSpeed: Option<Reading>,
    maxSpeed: Option<int>)

  /** How many trips were made on one day. */
  datatype DayTripCounts = DayTripCounts(yyyymmdd: Option<string>, tripCount: Option<int>)

  /** A month of trips: its summary and one entry per day. */
  datatype MonthTripInfo = MonthTripInfo(yyyymm: Option<string>, summary: Option<TripInfo>, dayList: seq<DayTripCounts>)

  /** A day of trips: its summary and one entry per trip. */
  datatype DayTripInfo = DayTripInfo(yyyymmdd: Option<string>, summary: Option<TripInfo>, tripList: seq<TripInfo>)

  /** Energy use (in watt-hours) and distance driven on one day. */
  datatype DailyDrivingStats = DailyDrivingStats(
    date: Option<Timestamp>,
    totalConsumed: Option<int>,
    engineConsumption: Option<int>,
    climateConsumption: Option<int>,
    onboardElectronicsConsumption: Option<int>,
    batteryCareConsumption: Option<int>,
    regeneratedEnergy: Option<int>,
    distance: Option<Reading>,
    distanceUnit: Option<string>)

  /*
   The sort keys may be `None`. The orders below put `None` first only so that
   they are total; a sort that would compare a `None` key raises instead (see
   `Sorting.SortRaises`), so that placement never shows in a stored list.
   */

  predicate OptionalTextLe(a: Option<string>, b: Option<string>) {
    a.None? || (b.Some? && StrLe(a.value, b.value))
  }

  predicate OptionalTimeLe(a: Option<Timestamp>, b: Option<Timestamp>) {
    a.None? || (b.Some? && !Before(b.value, a.value))
  }

  /** `day_list.sort(key=lambda k: k.yyyymmdd)`: ascending by day. */
  predicate DayNotAfter(a: DayTripCounts, b: DayTripCounts) {
    OptionalTextLe(a.yyyymmdd, b.yyyymmdd)
  }

  /** `trip_list.sort(reverse=True, key=lambda k: k.hhmmss)`: descending by time of day. */
  predicate TripNotEarlier(a: TripInfo, b: TripInfo) {
    OptionalTextLe(b.hhmmss, a.hhmmss)
  }

  /** `daily_stats.sort(reverse=True, key=lambda k: k.date)`: descending by date. */
  predicate StatsNotOlder(a: DailyDrivingStats, b: DailyDrivingStats) {
    OptionalTimeLe(b.date, a.date)
  }

  predicate HasDay(d: DayTripCounts) { d.yyyymmdd.Some? }

  predicate HasTime(t: TripInfo) { t.hhmmss.Some? }

  predicate HasDate(s: DailyDrivingStats) { s.date.Some? }

  lemma OptionalTextLeIsTotalPreorder()
    ensures forall a, b :: OptionalTextLe(a, b) || OptionalTextLe(b, a)
    ensures forall a, b, c :: OptionalTextLe(a, b) && OptionalTextLe(b, c) ==> OptionalTextLe(a, c)
  {
    forall a: Option<string>, b: Option<string>
      ensures OptionalTextLe(a, b) || OptionalTextLe(b, a)
    {
      if a.Some? && b.Some? {
        StrLeTotal(a.value, b.value);
      }
    }
    forall a: Option<string>, b: Option<string>, c: Option<string> | OptionalTextLe(a, b) && OptionalTextLe(b, c)
      ensures OptionalTextLe(a, c)
    {
      if a.Some? {
        StrLeTransitive(a.value, b.value, c.value);
      }
    }
  }

  lemma DayNotAfterIsTotalPreorder()
    ensures TotalPreorder(DayNotAfter)
  {
    OptionalTextLeIsTotalPreorder();
  }

  lemma TripNotEarlierIsTotalPreorder()
    ensures TotalPreorder(TripNotEarlier)
  {
    OptionalTextLeIsTotalPreorder();
  }

  lemma StatsNotOlderIsTotalPreorder()
    ensures TotalPreorder(StatsNotOlder)
  {
  }
}
