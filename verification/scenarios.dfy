/**
 Concrete assignments and what they store, worked through the model.
 Times are UTC instants in seconds; 36000 is 10:00 UTC on the day the
 scenarios use, and an offset of 7200 is UTC+2.
 */
module Scenarios {
  import opened Wrappers
  import opened Sorting
  import opened Timestamps
  import opened Measures
  import opened Trips
  import opened Vehicles
  import opened Lexicographic

  /** The parser of the scenarios: every raw value is already a timestamp. */
  function Parsed(t: Timestamp): Option<Timestamp> { Some(t) }

  /**
   10:00 UTC is stored, then 09:00 UTC (11:00 local) arrives from a zone two
   hours ahead: moved on by its offset it is 11:00 UTC, which is stored.
   */
  lemma RegressionRescuedByOffset()
    ensures
      var first := SetLastUpdatedAt(NewVehicle, Timestamp(36000, 0), Parsed);
      var second := SetLastUpdatedAt(first, Timestamp(32400, 7200), Parsed);
      second.lastUpdatedAt == Some(Timestamp(39600, 7200))
  {
  }

  /**
   10:00 UTC is stored, then 09:00 local time (07:00 UTC) arrives from a zone
   two hours ahead: moved on by its offset it is 09:00 UTC, still earlier, so
   10:00 UTC is kept.
   */
  lemma LocalRegressionRejected()
    ensures
      var first := SetLastUpdatedAt(NewVehicle, Timestamp(36000, 0), Parsed);
      var second := SetLastUpdatedAt(first, Timestamp(25200, 7200), Parsed);
      second.lastUpdatedAt == Some(Timestamp(36000, 0))
  {
  }

  /**
   10:00 UTC is stored, then 09:00 UTC arrives from a zone half an hour ahead:
   moved on by its offset it is 09:30 UTC, still earlier, so 10:00 UTC is kept.
   */
  lemma RegressionRejected()
    ensures
      var first := SetLastUpdatedAt(NewVehicle, Timestamp(36000, 0), Parsed);
      var second := SetLastUpdatedAt(first, Timestamp(32400, 1800), Parsed);
      second.lastUpdatedAt == Some(Timestamp(36000, 0))
  {
  }

  /** The first timestamp ever assigned is stored as it is, even with an offset. */
  lemma FirstTimestampStoredVerbatim(t: Timestamp)
    ensures SetLastUpdatedAt(NewVehicle, t, Parsed).lastUpdatedAt == Some(t)
  {
  }

  /** Latitude 1 and longitude 2 read back as (2, 1). */
  lemma LocationReadsBackReversed(t: Timestamp)
    ensures
      var v := SetLocation(NewVehicle, LocationFix(Some(Number(1.0)), Some(Number(2.0)), t), Parsed);
      v.Location() == (Some(Number(2.0)), Some(Number(1.0))) && v.LocationLastUpdatedAt() == Some(t)
  {
  }

  /** Climate off: ("OFF", "C") reads back as no temperature, in unit "C". */
  lemma AirTemperatureOff()
    ensures
      var v := SetAirTemperature(NewVehicle, Pair(Some(Text("OFF")), Some("C")));
      v.Value(AirTemperature) == None && v.measures.Get(AirTemperature).unit == Some("C")
      && v.measures.Get(AirTemperature).raw == Some(Text("OFF"))
  {
  }

  /** ("Home", "1 Main St") reads back as it was given; `None` then clears both. */
  lemma GeocodeSetAndCleared()
    ensures
      var v := SetGeocode(NewVehicle, Some(Place(Some("Home"), Some("1 Main St"))));
      v.Geocode() == (Some("Home"), Some("1 Main St")) && SetGeocode(v, None).Geocode() == (None, None)
  {
  }

  function Stat(date: Option<Timestamp>): DailyDrivingStats {
    DailyDrivingStats(date, None, None, None, None, None, None, None, Some("km"))
  }

  /** A single undated entry is never compared, so it is stored; two raise. */
  lemma UndatedStats()
    ensures SetDailyStats(NewVehicle, Some([Stat(None)])) == Success(NewVehicle.(dailyStats := Some([Stat(None)])))
    ensures SetDailyStats(NewVehicle, Some([Stat(None), Stat(Some(Timestamp(0, 0)))])).Failure?
  {
    SetDailyStatsDeterminedByOrder(NewVehicle, [Stat(None)], [Stat(None)]);
    assert !HasDate(Stat(None));
  }

  function Trip(hhmmss: string): TripInfo {
    TripInfo(Some(hhmmss), None, None, None, None, None)
  }

  /** Trips at "090000", "235900", "000100" are stored latest first, the day and summary kept. */
  lemma TripListLatestFirst()
    ensures
      var day := DayTripInfo(Some("20240101"), None, [Trip("090000"), Trip("235900"), Trip("000100")]);
      SetDayTripInfo(NewVehicle, Some(day))
        == Success(NewVehicle.(dayTripInfo := Some(day.(tripList := [Trip("235900"), Trip("090000"), Trip("000100")]))))
  {
    var morning, night, early := Trip("090000"), Trip("235900"), Trip("000100");
    var day := DayTripInfo(Some("20240101"), None, [morning, night, early]);
    var r := [night, morning, early];
    assert StrLe("000100", "090000") && StrLe("090000", "235900") && StrLe("000100", "235900");
    assert !StrLe("235900", "090000");
    assert LatestTripFirst(r);
    TripNotEarlierIsTotalPreorder();
    // the two trips that change places have different times, so no key has both as peers
    assert !Equivalent(morning, night, TripNotEarlier);
    forall y
      ensures Peers(r, y, TripNotEarlier) == Peers([morning, night, early], y, TripNotEarlier)
    {
      assert r[1..] == [morning, early] && [morning, early][1..] == [early] && [early][1..] == [];
      assert [morning, night, early][1..] == [night, early] && [night, early][1..] == [early];
    }
    SetDayTripInfoDeterminedByOrder(NewVehicle, day, r);
  }
}
