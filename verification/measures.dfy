/**
 The vehicle's value+unit measurements (ranges, distances, charge durations,
 target ranges, temperatures). Each is kept as three fields -- the current
 value the getter returns, the raw value as assigned, and the unit -- all
 written together by one setter call from a (value, unit) pair.
 */
module Measures {
  import opened Wrappers

  /**
   A value as the vehicle API delivers it: a number, or text such as the
   sentinel "OFF". Nothing here does arithmetic, so numbers are exact reals.
   */
  datatype Reading = Number(x: real) | Text(s: string)

  /** The climate API's marker for "air control off" in the temperature field. */
  const OffSentinel: Reading := Text("OFF")

  /** The value+unit properties of a vehicle. */
  datatype Measure =
    | TotalDrivingRange
    | Odometer
    | AirTemperature
    | NextServiceDistance
    | LastServiceDistance
    | EvDrivingRange
    | EvEstimatedCurrentChargeDuration
    | EvEstimatedFastChargeDuration
    | EvEstimatedPortableChargeDuration
    | EvEstimatedStationChargeDuration
    | EvTargetRangeChargeAC
    | EvTargetRangeChargeDC
    | EvFirstDepartureClimateTemperature
    | EvSecondDepartureClimateTemperature
    | FuelDrivingRange

  /** Whether the property has a public `<name>_unit` getter; every one stores a unit. */
  predicate HasUnitGetter(m: Measure) {
    m in {TotalDrivingRange, Odometer, EvDrivingRange, EvTargetRangeChargeAC, EvTargetRangeChargeDC,
          EvFirstDepartureClimateTemperature, EvSecondDepartureClimateTemperature}
  }

  /** Whether the setter stores the assigned value unchanged as the current value. */
  predicate StoresVerbatim(m: Measure) {
    m != Odometer && m != AirTemperature
  }

  /** The argument of a value+unit setter: the source's 2-tuple `(value, unit)`. */
  datatype Pair = Pair(value: Option<Reading>, unit: Option<string>)

  /** The three backing fields of one property. */
  datatype Quantity = Quantity(current: Option<Reading>, raw: Option<Reading>, unit: Option<string>)

  const Unset: Quantity := Quantity(None, None, None)

  /** The backing fields of every value+unit property. */
  datatype Measures = Measures(
    totalDrivingRange: Quantity,
    odometer: Quantity,
    airTemperature: Quantity,
    nextServiceDistance: Quantity,
    lastServiceDistance: Quantity,
    evDrivingRange: Quantity,
    evEstimatedCurrentChargeDuration: Quantity,
    evEstimatedFastChargeDuration: Quantity,
    evEstimatedPortableChargeDuration: Quantity,
    evEstimatedStationChargeDuration: Quantity,
    evTargetRangeChargeAC: Quantity,
    evTargetRangeChargeDC: Quantity,
    evFirstDepartureClimateTemperature: Quantity,
    evSecondDepartureClimateTemperature: Quantity,
    fuelDrivingRange: Quantity)
  {
    function Get(m: Measure): Quantity {
      match m
      case TotalDrivingRange => totalDrivingRange
      case Odometer => odometer
      case AirTemperature => airTemperature
      case NextServiceDistance => nextServiceDistance
      case LastServiceDistance => lastServiceDistance
      case EvDrivingRange => evDrivingRange
      case EvEstimatedCurrentChargeDuration => evEstimatedCurrentChargeDuration
      case EvEstimatedFastChargeDuration => evEstimatedFastChargeDuration
      case EvEstimatedPortableChargeDuration => evEstimatedPortableChargeDuration
      case EvEstimatedStationChargeDuration => evEstimatedStationChargeDuration
      case EvTargetRangeChargeAC => evTargetRangeChargeAC
      case EvTargetRangeChargeDC => evTargetRangeChargeDC
      case EvFirstDepartureClimateTemperature => evFirstDepartureClimateTemperature
      case EvSecondDepartureClimateTemperature => evSecondDepartureClimateTemperature
      case FuelDrivingRange => fuelDrivingRange
    }

    /** Replaces the backing fields of `m` and of no other property. */
    function Put(m: Measure, q: Quantity): (r: Measures)
      ensures r.Get(m) == q
      ensures forall m' :: m' != m ==> r.Get(m') == Get(m')
    {
      match m
      case TotalDrivingRange => this.(totalDrivingRange := q)
      case Odometer => this.(odometer := q)
      case AirTemperature => this.(airTemperature := q)
      case NextServiceDistance => this.(nextServiceDistance := q)
      case LastServiceDistance => this.(lastServiceDistance := q)
      case EvDrivingRange => this.(evDrivingRange := q)
      case EvEstimatedCurrentChargeDuration => this.(evEstimatedCurrentChargeDuration := q)
      case EvEstimatedFastChargeDuration => this.(evEstimatedFastChargeDuration := q)
      case EvEstimatedPortableChargeDuration => this.(evEstimatedPortableChargeDuration := q)
      case EvEstimatedStationChargeDuration => this.(evEstimatedStationChargeDuration := q)
      case EvTargetRangeChargeAC => this.(evTargetRangeChargeAC := q)
      case EvTargetRangeChargeDC => this.(evTargetRangeChargeDC := q)
      case EvFirstDepartureClimateTemperature => this.(evFirstDepartureClimateTemperature := q)
      case EvSecondDepartureClimateTemperature => this.(evSecondDepartureClimateTemperature := q)
      case FuelDrivingRange => this.(fuelDrivingRange := q)
    }
  }

  /** A record with every property unset, as a freshly built vehicle has it. */
  const NoMeasures: Measures := Measures(Unset, Unset, Unset, Unset, Unset, Unset, Unset, Unset,
                                         Unset, Unset, Unset, Unset, Unset, Unset, Unset)

  /** A later write to a property overrides an earlier one; the earlier leaves no trace. */
  lemma PutPut(ms: Measures, m: Measure, q1: Quantity, q2: Quantity)
    ensures ms.Put(m, q1).Put(m, q2) == ms.Put(m, q2)
  {
  }

  /** Writes to two different properties do not interfere: their order is irrelevant. */
  lemma PutCommutes(ms: Measures, m1: Measure, q1: Quantity, m2: Measure, q2: Quantity)
    requires m1 != m2
    ensures ms.Put(m1, q1).Put(m2, q2) == ms.Put(m2, q2).Put(m1, q1)
  {
  }
}
