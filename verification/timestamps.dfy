/**
 Timezone-aware timestamps and the regression guard applied when the vehicle's
 `last_updated_at` is assigned (hyundai_kia_connect_api/Vehicle.py).
 */
module Timestamps {
  import opened Wrappers

  /**
   An aware datetime: the UTC instant it denotes and its UTC offset, both in
   one unit of time. Naive datetimes (no offset) are not part of this model.
   */
  datatype Timestamp = Timestamp(instant: int, offset: int)

  /** Aware datetimes compare by the instant they denote, whatever their zones. */
  predicate Before(a: Timestamp, b: Timestamp) {
    a.instant < b.instant
  }

  /** `t + t.utcoffset()`: the same zone, with the clock moved on by the offset. */
  function PlusOwnOffset(t: Timestamp): Timestamp {
    Timestamp(t.instant + t.offset, t.offset)
  }

  /**
   The value stored when `newest` (already parsed) is assigned over
   `previous`. Only when both are present and `newest` is earlier is anything
   but `newest` stored: `newest` moved on by its own UTC offset when that
   catches up with `previous`, otherwise `previous` itself.
   */
  function Reconcile(newest: Option<Timestamp>, previous: Option<Timestamp>): (r: Option<Timestamp>)
    ensures newest.None? || previous.None? ==> r == newest
    ensures newest.Some? && previous.Some? && !Before(newest.value, previous.value) ==> r == newest
    ensures newest.Some? && previous.Some? && Before(newest.value, previous.value) ==>
      var corrected := PlusOwnOffset(newest.value);
      && (!Before(corrected, previous.value) ==> r == Some(corrected))
      && (Before(corrected, previous.value) ==> r == previous)
  {
    if newest.Some? && previous.Some? && Before(newest.value, previous.value) then
      var corrected := PlusOwnOffset(newest.value);
      var candidate := if !Before(corrected, previous.value) then corrected else newest.value;
      if Before(candidate, previous.value) then previous else Some(candidate)
    else
      newest
  }

  /**
   Once both values are present the guard never lets the stored timestamp go
   back, and it only ever stores the new value, the new value moved by its
   offset, or the previous value.
   */
  lemma ReconcileNeverRegresses(newest: Option<Timestamp>, previous: Option<Timestamp>)
    requires newest.Some? && previous.Some?
    ensures Reconcile(newest, previous).Some?
    ensures !Before(Reconcile(newest, previous).value, previous.value)
    ensures !Before(Reconcile(newest, previous).value, newest.value)
    ensures Reconcile(newest, previous) in {newest, Some(PlusOwnOffset(newest.value)), previous}
  {
  }

  /** A zero or negative offset never rescues an earlier value: the previous one is kept. */
  lemma NonPositiveOffsetKeepsPrevious(newest: Timestamp, previous: Timestamp)
    requires Before(newest, previous)
    requires newest.offset <= 0
    ensures Reconcile(Some(newest), Some(previous)) == Some(previous)
  {
  }

  /** Assigning the same parsed value twice stores what assigning it once stores. */
  lemma ReconcileIdempotent(newest: Option<Timestamp>, previous: Option<Timestamp>)
    ensures Reconcile(newest, Reconcile(newest, previous)) == Reconcile(newest, previous)
  {
  }

  /** The stored value after assigning `updates` in order, starting from `previous`. */
  function ReconcileAll(previous: Option<Timestamp>, updates: seq<Option<Timestamp>>): Option<Timestamp>
    decreases |updates|
  {
    if updates == [] then previous
    else ReconcileAll(Reconcile(updates[0], previous), updates[1..])
  }

  /**
   Over a run of assignments that all parse, starting from a stored value,
   the final value is no earlier than the starting one nor than any value
   assigned along the way.
   */
  lemma {:induction false} ReconcileAllNeverRegresses(previous: Option<Timestamp>, updates: seq<Option<Timestamp>>)
    requires previous.Some?
    requires forall i :: 0 <= i < |updates| ==> updates[i].Some?
    ensures ReconcileAll(previous, updates).Some?
    ensures !Before(ReconcileAll(previous, updates).value, previous.value)
    ensures forall i :: 0 <= i < |updates| ==> !Before(ReconcileAll(previous, updates).value, updates[i].value)
    decreases |updates|
  {
    if updates != [] {
      var next := Reconcile(updates[0], previous);
      ReconcileNeverRegresses(updates[0], previous);
      ReconcileAllNeverRegresses(next, updates[1..]);
      assert forall i :: 1 <= i < |updates| ==> updates[i] == updates[1..][i - 1];
    }
  }

  /** When the last assignment does not parse, the stored timestamp is cleared, whatever came before. */
  lemma {:induction false} UnparsedLastUpdateClears(previous: Option<Timestamp>, updates: seq<Option<Timestamp>>)
    requires updates != [] && updates[|updates| - 1].None?
    ensures ReconcileAll(previous, updates) == None
    decreases |updates|
  {
    if |updates| > 1 {
      UnparsedLastUpdateClears(Reconcile(updates[0], previous), updates[1..]);
    }
  }
}
