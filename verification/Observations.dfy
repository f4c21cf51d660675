/**
 apis/election/lease_observation.go: the two-slot memory of first observations
 and the expiry arithmetic built on it.
 */
module Observations {
  import opened Options
  import opened Leases

  datatype Source = FromCache | FromStore

  datatype Observation = Observation(version: nat, uid: nat, epoch: int, observedAt: int)

  /** The pair of observations kept for one Lease; None is an unknown slot. */
  datatype Slots = Slots(cache: Option<Observation>, store: Option<Observation>) {

    function At(source: Source): Option<Observation> {
      if source == FromCache then cache else store
    }

    function Other(source: Source): Option<Observation> {
      if source == FromCache then store else cache
    }

    function With(source: Source, o: Observation): Slots {
      if source == FromCache then this.(cache := Some(o)) else this.(store := Some(o))
    }
  }

  const NO_SLOTS := Slots(None, None)

  datatype Reading = Reading(left: int, slots: Slots)

  function Max(a: int, b: int): int {
    if a < b then b else a
  }

  /** The Lease carries a term at all: a holder, a renewal and a positive duration. */
  predicate HasTerm(lease: Lease) {
    Holder(Some(lease)) != "" && lease.renewTime.Some? && lease.duration.Some? && lease.duration.value > 0
  }

  /** What was read is older than what the store is known to hold. */
  predicate Superseded(slots: Slots, lease: Lease, source: Source) {
    slots.store.Some? &&
    (|| (lease.uid == slots.store.value.uid && Epoch(Some(lease)) < slots.store.value.epoch)
     || (source == FromCache && lease.uid != slots.store.value.uid))
  }

  predicate SameVersion(o: Option<Observation>, lease: Lease) {
    o.Some? && o.value.uid == lease.uid && o.value.version == lease.version
  }

  /** The observation that the slot of this source holds after the read. */
  function Observed(slots: Slots, lease: Lease, source: Source, elapsed: int): Observation {
    if SameVersion(slots.At(source), lease) then slots.At(source).value
    else if SameVersion(slots.Other(source), lease) then slots.Other(source).value
    else Observation(lease.version, lease.uid, Epoch(Some(lease)), elapsed)
  }

  function Duration(lease: Lease): int {
    lease.duration.GetOr(0) * SECOND
  }

  /** remaining, as a function of the slots of the Lease that was read. */
  function Read(slots: Slots, lease: Option<Lease>, source: Source, elapsed: int): Reading {
    if lease.None? || !HasTerm(lease.value) || Superseded(slots, lease.value, source) then Reading(0, slots)
    else
      var o := Observed(slots, lease.value, source, elapsed);
      Reading(Max(0, Duration(lease.value) - (elapsed - o.observedAt)), slots.With(source, o))
  }

  class LeaseObservations {
    var leases: map<string, Slots>

    constructor ()
      ensures leases == map[]
    {
      leases := map[];
    }

    function SlotsOf(name: string): Slots
      reads this
    {
      if name in leases then leases[name] else NO_SLOTS
    }

    method Remaining(lease: Option<Lease>, source: Source, elapsed: int) returns (left: int)
      modifies this
      ensures lease.None? ==> left == 0 && leases == old(leases)
      ensures lease.Some? ==>
                var reading := Read(old(SlotsOf(lease.value.name)), lease, source, elapsed);
                left == reading.left && SlotsOf(lease.value.name) == reading.slots
      ensures forall n :: lease.None? || n != lease.value.name ==> SlotsOf(n) == old(SlotsOf(n))
    {
      if Holder(lease) == "" || lease.value.renewTime.None? ||
         lease.value.duration.None? || lease.value.duration.value <= 0 {
        return 0;
      }
      var l := lease.value;
      var observations := SlotsOf(l.name);
      var stored := observations.store;
      if stored.Some? {
        if (l.uid == stored.value.uid && Epoch(lease) < stored.value.epoch) ||
           (source == FromCache && l.uid != stored.value.uid) {
          return 0;
        }
      }
      var current, other := observations.At(source), observations.Other(source);
      if current.None? || current.value.uid != l.uid || current.value.version != l.version {
        if other.Some? && other.value.uid == l.uid && other.value.version == l.version {
          current := other;
        } else {
          current := Some(Observation(l.version, l.uid, Epoch(lease), elapsed));
        }
        observations := observations.With(source, current.value);
        leases := leases[l.name := observations];
      }
      var duration := l.duration.value * SECOND;
      left := Max(0, duration - (elapsed - current.value.observedAt));
    }
  }
}
