/**
 What an election call must answer, told from the Lease it read and from when this coordinator first
 saw that version: the whole reply, and the whole Lease that it writes.
 */
module Verdicts {
  import opened Options
  import opened Leases
  import opened Observations
  import opened Calls

  predicate Saw(slot: Option<Observation>, lease: Lease) {
    slot.Some? && slot.value.uid == lease.uid && slot.value.version == lease.version
  }

  /** When the coordinator first saw this version, as far as its memory of that source or of the other tells. */
  function FirstSeenAt(slots: Slots, lease: Lease, source: Source, elapsed: int): int {
    var (own, other) := if source == FromCache then (slots.cache, slots.store) else (slots.store, slots.cache);
    if Saw(own, lease) then own.value.observedAt
    else if Saw(other, lease) then other.value.observedAt
    else elapsed
  }

  /** The store is known to hold a later epoch, or, for a cached read, another object. */
  predicate Overtaken(slots: Slots, lease: Lease, source: Source) {
    && slots.store.Some?
    && if slots.store.value.uid == lease.uid then Epoch(Some(lease)) < slots.store.value.epoch else source == FromCache
  }

  /** The Lease has a holder whose time, counted from the first sight of this version, is not over. */
  predicate IsRunning(slots: Slots, lease: Option<Lease>, source: Source, elapsed: int) {
    && lease.Some? && Holder(lease) != "" && lease.value.renewTime.Some?
    && !Overtaken(slots, lease.value, source)
    && elapsed < FirstSeenAt(slots, lease.value, source, elapsed) + lease.value.duration.GetOr(0) * SECOND
    && lease.value.duration.Some? && lease.value.duration.value > 0
  }

  lemma RemainingIsRunning(slots: Slots, lease: Option<Lease>, source: Source, elapsed: int)
    ensures Read(slots, lease, source, elapsed).left > 0 <==> IsRunning(slots, lease, source, elapsed)
    ensures Read(slots, lease, source, elapsed).left >= 0
    ensures IsRunning(slots, lease, source, elapsed) ==> lease.Some?
  {
  }

  // ----- replies -----

  function Seconds(lease: Option<Lease>): int {
    if lease.Some? && lease.value.duration.Some? then lease.value.duration.value else 30
  }

  /** The incumbent is told only while its time runs. */
  function DefeatBy(id: string, lease: Option<Lease>, running: bool): Result {
    Result(Defeat, id, if running then Holder(lease) else "", 3, Seconds(lease), Epoch(lease))
  }

  function SuccessWith(id: string, written: Lease): Result {
    Result(Success, id, Holder(Some(written)), 3, Seconds(Some(written)), Epoch(Some(written)))
  }

  /** A campaign goes through when nobody's time runs, a heartbeat while the caller's own time does. */
  predicate GoesThrough(op: Operation, id: string, lease: Option<Lease>, running: bool) {
    match op
    case Campaign => !running
    case Heartbeat => running && Holder(lease) == id
  }

  /** A campaign takes or creates the Lease for a full duration, one epoch later. */
  predicate IsTaken(name: string, id: string, base: Option<Lease>, written: Lease) {
    && written.holder == Some(id) && written.duration == Some(30)
    && written.renewTime.Some? && written.acquireTime == written.renewTime
    && written.transitions == Some(ToInt32(Epoch(base) + 1))
    && (base.Some? ==> (written.name, written.uid, written.version) ==
                       (base.value.name, base.value.uid, base.value.version))
    && (base.None? ==> written.name == name)
  }

  /** A heartbeat moves the renew time and nothing else. */
  predicate IsRenewed(base: Option<Lease>, written: Lease) {
    base.Some? && written.renewTime.Some? && written == base.value.(renewTime := written.renewTime)
  }

  predicate IsProposal(name: string, op: Operation, id: string, base: Option<Lease>, written: Lease) {
    match op
    case Campaign => IsTaken(name, id, base, written)
    case Heartbeat => IsRenewed(base, written)
  }

  lemma ProposalIsFit(name: string, op: Operation, id: string, base: Option<Lease>, wall: int, running: bool)
    requires GoesThrough(op, id, base, running) && (running ==> base.Some?)
    ensures IsProposal(name, op, id, base, Proposal(op, name, id, base, wall))
    ensures Proposal(op, name, id, base, wall).renewTime == Some(wall)
  {
  }

  // ----- the critical sections -----

  /** From the cache a call is only turned down, and only for someone else's running time. */
  lemma CacheVerdict(op: Operation, id: string, lease: Option<Lease>, elapsed: int, slots: Slots)
    ensures var running := IsRunning(slots, lease, FromCache, elapsed);
            DecideCache(Elect(op, id), lease, elapsed, slots).0 ==
            if running && (op == Campaign || Holder(lease) != id)
            then Done(Answered(DefeatBy(id, lease, true), lease)) else ReadStore(0)
  {
    RemainingIsRunning(slots, lease, FromCache, elapsed);
  }

  /** From the store it is turned down exactly when it may not go through, and else it writes. */
  lemma StoreVerdict(name: string, op: Operation, id: string, attempt: nat, lease: Option<Lease>, elapsed: int,
        wall: int, slots: Slots)
    ensures var running := IsRunning(slots, lease, FromStore, elapsed);
            var pc := DecideStore(name, op, id, attempt, lease, elapsed, wall, slots).0;
            if !GoesThrough(op, id, lease, running) then pc == Done(Answered(DefeatBy(id, lease, running), lease))
            else if attempt == 5 then pc == Done(Failed)
            else pc.Write? && pc.attempt == attempt && pc.base == lease && IsProposal(name, op, id, lease, pc.proposal)
                 && pc.proposal.renewTime == Some(wall)
  {
    RemainingIsRunning(slots, lease, FromStore, elapsed);
  }

  /** After a committed write the call succeeds, with what was written. */
  lemma WrittenVerdict(id: string, written: Lease, elapsed: int, slots: Slots)
    ensures DecideWritten(id, written, elapsed, slots).0 == Done(Answered(SuccessWith(id, written), Some(written)))
  {
  }
}
