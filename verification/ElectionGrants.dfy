/**
 False defeats: once a coordinator has granted a term to an id, when can it turn that id's
 heartbeat down although the granted Lease object is still there, no later epoch was
 committed and the version it read has not aged?  This module says what such a defeat is and
 when a grant leaves the coordinator exposed to one.
 */
module ElectionGrants {
  import opened Options
  import opened Leases
  import opened Observations
  import opened Calls
  import opened ElectionProtocol
  import opened ElectionInvariants

  /** A term is one uninterrupted hold of a Lease object. */
  datatype Term = Term(uid: nat, epoch: int)

  predicate HoldsTerm(c: Commit, id: string, term: Term) {
    c.lease.uid == term.uid && Epoch(Some(c.lease)) == term.epoch && Holder(Some(c.lease)) == id
  }

  /** The term was really granted to this id. */
  ghost predicate TermGranted(h: seq<Commit>, id: string, term: Term) {
    exists i: nat | i < |h| :: HoldsTerm(h[i], id, term)
  }

  ghost predicate LaterEpochCommitted(h: seq<Commit>, term: Term) {
    exists i: nat | i < |h| :: h[i].lease.uid == term.uid && EpochAt(h, i) > term.epoch
  }

  /** The Lease object is in the store.  Once deleted it never is again: a new object has a new uid. */
  predicate Standing(s: State, uid: nat) {
    s.present && s.history != [] && s.history[|s.history| - 1].lease.uid == uid
  }

  predicate OnTerm(uid: nat, epoch: int, term: Term) {
    uid == term.uid && epoch >= term.epoch
  }

  /** The store slot is on this object, on this term or a later one. */
  predicate StoreKnows(slots: Slots, term: Term) {
    slots.store.Some? && OnTerm(slots.store.value.uid, slots.store.value.epoch, term)
  }

  /** The authoritative version that this call read has aged its full duration. */
  predicate ReadVersionAged(s: State, pc: Pc) {
    && pc.ApplyStore? && pc.stored.Some? && pc.stored.value.version < |s.history|
    && s.history[pc.stored.value.version].at + Duration(pc.stored.value) <= s.now
  }

  // ----- store reads in flight -----

  /** What a call has read from the store, or written to it, and not yet put into the slots. */
  function InFlight(pc: Pc): Option<Lease> {
    match pc
    case TimeStore(_, lease) => lease
    case ApplyStore(_, lease, _) => lease
    case TimeWritten(lease) => Some(lease)
    case ApplyWritten(lease, _) => Some(lease)
    case _ => None
  }

  predicate RunsOn(s: State, k: CallId, c: CoordinatorId) {
    Runs(s, k) && s.calls[k].coordinator == c
  }

  /** A running call of this coordinator has this version in flight. */
  predicate Carries(s: State, c: CoordinatorId, k: CallId, lease: Lease) {
    RunsOn(s, k, c) && InFlight(s.calls[k].pc) == Some(lease)
  }

  /** The coordinator has a store read of another object in flight. */
  ghost predicate CarriesOther(s: State, c: CoordinatorId, uid: nat) {
    exists k, lease :: Carries(s, c, k, lease) && lease.uid != uid
  }

  /** A timer started then still runs now. */
  predicate StillRuns(s: State, c: CoordinatorId, observedAt: int)
    requires c in s.coordinators
  {
    s.now < observedAt + s.coordinators[c].offset + LEASE_DURATION
  }

  /** Once the read in flight is in the slots, the timer of its own version can still run. */
  predicate StartsTimer(s: State, c: CoordinatorId, k: CallId, lease: Lease)
    requires Carries(s, c, k, lease)
  {
    var pc, cached := s.calls[k].pc, s.coordinators[c].slots.cache;
    || pc.TimeStore? || pc.TimeWritten?
    || StillRuns(s, c, pc.elapsed)
    || (SameVersion(cached, lease) && StillRuns(s, c, cached.value.observedAt))
  }

  /** Version v is on the object of this Lease, not on an earlier epoch, and someone else's. */
  predicate Contradicts(h: seq<Commit>, id: string, lease: Lease, v: nat) {
    v < |h| && h[v].lease.uid == lease.uid && EpochAt(h, v) >= Epoch(Some(lease)) && HolderAt(h, v) != id
  }

  /** With this read in the slots, a cached version v would be believed and turn the id down. */
  predicate Misleads(s: State, c: CoordinatorId, id: string, k: CallId, lease: Lease, v: nat) {
    && Carries(s, c, k, lease)
    && Contradicts(s.history, id, lease, v)
    && (v != lease.version || StartsTimer(s, c, k, lease))
  }

  ghost predicate SomeMisleads(s: State, c: CoordinatorId, id: string) {
    exists k, lease, v: nat :: Misleads(s, c, id, k, lease, v)
  }

  /**
   The coordinator can be brought to a false defeat: the granted object is there, no later epoch
   is, and among its store reads in flight one is of another object and one misleads.
   */
  ghost predicate Exposed(s: State, c: CoordinatorId, id: string, term: Term) {
    && Standing(s, term.uid)
    && !LaterEpochCommitted(s.history, term)
    && CarriesOther(s, c, term.uid)
    && SomeMisleads(s, c, id)
  }

  // ----- what a false defeat is -----

  /** This step answers success to the id for the term. */
  predicate Grants(s: State, g: CallId, wall: int, id: string, term: Term) {
    && Enabled(s, Decide(g, wall)) && s.calls[g].pc.ApplyWritten?
    && s.calls[g].request.Elect? && s.calls[g].request.id == id
    && term == Term(s.calls[g].pc.written.uid, Epoch(Some(s.calls[g].pc.written)))
  }

  /** The next step of this call, which began after state s, turns the id's heartbeat down. */
  predicate TurnsDown(s: State, t: State, k: CallId, wall: int, c: CoordinatorId, id: string) {
    && k !in s.calls && Enabled(t, Decide(k, wall))
    && t.calls[k].coordinator == c && t.calls[k].request == Elect(Heartbeat, id)
    && Defeated(DoDecide(t, k, wall).calls[k].pc)
  }

  predicate KeepsProcess(actions: seq<Action>, c: CoordinatorId) {
    forall a <- actions :: !(a.Restart? && a.coordinator == c)
  }

  /** These steps of any actors lead from state s to t. */
  ghost predicate Continues(s: State, more: seq<Action>, t: State) {
    RunFrom(s, more) == Some(t) && EpochsInRange(t.history)
  }

  /** The same in one process of the coordinator. */
  ghost predicate Reaches(s: State, more: seq<Action>, t: State, c: CoordinatorId) {
    Continues(s, more, t) && KeepsProcess(more, c)
  }

  /** A defeat with the granted object still there, no later epoch committed and nothing aged. */
  ghost predicate FalselyDefeats(s: State, t: State, k: CallId, wall: int, c: CoordinatorId, id: string, term: Term) {
    && TurnsDown(s, t, k, wall, c, id)
    && Standing(t, term.uid)
    && !LaterEpochCommitted(t.history, term)
    && !ReadVersionAged(t, t.calls[k].pc)
  }

  ghost predicate CanDefeatFalsely(s: State, c: CoordinatorId, id: string, term: Term) {
    exists more, t, k, wall :: Reaches(s, more, t, c) && FalselyDefeats(s, t, k, wall, c, id, term)
  }

  // ----- with restarts, and on any coordinator -----

  /** The same when the coordinator may be restarted on the way. */
  ghost predicate CanEverDefeatFalsely(s: State, c: CoordinatorId, id: string, term: Term) {
    exists more, t, k, wall :: Continues(s, more, t) && FalselyDefeats(s, t, k, wall, c, id, term)
  }

  ghost predicate HeldByOthers(h: seq<Commit>, id: string) {
    exists v: nat | v < |h| :: HolderAt(h, v) != id
  }

  /** The granted object is there, no later epoch is, and someone else's version exists that a cache can show. */
  ghost predicate Contested(s: State, id: string, term: Term) {
    Standing(s, term.uid) && !LaterEpochCommitted(s.history, term) && HeldByOthers(s.history, id)
  }
}
