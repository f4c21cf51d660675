/**
 No false defeat: a coordinator that is not exposed when it grants a term turns that id's later
 heartbeats down only over a later epoch or an aged version, as long as the object stands.
 */
module ElectionDefeats {
  import opened Options
  import opened Leases
  import opened Observations
  import opened Calls
  import opened ElectionProtocol
  import opened ElectionInvariants
  import opened ElectionSafety
  import opened ElectionGrants

  /**
   What matters of the moment of the grant.  `pool` holds the versions in flight that could take
   the place of the granted one in the store slot: none, unless one of them is of another object.
   */
  datatype Origin = Origin(
    coordinator: CoordinatorId,
    id: string,
    term: Term,
    pool: set<Lease>,
    calls: set<CallId>,
    now: int,
    offset: int)

  /** A timer started then had run out at the grant. */
  predicate RanOut(o: Origin, observedAt: int) {
    observedAt + o.offset + LEASE_DURATION <= o.now
  }

  /** A cached read of this version could turn the id down if a version of the pool were in the store slot. */
  ghost predicate Dangerous(h: seq<Commit>, o: Origin, v: nat) {
    exists lease <- o.pool :: Contradicts(h, o.id, lease, v)
  }

  /** A version of the pool can only be contradicted by itself. */
  ghost predicate PoolIsHarmless(h: seq<Commit>, o: Origin) {
    forall lease, v: nat | lease in o.pool && Contradicts(h, o.id, lease, v) :: v == lease.version
  }

  ghost predicate TimerSteady(h: seq<Commit>, o: Origin, slot: Option<Observation>) {
    slot.Some? && Dangerous(h, o, slot.value.version) ==> RanOut(o, slot.value.observedAt)
  }

  predicate IsOf(observation: Observation, lease: Lease) {
    observation.uid == lease.uid && observation.version == lease.version && observation.epoch == Epoch(Some(lease))
  }

  /** The store slot is on the granted term, or on a version of the pool. */
  ghost predicate SlotsSteady(h: seq<Commit>, o: Origin, slots: Slots) {
    && slots.store.Some?
    && (StoreKnows(slots, o.term) || exists lease <- o.pool :: IsOf(slots.store.value, lease))
    && TimerSteady(h, o, slots.cache)
    && TimerSteady(h, o, slots.store)
  }

  /** A store read that may still land. */
  predicate Allowed(o: Origin, lease: Lease) {
    lease in o.pool || (lease.uid == o.term.uid && (o.pool == {} || Epoch(Some(lease)) >= o.term.epoch))
  }

  ghost predicate FlightSteady(h: seq<Commit>, o: Origin, pc: Pc) {
    InFlight(pc).Some? ==>
      var lease := InFlight(pc).value;
      && Allowed(o, lease)
      && (Dangerous(h, o, lease.version) ==> (pc.ApplyStore? || pc.ApplyWritten?) && RanOut(o, pc.elapsed))
  }

  /** A call that began after the grant has read the store after it, and sampled its clock after it. */
  predicate NewCallSteady(o: Origin, pc: Pc) {
    match pc
    case ApplyCache(_, elapsed) => elapsed + o.offset >= o.now
    case TimeStore(_, lease) => lease.Some? && OnTerm(lease.value.uid, Epoch(lease), o.term)
    case ApplyStore(_, lease, _) => lease.Some? && OnTerm(lease.value.uid, Epoch(lease), o.term)
    case _ => true
  }

  ghost predicate CallSteady(h: seq<Commit>, o: Origin, k: CallId, pc: Pc) {
    FlightSteady(h, o, pc) && (k !in o.calls ==> NewCallSteady(o, pc))
  }

  /** What one process remembers of the grant, until a later epoch is committed. */
  ghost predicate Steady(s: State, o: Origin)
    requires o.coordinator in s.coordinators
  {
    && PoolIsHarmless(s.history, o)
    && SlotsSteady(s.history, o, s.coordinators[o.coordinator].slots)
    && (forall k | RunsOn(s, k, o.coordinator) :: CallSteady(s.history, o, k, s.calls[k].pc))
  }

  ghost predicate Since(s: State, o: Origin) {
    && o.coordinator in s.coordinators && s.coordinators[o.coordinator].offset == o.offset
    && o.now <= s.now && o.calls <= s.calls.Keys
    && TermGranted(s.history, o.id, o.term)
    && (LaterEpochCommitted(s.history, o.term) || Steady(s, o))
  }

  // ----- versions of the granted object -----

  /** Before a later epoch is committed, the granted term is the holder's in every later version. */
  lemma GrantedVersions(h: seq<Commit>, id: string, term: Term, v: nat)
    requires HistoryOk(h) && TermGranted(h, id, term) && !LaterEpochCommitted(h, term)
    requires v < |h| && OnTerm(h[v].lease.uid, EpochAt(h, v), term)
    ensures HolderAt(h, v) == id && EpochAt(h, v) == term.epoch
  {
    var i: nat :| i < |h| && HoldsTerm(h[i], id, term);
    if i <= v {
      HistoryGrows(h, i, v);
    } else {
      HistoryGrows(h, v, i);
    }
  }

  /** A linearizable read after a grant returns the granted term or a later one. */
  lemma CurrentIsOnTerm(s: State, id: string, term: Term)
    requires Inv(s) && Standing(s, term.uid) && TermGranted(s.history, id, term)
    ensures Current(s).Some? && OnTerm(Current(s).value.uid, Epoch(Current(s)), term)
  {
    var i: nat :| i < |s.history| && HoldsTerm(s.history[i], id, term);
    HistoryGrows(s.history, i, |s.history| - 1);
  }

  lemma OnTermIsNoDanger(h: seq<Commit>, o: Origin, v: nat)
    requires HistoryOk(h) && TermGranted(h, o.id, o.term) && !LaterEpochCommitted(h, o.term)
    requires v < |h| && OnTerm(h[v].lease.uid, EpochAt(h, v), o.term)
    ensures !Dangerous(h, o, v)
  {
    GrantedVersions(h, o.id, o.term, v);
  }

  // ----- one critical section -----

  /** A read from the cache can only start the timer of a version that is no danger. */
  lemma CacheReadIsSteady(h: seq<Commit>, o: Origin, offset: int, slots: Slots, lease: Lease, elapsed: int)
    requires HistoryOk(h) && TermGranted(h, o.id, o.term) && !LaterEpochCommitted(h, o.term)
    requires Committed(h, lease) && SlotOk(h, offset, slots.cache) && SlotOk(h, offset, slots.store)
    requires PoolIsHarmless(h, o) && SlotsSteady(h, o, slots)
    ensures SlotsSteady(h, o, Read(slots, Some(lease), FromCache, elapsed).slots)
  {
    if !Superseded(slots, lease, FromCache) && Dangerous(h, o, lease.version) {
      SeenIsKnown(h, o, slots, lease);
    }
  }

  /** A dangerous version that the cache may still show is the one in the store slot. */
  lemma SeenIsKnown(h: seq<Commit>, o: Origin, slots: Slots, lease: Lease)
    requires HistoryOk(h) && TermGranted(h, o.id, o.term) && !LaterEpochCommitted(h, o.term)
    requires Committed(h, lease) && HolderAt(h, lease.version) != o.id
    requires PoolIsHarmless(h, o) && SlotsSteady(h, o, slots) && !Superseded(slots, lease, FromCache)
    ensures SameVersion(slots.store, lease) && Dangerous(h, o, lease.version)
  {
    if StoreKnows(slots, o.term) {
      GrantedVersions(h, o.id, o.term, lease.version);
      assert false;
    } else {
      var known :| known in o.pool && IsOf(slots.store.value, known);
      assert Contradicts(h, o.id, known, lease.version);
    }
  }

  lemma StoreReadIsSteady(h: seq<Commit>, o: Origin, offset: int, slots: Slots, lease: Lease, elapsed: int)
    requires HistoryOk(h) && TermGranted(h, o.id, o.term) && !LaterEpochCommitted(h, o.term)
    requires Committed(h, lease) && SlotOk(h, offset, slots.cache) && SlotOk(h, offset, slots.store)
    requires SlotsSteady(h, o, slots) && Allowed(o, lease)
    requires Dangerous(h, o, lease.version) ==> RanOut(o, elapsed)
    ensures SlotsSteady(h, o, Read(slots, Some(lease), FromStore, elapsed).slots)
  {
    hide Dangerous;
    var after := Read(slots, Some(lease), FromStore, elapsed).slots;
    if HasTerm(lease) && !Superseded(slots, lease, FromStore) {
      assert IsOf(after.store.value, lease);
    }
  }

  // ----- what the slots justify -----

  /** The cache turns a granted id down only over a later epoch. */
  lemma CacheDefeatIsJustified(h: seq<Commit>, o: Origin, slots: Slots, lease: Option<Lease>, elapsed: int)
    requires HistoryOk(h) && TermGranted(h, o.id, o.term) && KnownTo(h, lease)
    requires PoolIsHarmless(h, o) && SlotsSteady(h, o, slots)
    requires elapsed + o.offset >= o.now
    requires CacheDefeats(Heartbeat, o.id, lease, Read(slots, lease, FromCache, elapsed).left)
    ensures LaterEpochCommitted(h, o.term)
  {
    assert Follows(h, lease.value.version);
    if !LaterEpochCommitted(h, o.term) {
      SeenIsKnown(h, o, slots, lease.value);
    }
  }

  /** An authoritative read of the granted object turns the id down only over a later epoch or an aged version. */
  lemma StoreDefeatIsJustified(h: seq<Commit>, now: int, offset: int, slots: Slots, id: string, term: Term,
        lease: Lease, elapsed: int)
    requires HistoryOk(h) && TermGranted(h, id, term) && Committed(h, lease)
    requires SlotOk(h, offset, slots.cache) && SlotOk(h, offset, slots.store)
    requires OnTerm(lease.uid, Epoch(Some(lease)), term) && Sampled(h, now, offset, Some(lease), elapsed)
    requires StoreDefeats(Heartbeat, id, Some(lease), Read(slots, Some(lease), FromStore, elapsed).left)
    ensures LaterEpochCommitted(h, term) || h[lease.version].at + Duration(lease) <= now
  {
    assert Follows(h, lease.version);
    if Superseded(slots, lease, FromStore) {
      assert EpochAt(h, slots.store.value.version) > term.epoch;
    } else if !LaterEpochCommitted(h, term) {
      GrantedVersions(h, id, term, lease.version);
    }
  }

  // ----- steps -----

  /** An object that stands after a step, and existed before it, stood before it. */
  lemma StoodBefore(s: State, a: Action, uid: nat, i: nat)
    requires Inv(s) && Enabled(s, a) && Standing(Apply(s, a), uid)
    requires i < |s.history| && s.history[i].lease.uid == uid
    ensures Standing(s, uid)
  {
    hide AuthorsOk, CoordinatorOk, ClockOk, PcOk, Decision;
    HistoryGrows(s.history, i, i);
    if a.Deliver? {
      WriteStoodBefore(s, a.call, uid);
    }
  }

  lemma WriteStoodBefore(s: State, k: CallId, uid: nat)
    requires Inv(s) && Enabled(s, Deliver(k)) && Standing(DoDeliver(s, k), uid) && uid < |s.history|
    ensures Standing(s, uid)
  {
    hide AuthorsOk, CoordinatorOk, ClockOk;
    assert CallOk(s, k);
    assert s.present ==> Follows(s.history, |s.history| - 1);
  }

  /** Commits on the granted object add no danger. */
  lemma CommitsAddNoDanger(h: seq<Commit>, h': seq<Commit>, o: Origin)
    requires h <= h' && HistoryOk(h') && TermGranted(h', o.id, o.term) && !LaterEpochCommitted(h', o.term)
    requires forall v | |h| <= v < |h'| :: OnTerm(h'[v].lease.uid, EpochAt(h', v), o.term)
    ensures forall lease, v: nat :: Contradicts(h', o.id, lease, v) <==> Contradicts(h, o.id, lease, v)
    ensures forall v: nat :: Dangerous(h', o, v) <==> Dangerous(h, o, v)
  {
    forall lease, v: nat ensures Contradicts(h', o.id, lease, v) <==> Contradicts(h, o.id, lease, v) {
      if v < |h| {
        assert h'[v] == h[v];
      } else if v < |h'| {
        GrantedVersions(h', o.id, o.term, v);
      }
    }
  }

  lemma GrantStays(h: seq<Commit>, h': seq<Commit>, id: string, term: Term)
    requires h <= h'
    ensures TermGranted(h, id, term) ==> TermGranted(h', id, term)
    ensures LaterEpochCommitted(h, term) ==> LaterEpochCommitted(h', term)
  {
    if TermGranted(h, id, term) {
      var i: nat :| i < |h| && HoldsTerm(h[i], id, term);
      assert HoldsTerm(h'[i], id, term);
    }
    if LaterEpochCommitted(h, term) {
      var i: nat :| i < |h| && h[i].lease.uid == term.uid && EpochAt(h, i) > term.epoch;
      assert h'[i] == h[i];
    }
  }

  lemma AtMostOneCommit(s: State, a: Action)
    requires Enabled(s, a)
    ensures |Apply(s, a).history| <= |s.history| + 1
  {
    hide Decision;
  }

  /** While the object stands, what a step adds to the history is on the granted term. */
  lemma StepCommitsOnTerm(s: State, a: Action, id: string, term: Term)
    requires Inv(s) && Enabled(s, a) && Inv(Apply(s, a))
    requires TermGranted(s.history, id, term) && Standing(Apply(s, a), term.uid)
    ensures var h, h' := s.history, Apply(s, a).history;
            && h <= h' && TermGranted(h', id, term)
            && (forall v | |h| <= v < |h'| :: OnTerm(h'[v].lease.uid, EpochAt(h', v), term))
  {
    hide Inv, TermGranted, Apply;
    HistoryOnlyGrows(s, a);
    AtMostOneCommit(s, a);
    GrantStays(s.history, Apply(s, a).history, id, term);
    CurrentIsOnTerm(Apply(s, a), id, term);
  }

  /** A critical section of the process keeps its memory steady. */
  lemma DecideKeepsSlotsSteady(s: State, k: CallId, wall: int, o: Origin)
    requires Inv(s) && Enabled(s, Decide(k, wall)) && s.calls[k].coordinator == o.coordinator
    requires TermGranted(s.history, o.id, o.term) && !LaterEpochCommitted(s.history, o.term) && Steady(s, o)
    ensures SlotsSteady(s.history, o, DoDecide(s, k, wall).coordinators[o.coordinator].slots)
  {
    hide SlotsSteady, Dangerous, PoolIsHarmless, Allowed;
    var c := s.coordinators[o.coordinator];
    var (lease, source) := Considered(s.calls[k].pc);
    assert CallOk(s, k) && CoordinatorOk(s.history, c) && RunsOn(s, k, o.coordinator);
    assert FlightSteady(s.history, o, s.calls[k].pc);
    DecisionReads(s, k, wall);
    if lease.Some? && source == FromCache {
      CacheReadIsSteady(s.history, o, c.offset, c.slots, lease.value, s.calls[k].pc.elapsed);
    } else if lease.Some? {
      StoreReadIsSteady(s.history, o, c.offset, c.slots, lease.value, s.calls[k].pc.elapsed);
    }
  }

  /** What a step leaves in flight in the process. */
  lemma StepKeepsCallsSteady(s: State, a: Action, o: Origin, k: CallId)
    requires Inv(s) && Enabled(s, a) && Inv(Apply(s, a)) && Since(s, o) && Steady(s, o)
    requires !(a.Restart? && a.coordinator == o.coordinator)
    requires Standing(s, o.term.uid) && Standing(Apply(s, a), o.term.uid)
    requires !LaterEpochCommitted(Apply(s, a).history, o.term)
    requires RunsOn(Apply(s, a), k, o.coordinator)
    ensures CallSteady(s.history, o, k, Apply(s, a).calls[k].pc)
  {
    hide Dangerous, Inv, CallSteady, Standing, Apply, Enabled;
    var t := Apply(s, a);
    StepCommitsOnTerm(s, a, o.id, o.term);
    GrantStays(s.history, t.history, o.id, o.term);
    OldOrBegun(s, a, o.coordinator, k);
    if RunsOn(s, k, o.coordinator) {
      assert CallSteady(s.history, o, k, s.calls[k].pc);
      if t.calls[k].pc != s.calls[k].pc {
        ChangedCallIsSteady(s, a, o, k);
      }
    } else {
      BegunCallIsSteady(s.history, o, k);
    }
  }

  /** A call that runs after a step ran before it, in the same process, or has just begun. */
  lemma OldOrBegun(s: State, a: Action, c: CoordinatorId, k: CallId)
    requires Inv(s) && Enabled(s, a) && RunsOn(Apply(s, a), k, c) && !(a.Restart? && a.coordinator == c)
    ensures RunsOn(s, k, c) || (a.Begin? && a.call == k && Apply(s, a).calls[k].pc.ReadCache?)
  {
    hide AuthorsOk, CoordinatorOk, HistoryOk, PcOk, ClockOk, Decision, Commits;
    assert k in s.calls ==> CallOk(s, k);
  }

  lemma BegunCallIsSteady(h: seq<Commit>, o: Origin, k: CallId)
    ensures CallSteady(h, o, k, ReadCache)
  {
  }

  lemma ChangedCallIsSteady(s: State, a: Action, o: Origin, k: CallId)
    requires Inv(s) && Enabled(s, a) && Inv(Apply(s, a)) && Since(s, o)
    requires TermGranted(s.history, o.id, o.term) && TermGranted(Apply(s, a).history, o.id, o.term)
    requires Standing(s, o.term.uid) && Standing(Apply(s, a), o.term.uid)
    requires !LaterEpochCommitted(Apply(s, a).history, o.term) && !LaterEpochCommitted(s.history, o.term)
    requires RunsOn(s, k, o.coordinator) && CallSteady(s.history, o, k, s.calls[k].pc)
    requires k in Apply(s, a).calls && Apply(s, a).calls[k].pc != s.calls[k].pc
    ensures CallSteady(s.history, o, k, Apply(s, a).calls[k].pc)
  {
    hide Dangerous, Inv, LaterEpochCommitted, TermGranted, Steady, Decision, Commits, Standing;
    match a {
      case StoreAnswer(_) => StoreAnswerIsSteady(s, o, k);
      case Clock(_) => SampleIsSteady(s, o, k);
      case Deliver(_) => WrittenIsSteady(s, o, k);
      case Decide(_, wall) => DecidedLeavesNothing(s, k, wall);
      case _ =>
    }
  }

  lemma StoreAnswerIsSteady(s: State, o: Origin, k: CallId)
    requires Inv(s) && Standing(s, o.term.uid)
    requires TermGranted(s.history, o.id, o.term) && !LaterEpochCommitted(s.history, o.term)
    ensures forall attempt :: CallSteady(s.history, o, k, TimeStore(attempt, Current(s)))
  {
    hide AuthorsOk, CoordinatorOk, Contradicts;
    CurrentIsOnTerm(s, o.id, o.term);
    OnTermIsNoDanger(s.history, o, |s.history| - 1);
    assert Follows(s.history, |s.history| - 1);
  }

  lemma SampleIsSteady(s: State, o: Origin, k: CallId)
    requires Enabled(s, Clock(k)) && RunsOn(s, k, o.coordinator) && CallSteady(s.history, o, k, s.calls[k].pc)
    requires o.now <= s.now && s.coordinators[o.coordinator].offset == o.offset
    ensures CallSteady(s.history, o, k, DoClock(s, k).calls[k].pc)
  {
    hide Dangerous;
  }

  lemma DecidedLeavesNothing(s: State, k: CallId, wall: int)
    requires Enabled(s, Decide(k, wall))
    ensures var pc := DoDecide(s, k, wall).calls[k].pc; pc.Done? || pc.ReadStore? || pc.Write?
  {
    hide Read;
  }

  lemma WrittenIsSteady(s: State, o: Origin, k: CallId)
    requires Inv(s) && Enabled(s, Deliver(k)) && Inv(DoDeliver(s, k)) && Standing(DoDeliver(s, k), o.term.uid)
    requires TermGranted(DoDeliver(s, k).history, o.id, o.term)
    ensures CallSteady(s.history, o, k, DoDeliver(s, k).calls[k].pc)
  {
    hide Dangerous, AuthorsOk, CoordinatorOk, CallOk;
    CurrentIsOnTerm(DoDeliver(s, k), o.id, o.term);
    NotThereIsNoDanger(s.history, o, |s.history|);
  }

  lemma NotThereIsNoDanger(h: seq<Commit>, o: Origin, v: nat)
    requires v >= |h|
    ensures !Dangerous(h, o, v)
  {
  }

  lemma StepKeepsSince(s: State, a: Action, o: Origin)
    requires Inv(s) && Enabled(s, a) && Inv(Apply(s, a)) && Since(s, o)
    requires !(a.Restart? && a.coordinator == o.coordinator)
    requires Standing(s, o.term.uid) && Standing(Apply(s, a), o.term.uid)
    ensures Since(Apply(s, a), o)
  {
    hide SlotsSteady, CallSteady, Contradicts, Inv, Standing;
    var t := Apply(s, a);
    StepCommitsOnTerm(s, a, o.id, o.term);
    GrantStays(s.history, t.history, o.id, o.term);
    if !LaterEpochCommitted(t.history, o.term) {
      InvHasHistory(t);
      CommitsAddNoDanger(s.history, t.history, o);
      forall k | RunsOn(t, k, o.coordinator) ensures CallSteady(t.history, o, k, t.calls[k].pc) {
        StepKeepsCallsSteady(s, a, o, k);
        SameDangersSameCalls(s.history, t.history, o, k, t.calls[k].pc);
      }
      if a.Decide? && s.calls[a.call].coordinator == o.coordinator {
        DecideKeepsSlotsSteady(s, a.call, a.wall, o);
      }
      SameDangersSameSlots(s.history, t.history, o, t.coordinators[o.coordinator].slots);
    }
  }

  lemma InvHasHistory(s: State)
    requires Inv(s)
    ensures HistoryOk(s.history)
  {
  }

  lemma SameDangersSameCalls(h: seq<Commit>, h': seq<Commit>, o: Origin, k: CallId, pc: Pc)
    requires forall v: nat :: Dangerous(h', o, v) <==> Dangerous(h, o, v)
    ensures CallSteady(h, o, k, pc) ==> CallSteady(h', o, k, pc)
  {
    hide Dangerous;
  }

  lemma SameDangersSameSlots(h: seq<Commit>, h': seq<Commit>, o: Origin, slots: Slots)
    requires forall v: nat :: Dangerous(h', o, v) <==> Dangerous(h, o, v)
    ensures SlotsSteady(h, o, slots) ==> SlotsSteady(h', o, slots)
  {
    hide Dangerous;
  }

  // ----- the moment of the grant -----

  function AllInFlight(s: State, c: CoordinatorId): set<Lease> {
    set k | k in s.calls && RunsOn(s, k, c) && InFlight(s.calls[k].pc).Some? :: InFlight(s.calls[k].pc).value
  }

  ghost function OriginOf(s: State, c: CoordinatorId, id: string, term: Term): Origin
    requires c in s.coordinators
  {
    Origin(c, id, term, if CarriesOther(s, c, term.uid) then AllInFlight(s, c) else {}, s.calls.Keys, s.now,
           s.coordinators[c].offset)
  }

  lemma PoolIsCarried(s: State, c: CoordinatorId, id: string, term: Term, lease: Lease) returns (k: CallId)
    requires Inv(s) && c in s.coordinators && lease in OriginOf(s, c, id, term).pool
    ensures Carries(s, c, k, lease) && Committed(s.history, lease) && CarriesOther(s, c, term.uid)
  {
    k :| k in s.calls && RunsOn(s, k, c) && InFlight(s.calls[k].pc) == Some(lease);
    FlightIsCommitted(s, k);
  }

  /** Unless it misleads, a version of the pool has no timer left that could run. */
  lemma DangersHaveRunOut(s: State, c: CoordinatorId, id: string, term: Term, v: nat) returns (lease: Lease)
    requires Inv(s) && c in s.coordinators && (CarriesOther(s, c, term.uid) ==> !SomeMisleads(s, c, id))
    requires Dangerous(s.history, OriginOf(s, c, id, term), v)
    ensures lease == s.history[v].lease && CarriesOther(s, c, term.uid)
    ensures forall k | Carries(s, c, k, lease) :: !StartsTimer(s, c, k, lease)
    ensures exists k :: Carries(s, c, k, lease)
  {
    hide Inv;
    lease :| lease in OriginOf(s, c, id, term).pool && Contradicts(s.history, id, lease, v);
    var k := PoolIsCarried(s, c, id, term, lease);
    assert !Misleads(s, c, id, k, lease, v);
    forall j | Carries(s, c, j, lease) ensures !StartsTimer(s, c, j, lease) {
      assert !Misleads(s, c, id, j, lease, v);
    }
  }

  lemma NoMisleadingPool(s: State, c: CoordinatorId, id: string, term: Term)
    requires Inv(s) && c in s.coordinators && (CarriesOther(s, c, term.uid) ==> !SomeMisleads(s, c, id))
    ensures PoolIsHarmless(s.history, OriginOf(s, c, id, term))
  {
    hide Inv, AllInFlight;
    var o := OriginOf(s, c, id, term);
    forall lease, v: nat | lease in o.pool && Contradicts(s.history, id, lease, v) ensures v == lease.version {
      var k := PoolIsCarried(s, c, id, term, lease);
      assert !Misleads(s, c, id, k, lease, v);
    }
  }

  lemma FlightIsSteady(s: State, c: CoordinatorId, id: string, term: Term, k: CallId)
    requires Inv(s) && c in s.coordinators && (CarriesOther(s, c, term.uid) ==> !SomeMisleads(s, c, id))
    requires RunsOn(s, k, c)
    ensures FlightSteady(s.history, OriginOf(s, c, id, term), s.calls[k].pc)
  {
    hide Dangerous, SomeMisleads, Inv;
    var o, pc := OriginOf(s, c, id, term), s.calls[k].pc;
    if InFlight(pc).Some? {
      var lease := InFlight(pc).value;
      FlightIsCommitted(s, k);
      assert Carries(s, c, k, lease);
      if Dangerous(s.history, o, lease.version) {
        var same := DangersHaveRunOut(s, c, id, term, lease.version);
      }
    }
  }

  lemma FlightIsCommitted(s: State, k: CallId)
    requires Inv(s) && k in s.calls && InFlight(s.calls[k].pc).Some?
    ensures Committed(s.history, InFlight(s.calls[k].pc).value)
  {
    assert CallOk(s, k);
  }

  lemma CacheTimerIsSteady(s: State, c: CoordinatorId, id: string, term: Term)
    requires Inv(s) && c in s.coordinators && (CarriesOther(s, c, term.uid) ==> !SomeMisleads(s, c, id))
    ensures TimerSteady(s.history, OriginOf(s, c, id, term), s.coordinators[c].slots.cache)
  {
    hide Dangerous, SomeMisleads, AuthorsOk, CallOk;
    var o, slot := OriginOf(s, c, id, term), s.coordinators[c].slots.cache;
    if slot.Some? && Dangerous(s.history, o, slot.value.version) {
      assert CoordinatorOk(s.history, s.coordinators[c]);
      var lease := DangersHaveRunOut(s, c, id, term, slot.value.version);
      assert Follows(s.history, slot.value.version);
      var k :| Carries(s, c, k, lease);
    }
  }

  /** A grant leaves the store slot on its term. */
  lemma GrantIsKnown(s: State, g: CallId, wall: int, id: string, term: Term)
    requires Inv(s) && Grants(s, g, wall, id, term)
    ensures StoreKnows(DoDecide(s, g, wall).coordinators[s.calls[g].coordinator].slots, term)
    ensures TermGranted(s.history, id, term) && DoDecide(s, g, wall).history == s.history
  {
    hide AuthorsOk, LaterEpochCommitted, EpochsInRange;
    var c := s.coordinators[s.calls[g].coordinator];
    assert CallOk(s, g) && CoordinatorOk(s.history, c);
    var lease := s.calls[g].pc.written;
    assert Follows(s.history, lease.version);
    assert HoldsTerm(s.history[lease.version], id, term);
  }

  /** What a coordinator that is not exposed remembers of a grant. */
  lemma GrantIsSteady(s: State, c: CoordinatorId, id: string, term: Term)
    requires Inv(s) && c in s.coordinators && Standing(s, term.uid) && !Exposed(s, c, id, term)
    requires TermGranted(s.history, id, term) && StoreKnows(s.coordinators[c].slots, term)
    ensures Since(s, OriginOf(s, c, id, term))
  {
    hide Dangerous, SomeMisleads, FlightSteady, TimerSteady, PoolIsHarmless;
    var o := OriginOf(s, c, id, term);
    if !LaterEpochCommitted(s.history, term) {
      NoMisleadingPool(s, c, id, term);
      CacheTimerIsSteady(s, c, id, term);
      StoreTimerIsSteady(s, o);
      forall k | RunsOn(s, k, c) ensures CallSteady(s.history, o, k, s.calls[k].pc) {
        FlightIsSteady(s, c, id, term, k);
      }
    }
  }

  lemma StoreTimerIsSteady(s: State, o: Origin)
    requires Inv(s) && o.coordinator in s.coordinators
    requires TermGranted(s.history, o.id, o.term) && !LaterEpochCommitted(s.history, o.term)
    requires StoreKnows(s.coordinators[o.coordinator].slots, o.term)
    ensures TimerSteady(s.history, o, s.coordinators[o.coordinator].slots.store)
  {
    hide Dangerous, AuthorsOk, CallOk;
    var slots := s.coordinators[o.coordinator].slots;
    assert CoordinatorOk(s.history, s.coordinators[o.coordinator]);
    OnTermIsNoDanger(s.history, o, slots.store.value.version);
  }

  // ----- runs -----

  lemma {:induction false} RunOnlyGrows(s: State, actions: seq<Action>, t: State)
    requires RunFrom(s, actions) == Some(t) && EpochsInRange(t.history)
    ensures s.history <= t.history && EpochsInRange(s.history)
    decreases |actions|
  {
    if actions != [] {
      RunOnlyGrows(Apply(s, actions[0]), actions[1..], t);
      HistoryOnlyGrows(s, actions[0]);
    }
  }

  lemma FirstStepKeepsInv(s: State, actions: seq<Action>, t: State)
    requires Inv(s) && actions != [] && RunFrom(s, actions) == Some(t) && EpochsInRange(t.history)
    ensures Enabled(s, actions[0]) && RunFrom(Apply(s, actions[0]), actions[1..]) == Some(t)
    ensures Inv(Apply(s, actions[0])) && s.history <= Apply(s, actions[0]).history
  {
    hide Inv, EpochsInRange;
    RunOnlyGrows(Apply(s, actions[0]), actions[1..], t);
    HistoryOnlyGrows(s, actions[0]);
    StepKeepsInv(s, actions[0]);
  }

  /** An object that stands at the end of a run, and was there before it, stood all along. */
  lemma {:induction false} StoodAllAlong(s: State, actions: seq<Action>, t: State, uid: nat, i: nat)
    requires Inv(s) && RunFrom(s, actions) == Some(t) && EpochsInRange(t.history)
    requires Standing(t, uid) && i < |s.history| && s.history[i].lease.uid == uid
    ensures Standing(s, uid)
    decreases |actions|
  {
    hide Inv, EpochsInRange, Apply, Enabled;
    if actions != [] {
      FirstStepKeepsInv(s, actions, t);
      StoodAllAlong(Apply(s, actions[0]), actions[1..], t, uid, i);
      StoodBefore(s, actions[0], uid, i);
    }
  }

  lemma {:induction false} RunKeepsSince(s: State, more: seq<Action>, t: State, o: Origin)
    requires Inv(s) && Since(s, o) && Reaches(s, more, t, o.coordinator) && Standing(t, o.term.uid)
    ensures Inv(t) && Since(t, o)
    decreases |more|
  {
    hide Inv, EpochsInRange, Since, Apply, Enabled, Standing;
    if more != [] {
      var u := Apply(s, more[0]);
      FirstStepKeepsInv(s, more, t);
      SinceStands(s, more, t, o);
      SinceHasTerm(s, o);
      var i: nat :| i < |s.history| && s.history[i].lease.uid == o.term.uid;
      StoodAllAlong(u, more[1..], t, o.term.uid, i);
      StepKeepsSince(s, more[0], o);
      RunKeepsSince(u, more[1..], t, o);
    }
  }

  lemma SinceHasTerm(s: State, o: Origin)
    requires Since(s, o)
    ensures exists i: nat | i < |s.history| :: s.history[i].lease.uid == o.term.uid
  {
    var i: nat :| i < |s.history| && HoldsTerm(s.history[i], o.id, o.term);
  }

  lemma SinceStands(s: State, more: seq<Action>, t: State, o: Origin)
    requires Inv(s) && Since(s, o) && Reaches(s, more, t, o.coordinator) && Standing(t, o.term.uid)
    ensures Standing(s, o.term.uid)
  {
    hide Inv, EpochsInRange, Standing, Steady;
    SinceHasTerm(s, o);
    var i: nat :| i < |s.history| && s.history[i].lease.uid == o.term.uid;
    StoodAllAlong(s, more, t, o.term.uid, i);
  }

  /** What a heartbeat that began after the grant is turned down for. */
  lemma DefeatIsJustified(s: State, t: State, k: CallId, wall: int, o: Origin)
    requires Inv(t) && Since(t, o) && o.calls == s.calls.Keys
    requires TurnsDown(s, t, k, wall, o.coordinator, o.id)
    ensures LaterEpochCommitted(t.history, o.term) || ReadVersionAged(t, t.calls[k].pc)
    ensures t.calls[k].pc.ApplyCache? ==> LaterEpochCommitted(t.history, o.term)
  {
    hide AuthorsOk, SlotsSteady, PoolIsHarmless, Read;
    if !LaterEpochCommitted(t.history, o.term) {
      var c := t.coordinators[o.coordinator];
      assert CallOk(t, k) && CoordinatorOk(t.history, c) && RunsOn(t, k, o.coordinator);
      assert CallSteady(t.history, o, k, t.calls[k].pc);
      match t.calls[k].pc
      case ApplyCache(lease, elapsed) => CacheDefeatIsJustified(t.history, o, c.slots, lease, elapsed);
      case ApplyStore(_, lease, elapsed) =>
        StoreDefeatIsJustified(t.history, t.now, c.offset, c.slots, o.id, o.term, lease.value, elapsed);
    }
  }

  /** A coordinator that knows the term and is not exposed to a false defeat gives none. */
  lemma KnowingNoFalseDefeat(s: State, c: CoordinatorId, id: string, term: Term, more: seq<Action>, t: State,
        k: CallId, wall: int)
    requires Inv(s) && c in s.coordinators && TermGranted(s.history, id, term)
    requires StoreKnows(s.coordinators[c].slots, term) && !Exposed(s, c, id, term)
    requires Reaches(s, more, t, c) && TurnsDown(s, t, k, wall, c, id) && Standing(t, term.uid)
    ensures LaterEpochCommitted(t.history, term) || ReadVersionAged(t, t.calls[k].pc)
    ensures t.calls[k].pc.ApplyCache? ==> LaterEpochCommitted(t.history, term)
  {
    hide Inv, Exposed, TurnsDown, Since, Reaches;
    GrantStands(s, more, t, c, id, term);
    GrantIsSteady(s, c, id, term);
    RunKeepsSince(s, more, t, OriginOf(s, c, id, term));
    DefeatIsJustified(s, t, k, wall, OriginOf(s, c, id, term));
  }

  /**
   A coordinator that is not exposed when it grants a term, and is not restarted, turns the id's
   later heartbeats down only over a later epoch or because the version that the store returned
   has aged, as long as the granted object stands.  From the cache, however far it lags and
   whatever was deleted before, only over a later epoch.
   */
  lemma NoFalseDefeat(start: int, actions: seq<Action>, before: State, g: CallId, wall: int, id: string, term: Term,
        more: seq<Action>, t: State, k: CallId, wall': int)
    requires Reached(start, actions, before) && Grants(before, g, wall, id, term)
    requires var s, c := DoDecide(before, g, wall), before.calls[g].coordinator;
             !Exposed(s, c, id, term) && Reaches(s, more, t, c) && TurnsDown(s, t, k, wall', c, id)
    requires Standing(t, term.uid)
    ensures LaterEpochCommitted(t.history, term) || ReadVersionAged(t, t.calls[k].pc)
    ensures t.calls[k].pc.ApplyCache? ==> LaterEpochCommitted(t.history, term)
  {
    hide Inv, Exposed, TurnsDown, Run, Reaches;
    RunKeepsInv(start, actions);
    DecideKeepsInv(before, g, wall);
    GrantIsKnown(before, g, wall, id, term);
    KnowingNoFalseDefeat(DoDecide(before, g, wall), before.calls[g].coordinator, id, term, more, t, k, wall');
  }

  lemma GrantStands(s: State, more: seq<Action>, t: State, c: CoordinatorId, id: string, term: Term)
    requires Inv(s) && TermGranted(s.history, id, term) && Reaches(s, more, t, c) && Standing(t, term.uid)
    ensures Standing(s, term.uid)
  {
    hide Inv, EpochsInRange, Standing;
    var i: nat :| i < |s.history| && HoldsTerm(s.history[i], id, term);
    StoodAllAlong(s, more, t, term.uid, i);
  }

  /** In particular never when no store read of an older object is in flight at the grant. */
  lemma NoOldReadNoFalseDefeat(start: int, actions: seq<Action>, before: State, g: CallId, wall: int, id: string,
        term: Term)
    requires Reached(start, actions, before) && Grants(before, g, wall, id, term)
    requires !CarriesOther(DoDecide(before, g, wall), before.calls[g].coordinator, term.uid)
    ensures !CanDefeatFalsely(DoDecide(before, g, wall), before.calls[g].coordinator, id, term)
  {
    hide CarriesOther, Reached, TurnsDown, Reaches, DoDecide;
    var s, c := DoDecide(before, g, wall), before.calls[g].coordinator;
    forall more, t, k, wall' | Reaches(s, more, t, c) && FalselyDefeats(s, t, k, wall', c, id, term) ensures false {
      NoFalseDefeat(start, actions, before, g, wall, id, term, more, t, k, wall');
    }
  }

  /** Nor in a run without deletions. */
  lemma UndeletedNoFalseDefeat(start: int, actions: seq<Action>, before: State, g: CallId, wall: int, id: string,
        term: Term)
    requires Reached(start, actions, before) && Grants(before, g, wall, id, term) && Undeleted(actions)
    ensures !CanDefeatFalsely(DoDecide(before, g, wall), before.calls[g].coordinator, id, term)
  {
    hide Run, CanDefeatFalsely, AuthorsOk, CoordinatorOk, ClockOk;
    var s, c := DoDecide(before, g, wall), before.calls[g].coordinator;
    RunKeepsInv(start, actions);
    UndeletedKeepsOneObject(start, actions, before);
    DecideKeepsInv(before, g, wall);
    assert CallOk(before, g);
    forall k, lease | Carries(s, c, k, lease) ensures lease.uid == term.uid {
      FlightIsCommitted(s, k);
    }
    NoOldReadNoFalseDefeat(start, actions, before, g, wall, id, term);
  }
}
