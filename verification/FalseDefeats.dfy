/**
 False defeats happen: from every exposed grant some run leads to one, so exposure is the exact
 condition, and there are runs whose grants are exposed.
 */
module FalseDefeats {
  import opened Options
  import opened Leases
  import opened Observations
  import opened Calls
  import opened ElectionProtocol
  import opened ElectionInvariants
  import opened ElectionSafety
  import opened ElectionGrants
  import opened ElectionDefeats

  // ----- putting runs together -----

  lemma {:induction false} RunFromConcat(s: State, first: seq<Action>, t: State, second: seq<Action>)
    requires RunFrom(s, first) == Some(t)
    ensures RunFrom(s, first + second) == RunFrom(t, second)
    decreases |first|
  {
    if first == [] {
      assert first + second == second;
    } else {
      assert (first + second)[1..] == first[1..] + second;
      RunFromConcat(Apply(s, first[0]), first[1..], t, second);
    }
  }

  lemma {:induction false} RunExtends(start: int, actions: seq<Action>, s: State, more: seq<Action>, t: State)
    requires Run(start, actions) == Some(s) && RunFrom(s, more) == Some(t)
    ensures Run(start, actions + more) == Some(t)
    decreases |more|
  {
    if more == [] {
      assert actions + more == actions;
    } else {
      var longer := actions + [more[0]];
      assert longer[..|actions|] == actions;
      assert longer + more[1..] == actions + more;
      RunExtends(start, longer, Apply(s, more[0]), more[1..], t);
    }
  }

  /** These steps take no time and leave the store and the clock of the coordinator alone. */
  ghost predicate Path(s: State, more: seq<Action>, t: State, c: CoordinatorId) {
    && RunFrom(s, more) == Some(t) && KeepsProcess(more, c)
    && (t.history, t.present, t.now) == (s.history, s.present, s.now)
    && c in s.coordinators && c in t.coordinators && t.coordinators[c].offset == s.coordinators[c].offset
    && s.calls.Keys <= t.calls.Keys
  }

  lemma PathStep(s: State, first: seq<Action>, t: State, c: CoordinatorId, a: Action)
    requires Path(s, first, t, c) && Enabled(t, a) && (a.CacheAnswer? || a.Clock? || a.Decide? || a.Begin?)
    ensures Path(s, first + [a], Apply(t, a), c)
  {
    hide Read, Decision;
    RunFromConcat(s, first, t, [a]);
    assert [a][1..] == [];
  }

  lemma PathConcat(s: State, first: seq<Action>, t: State, second: seq<Action>, u: State, c: CoordinatorId)
    requires Path(s, first, t, c) && Path(t, second, u, c)
    ensures Path(s, first + second, u, c)
  {
    RunFromConcat(s, first, t, second);
  }

  lemma {:induction false} FreshId(ids: set<CallId>) returns (q: CallId)
    ensures forall i <- ids :: i < q
    decreases |ids|
  {
    if ids == {} {
      q := 0;
    } else {
      var i :| i in ids;
      var bound := FreshId(ids - {i});
      q := if bound > i then bound else i + 1;
      assert forall j <- ids :: j in ids - {i} || j == i;
    }
  }

  // ----- two things that can happen at any time -----

  /** What the process is left with after a call that began now has taken version v from the cache. */
  ghost predicate CacheWasReadBy(s: State, t: State, c: CoordinatorId, q: CallId, request: Request, v: nat)
    requires c in s.coordinators && v < |s.history|
  {
    && q !in s.calls
    && t == s.(calls := s.calls[q := Call(c, request, s.now, true,
                                          ApplyCache(Some(s.history[v].lease), s.now - s.coordinators[c].offset))])
  }

  lemma CacheAnswers(s: State, c: CoordinatorId, request: Request, v: nat)
    returns (more: seq<Action>, t: State, q: CallId)
    requires c in s.coordinators && v < |s.history| && (request.Elect? ==> request.id != "")
    ensures Path(s, more, t, c) && CacheWasReadBy(s, t, c, q, request, v) && Enabled(t, Decide(q, 0))
  {
    hide Path;
    q := FreshId(s.calls.Keys);
    assert q !in s.calls;
    EmptyPath(s, c);
    more, t := [], s;
    PathStep(s, more, t, c, Begin(q, c, request));
    more, t := more + [Begin(q, c, request)], Apply(t, Begin(q, c, request));
    PathStep(s, more, t, c, CacheAnswer(q, Some(v)));
    more, t := more + [CacheAnswer(q, Some(v))], Apply(t, CacheAnswer(q, Some(v)));
    PathStep(s, more, t, c, Clock(q));
    more, t := more + [Clock(q)], Apply(t, Clock(q));
    assert t.calls == s.calls[q := t.calls[q]];
  }

  lemma EmptyPath(s: State, c: CoordinatorId)
    requires c in s.coordinators
    ensures Path(s, [], s, c)
  {
  }

  /** A metrics scrape reads version v from the cache. */
  lemma Scrapes(s: State, c: CoordinatorId, v: nat) returns (more: seq<Action>, t: State)
    requires c in s.coordinators && v < |s.history|
    ensures Path(s, more, t, c)
    ensures t.coordinators[c].slots ==
              Read(s.coordinators[c].slots, Some(s.history[v].lease), FromCache, s.now - s.coordinators[c].offset).slots
    ensures forall k <- s.calls :: t.calls[k] == s.calls[k]
  {
    hide Path, Read;
    var begin, u, q := CacheAnswers(s, c, Scrape, v);
    PathStep(s, begin, u, c, Decide(q, 0));
    more, t := begin + [Decide(q, 0)], Apply(u, Decide(q, 0));
    DecisionReads(u, q, 0);
    assert Path(s, more, t, c);
    PathKeepsCoordinator(s, more, t, c);
  }

  lemma PathKeepsCoordinator(s: State, more: seq<Action>, t: State, c: CoordinatorId)
    requires Path(s, more, t, c)
    ensures c in s.coordinators && c in t.coordinators && t.coordinators[c].offset == s.coordinators[c].offset
    ensures (t.history, t.present, t.now) == (s.history, s.present, s.now) && s.calls.Keys <= t.calls.Keys
  {
  }

  /** The clock reading with which a version in flight lands if that happens now. */
  function LandingTime(s: State, c: CoordinatorId, k: CallId): int
    requires c in s.coordinators && k in s.calls && InFlight(s.calls[k].pc).Some?
  {
    var pc := s.calls[k].pc;
    if pc.ApplyStore? || pc.ApplyWritten? then pc.elapsed else s.now - s.coordinators[c].offset
  }

  /** A version in flight reaches the slots. */
  lemma Lands(s: State, c: CoordinatorId, k: CallId, lease: Lease) returns (more: seq<Action>, t: State)
    requires Carries(s, c, k, lease) && s.calls[k].request.Elect?
    ensures Path(s, more, t, c)
    ensures t.coordinators[c].slots ==
              Read(s.coordinators[c].slots, Some(lease), FromStore, LandingTime(s, c, k)).slots
    ensures forall j <- s.calls :: j != k ==> t.calls[j] == s.calls[j]
  {
    hide Path, Read;
    EmptyPath(s, c);
    more, t := [], s;
    if s.calls[k].pc.TimeStore? || s.calls[k].pc.TimeWritten? {
      PathStep(s, more, t, c, Clock(k));
      more, t := more + [Clock(k)], Apply(t, Clock(k));
    }
    PathStep(s, more, t, c, Decide(k, 0));
    DecisionReads(t, k, 0);
    more, t := more + [Decide(k, 0)], Apply(t, Decide(k, 0));
  }

  // ----- from an exposed grant to a false defeat -----

  /** A version read from the cache now would be believed, and its timer runs. */
  predicate Believed(s: State, c: CoordinatorId, v: nat)
    requires c in s.coordinators && v < |s.history|
  {
    Read(s.coordinators[c].slots, Some(s.history[v].lease), FromCache, s.now - s.coordinators[c].offset).left > 0
  }

  /** Someone else's version that the cache still shows, and that is believed, turns the id down. */
  lemma BelievedDefeats(s: State, t: State, c: CoordinatorId, id: string, term: Term, v: nat, lead: seq<Action>)
    requires Path(s, lead, t, c) && id != "" && v < |s.history| && HolderAt(s.history, v) != id && Believed(t, c, v)
    requires Standing(s, term.uid) && !LaterEpochCommitted(s.history, term) && EpochsInRange(s.history)
    ensures CanDefeatFalsely(s, c, id, term)
  {
    hide LaterEpochCommitted, EpochsInRange, Read, KeepsProcess;
    var rest, u, q := CacheAnswers(t, c, Elect(Heartbeat, id), v);
    PathConcat(s, lead, t, rest, u, c);
    assert Reaches(s, lead + rest, u, c);
    assert FalselyDefeats(s, u, q, 0, c, id, term);
  }

  /** The store slot is on another object than this Lease. */
  predicate Elsewhere(s: State, c: CoordinatorId, lease: Lease) {
    c in s.coordinators &&
    s.coordinators[c].slots.store.Some? && s.coordinators[c].slots.store.value.uid != lease.uid
  }

  /** A misleading read can land in a store slot that is on another object. */
  lemma MakesRoom(s: State, c: CoordinatorId, term: Term, k: CallId, lease: Lease)
    returns (more: seq<Action>, t: State)
    requires Inv(s) && Carries(s, c, k, lease) && CarriesOther(s, c, term.uid)
    requires StoreKnows(s.coordinators[c].slots, term)
    ensures Path(s, more, t, c) && Elsewhere(t, c, lease) && t.calls[k] == s.calls[k]
    ensures t.coordinators[c].slots.cache == s.coordinators[c].slots.cache
  {
    if lease.uid != term.uid {
      EmptyPath(s, c);
      more, t := [], s;
    } else {
      var j, other :| Carries(s, c, j, other) && other.uid != term.uid;
      FlightIsElect(s, j);
      FlightIsCommitted(s, j);
      assert Follows(s.history, other.version);
      more, t := Lands(s, c, j, other);
      LandsElsewhere(s.history, s.coordinators[c], other, LandingTime(s, c, j), term);
    }
  }

  lemma FlightIsElect(s: State, k: CallId)
    requires Inv(s) && k in s.calls && InFlight(s.calls[k].pc).Some?
    ensures s.calls[k].request.Elect?
  {
    assert CallOk(s, k);
  }

  /** A store read of another object replaces the store slot, and only that. */
  lemma LandsElsewhere(h: seq<Commit>, c: Coordinator, lease: Lease, elapsed: int, term: Term)
    requires StoreKnows(c.slots, term) && lease.uid != term.uid && HasTerm(lease)
    ensures var after := Read(c.slots, Some(lease), FromStore, elapsed).slots;
            after.store.Some? && after.store.value.uid == lease.uid && after.cache == c.slots.cache
  {
  }

  predicate CacheIsFree(s: State, c: CoordinatorId, v: nat)
    requires c in s.coordinators
  {
    s.coordinators[c].slots.cache.Some? ==> s.coordinators[c].slots.cache.value.version != v
  }

  /** The cache slot is free for version v, or holds it with a timer that still runs. */
  predicate CacheIsOpen(s: State, c: CoordinatorId, lease: Lease, v: nat)
    requires c in s.coordinators
  {
    var cached := s.coordinators[c].slots.cache;
    || CacheIsFree(s, c, v)
    || (v == lease.version && SameVersion(cached, lease) && StillRuns(s, c, cached.value.observedAt))
  }

  /** A scrape of the last version frees the cache slot for another one. */
  lemma OpensCache(s: State, c: CoordinatorId, id: string, term: Term, lease: Lease, v: nat)
    returns (more: seq<Action>, t: State)
    requires Inv(s) && c in s.coordinators && Standing(s, term.uid) && TermGranted(s.history, id, term)
    requires !LaterEpochCommitted(s.history, term) && StoreKnows(s.coordinators[c].slots, term)
    requires Contradicts(s.history, id, lease, v)
    ensures Path(s, more, t, c) && CacheIsOpen(t, c, lease, v)
    ensures CacheIsOpen(s, c, lease, v) ==> t.coordinators == s.coordinators
    ensures t.coordinators[c].slots.store == s.coordinators[c].slots.store
    ensures forall k <- s.calls :: t.calls[k] == s.calls[k]
  {
    if CacheIsOpen(s, c, lease, v) {
      EmptyPath(s, c);
      more, t := [], s;
    } else {
      var last := |s.history| - 1;
      more, t := Scrapes(s, c, last);
      LastIsGranted(s, c, id, term);
      LastIsCached(s, c, term);
    }
  }

  lemma LastIsGranted(s: State, c: CoordinatorId, id: string, term: Term)
    requires Inv(s) && Standing(s, term.uid)
    requires TermGranted(s.history, id, term) && !LaterEpochCommitted(s.history, term)
    ensures HolderAt(s.history, |s.history| - 1) == id
  {
    hide AuthorsOk, CoordinatorOk, CallOk;
    CurrentIsOnTerm(s, id, term);
    GrantedVersions(s.history, id, term, |s.history| - 1);
  }

  /** The last version is not superseded, and a read from the cache puts it into the cache slot. */
  lemma LastIsCached(s: State, c: CoordinatorId, term: Term)
    requires Inv(s) && c in s.coordinators && Standing(s, term.uid)
    requires s.coordinators[c].slots.store.Some? ==> StoreKnows(s.coordinators[c].slots, term)
    ensures var slots, last := s.coordinators[c].slots, s.history[|s.history| - 1].lease;
            var after := Read(slots, Some(last), FromCache, s.now - s.coordinators[c].offset).slots;
            after.store == slots.store && after.cache.Some? && after.cache.value.version == |s.history| - 1
  {
    hide AuthorsOk, CallOk;
    var last := |s.history| - 1;
    assert CoordinatorOk(s.history, s.coordinators[c]) && Follows(s.history, last);
    if s.coordinators[c].slots.store.Some? {
      HistoryGrows(s.history, s.coordinators[c].slots.store.value.version, last);
    }
  }

  /** In a store slot on another object, the misleading read takes the slot and version v is believed. */
  lemma LandsMisleading(h: seq<Commit>, slots: Slots, lease: Lease, v: nat, offset: int, landed: int, now: int)
    requires HistoryOk(h) && Committed(h, lease) && v < |h|
    requires SlotOk(h, offset, slots.cache) && SlotOk(h, offset, slots.store)
    requires slots.store.Some? && slots.store.value.uid != lease.uid
    requires h[v].lease.uid == lease.uid && EpochAt(h, v) >= Epoch(Some(lease))
    requires slots.cache.Some? && slots.cache.value.version == v ==>
               v == lease.version && now < slots.cache.value.observedAt + offset + LEASE_DURATION
    requires v == lease.version && (slots.cache.Some? ==> slots.cache.value.version != v) ==>
               now < landed + offset + LEASE_DURATION
    ensures Read(Read(slots, Some(lease), FromStore, landed).slots, Some(h[v].lease), FromCache, now - offset).left > 0
  {
    assert Follows(h, v) && Follows(h, lease.version);
  }

  lemma {:induction false} RunFromKeepsInv(s: State, more: seq<Action>, t: State)
    requires Inv(s) && RunFrom(s, more) == Some(t) && EpochsInRange(t.history)
    ensures Inv(t)
    decreases |more|
  {
    hide Inv, EpochsInRange, Apply, Enabled;
    if more != [] {
      FirstStepKeepsInv(s, more, t);
      RunFromKeepsInv(Apply(s, more[0]), more[1..], t);
    }
  }

  /** When the cache slot is open and the store slot elsewhere, the misleading read leads to a false defeat. */
  lemma MisleadingReadDefeats(s: State, lead: seq<Action>, t: State, c: CoordinatorId, id: string, term: Term,
        k: CallId, lease: Lease, v: nat)
    requires Inv(t) && Path(s, lead, t, c) && id != "" && EpochsInRange(s.history)
    requires Standing(s, term.uid) && !LaterEpochCommitted(s.history, term)
    requires Carries(t, c, k, lease) && Contradicts(t.history, id, lease, v)
    requires Elsewhere(t, c, lease) && CacheIsOpen(t, c, lease, v)
    requires v == lease.version && CacheIsFree(t, c, v) ==> StillRuns(t, c, LandingTime(t, c, k))
    ensures CanDefeatFalsely(s, c, id, term)
  {
    hide Inv, Path, LaterEpochCommitted, EpochsInRange, Read, CanDefeatFalsely, AllInFlight;
    FlightIsElect(t, k);
    FlightIsCommitted(t, k);
    InvHasHistory(t);
    CoordinatorIsOk(t, c);
    PathKeepsCoordinator(s, lead, t, c);
    var more, u := Lands(t, c, k, lease);
    PathKeepsCoordinator(t, more, u, c);
    var process := t.coordinators[c];
    LandsMisleading(t.history, process.slots, lease, v, process.offset, LandingTime(t, c, k), t.now);
    PathConcat(s, lead, t, more, u, c);
    BelievedDefeats(s, u, c, id, term, v, lead + more);
  }

  lemma CoordinatorIsOk(s: State, c: CoordinatorId)
    requires Inv(s) && c in s.coordinators
    ensures CoordinatorOk(s.history, s.coordinators[c])
  {
  }

  /** Every exposed grant leads to a false defeat. */
  lemma ExposedCanDefeat(s: State, c: CoordinatorId, id: string, term: Term)
    requires Inv(s) && EpochsInRange(s.history) && c in s.coordinators && id != ""
    requires TermGranted(s.history, id, term) && StoreKnows(s.coordinators[c].slots, term)
    requires Exposed(s, c, id, term)
    ensures CanDefeatFalsely(s, c, id, term)
  {
    hide Inv, LaterEpochCommitted, EpochsInRange, Path, TermGranted, CanDefeatFalsely, Standing;
    var k, lease, v: nat :| Misleads(s, c, id, k, lease, v);
    var opening, t := OpensCache(s, c, id, term, lease, v);
    PathKeepsInv(s, opening, t, c);
    PathKeepsCoordinator(s, opening, t, c);
    FlightStays(s, t, c, term.uid);
    var moving, u := MakesRoom(t, c, term, k, lease);
    PathKeepsInv(t, moving, u, c);
    PathKeepsCoordinator(t, moving, u, c);
    PathConcat(s, opening, t, moving, u, c);
    MisleadingReadDefeats(s, opening + moving, u, c, id, term, k, lease, v);
  }

  lemma PathKeepsInv(s: State, more: seq<Action>, t: State, c: CoordinatorId)
    requires Inv(s) && Path(s, more, t, c) && EpochsInRange(s.history)
    ensures Inv(t)
  {
    RunFromKeepsInv(s, more, t);
  }

  lemma FlightStays(s: State, t: State, c: CoordinatorId, uid: nat)
    requires CarriesOther(s, c, uid) && c in t.coordinators && s.calls.Keys <= t.calls.Keys
    requires forall k <- s.calls :: t.calls[k] == s.calls[k]
    ensures CarriesOther(t, c, uid)
  {
    var k, lease :| Carries(s, c, k, lease) && lease.uid != uid;
    assert Carries(t, c, k, lease);
  }

  lemma DefeatIffExposed(s: State, c: CoordinatorId, id: string, term: Term)
    requires Inv(s) && EpochsInRange(s.history) && c in s.coordinators
    requires TermGranted(s.history, id, term) && StoreKnows(s.coordinators[c].slots, term)
    ensures CanDefeatFalsely(s, c, id, term) <==> Exposed(s, c, id, term)
  {
    hide Inv, EpochsInRange, Exposed, Reaches, TurnsDown, TermGranted, LaterEpochCommitted, ReadVersionAged;
    if Exposed(s, c, id, term) {
      HoldersHaveIds(s, id, term);
      ExposedCanDefeat(s, c, id, term);
    } else {
      forall more, t, k, wall | Reaches(s, more, t, c) && FalselyDefeats(s, t, k, wall, c, id, term) ensures false {
        KnowingNoFalseDefeat(s, c, id, term, more, t, k, wall);
      }
    }
  }

  lemma HoldersHaveIds(s: State, id: string, term: Term)
    requires Inv(s) && TermGranted(s.history, id, term)
    ensures id != ""
  {
    hide AuthorsOk, CoordinatorOk, CallOk;
    var i: nat :| i < |s.history| && HoldsTerm(s.history[i], id, term);
    assert Follows(s.history, i);
  }

  /**
   On any coordinator, as long as it knows the term: because it granted it, or because it has since
   read that term or a later one of the object from the store.
   */
  lemma KnowingDefeatIff(start: int, actions: seq<Action>, s: State, c: CoordinatorId, id: string, term: Term)
    requires Reached(start, actions, s) && TermGranted(s.history, id, term)
    requires c in s.coordinators && StoreKnows(s.coordinators[c].slots, term)
    ensures CanDefeatFalsely(s, c, id, term) <==> Exposed(s, c, id, term)
  {
    hide Run, Inv, Exposed, CanDefeatFalsely;
    RunKeepsInv(start, actions);
    DefeatIffExposed(s, c, id, term);
  }

  /**
   After a grant, some continuation in which the coordinator is not restarted ends in a false
   defeat if and only if the grant leaves the coordinator exposed.
   */
  lemma FalseDefeatIff(start: int, actions: seq<Action>, before: State, g: CallId, wall: int, id: string, term: Term)
    requires Reached(start, actions, before) && Grants(before, g, wall, id, term)
    ensures var s, c := DoDecide(before, g, wall), before.calls[g].coordinator;
            CanDefeatFalsely(s, c, id, term) <==> Exposed(s, c, id, term)
  {
    hide Run, Inv, EpochsInRange, Exposed, CanDefeatFalsely, TermGranted;
    RunKeepsInv(start, actions);
    DecideKeepsInv(before, g, wall);
    GrantIsKnown(before, g, wall, id, term);
    DefeatIffExposed(DoDecide(before, g, wall), before.calls[g].coordinator, id, term);
  }

  /** A restarted process has forgotten its grants: whoever else once held the Lease can turn the id down. */
  lemma RestartForgetsGrants(s: State, c: CoordinatorId, offset: int, id: string, term: Term, v: nat)
    requires Inv(s) && EpochsInRange(s.history) && id != ""
    requires Standing(s, term.uid) && !LaterEpochCommitted(s.history, term)
    requires v < |s.history| && HolderAt(s.history, v) != id
    ensures CanDefeatFalsely(DoRestart(s, c, offset), c, id, term)
  {
    hide CoordinatorOk, CallOk, AuthorsOk, LaterEpochCommitted;
    var t := DoRestart(s, c, offset);
    assert Follows(s.history, v);
    EmptyPath(t, c);
    BelievedDefeats(t, t, c, id, term, v, []);
  }

  // ----- a run to an exposed grant -----

  /** The state s, but for one call. */
  function Calling(s: State, k: CallId, call: Call): State {
    s.(calls := s.calls[k := call])
  }

  lemma OneMore(s: State, first: seq<Action>, t: State, a: Action, u: State)
    requires RunFrom(s, first) == Some(t) && Enabled(t, a) && Apply(t, a) == u
    ensures RunFrom(s, first + [a]) == Some(u)
  {
    hide Apply, Enabled;
    RunFromConcat(s, first, t, [a]);
    assert [a][1..] == [];
    assert RunFrom(u, []) == Some(u);
  }

  lemma RunFromNothing(s: State)
    ensures RunFrom(s, []) == Some(s)
  {
  }

  function Sent(s: State, c: CoordinatorId, op: Operation, id: string): Call {
    Call(c, Elect(op, id), s.now, true, ReadCache)
  }

  predicate IsStepOf(a: Action, q: CallId) {
    !a.Tick? && !a.Restart? && !a.Delete? && a.call == q
  }

  /** A new call finds nothing in the cache and goes on to the store. */
  lemma CacheMisses(s: State, c: CoordinatorId, q: CallId, op: Operation, id: string) returns (more: seq<Action>)
    requires c in s.coordinators && q !in s.calls && id != ""
    ensures RunFrom(s, more) == Some(Calling(s, q, Sent(s, c, op, id).(pc := ReadStore(0))))
    ensures forall a <- more :: IsStepOf(a, q)
  {
    hide RunFrom;
    var call, elapsed := Sent(s, c, op, id), s.now - s.coordinators[c].offset;
    var answered := Calling(s, q, call.(pc := TimeCache(None)));
    var timed := Calling(s, q, call.(pc := ApplyCache(None, elapsed)));
    RunFromNothing(s);
    more := [];
    OneMore(s, more, s, Begin(q, c, call.request), Calling(s, q, call));
    more := more + [Begin(q, c, call.request)];
    OneMore(s, more, Calling(s, q, call), CacheAnswer(q, None), answered);
    more := more + [CacheAnswer(q, None)];
    OneMore(s, more, answered, Clock(q), timed);
    more := more + [Clock(q)];
    Decides(timed, s, q, call, ReadStore(0));
    OneMore(s, more, timed, Decide(q, 0), Calling(s, q, call.(pc := ReadStore(0))));
    more := more + [Decide(q, 0)];
  }

  /** A critical section over no Lease at all leaves the slots. */
  lemma Decides(t: State, s: State, q: CallId, call: Call, pc: Pc)
    requires Enabled(t, Decide(q, 0)) && call.coordinator in s.coordinators
    requires t == Calling(s, q, call.(pc := t.calls[q].pc))
    requires Decision(t, q, 0) == (pc, s.coordinators[call.coordinator].slots)
    ensures DoDecide(t, q, 0) == Calling(s, q, call.(pc := pc))
  {
    hide Decision;
    assert DoDecide(t, q, 0).coordinators == s.coordinators;
    assert DoDecide(t, q, 0).calls == Calling(s, q, call.(pc := pc)).calls;
  }

  function NewVersion(s: State, id: string): Lease {
    NewLease(NAME, id, 0).(uid := |s.history|, version := |s.history|)
  }

  /** The state in which a campaign has created the Lease and is about to answer. */
  function Creating(s: State, c: CoordinatorId, q: CallId, id: string): State
    requires c in s.coordinators
  {
    Calling(s, q, Sent(s, c, Campaign, id).(pc := ApplyWritten(NewVersion(s, id), s.now - s.coordinators[c].offset)))
      .(history := s.history + [Commit(NewVersion(s, id), s.now, Created, q)], present := true)
  }

  /** Where there is no Lease, a campaign can create one. */
  lemma Creates(s: State, c: CoordinatorId, q: CallId, id: string) returns (more: seq<Action>)
    requires c in s.coordinators && q !in s.calls && id != "" && Current(s).None?
    ensures RunFrom(s, more) == Some(Creating(s, c, q, id))
  {
    hide RunFrom;
    var call, elapsed := Sent(s, c, Campaign, id), s.now - s.coordinators[c].offset;
    more := CacheMisses(s, c, q, Campaign, id);
    var answered := Calling(s, q, call.(pc := TimeStore(0, None)));
    var timed := Calling(s, q, call.(pc := ApplyStore(0, None, elapsed)));
    var writing := Calling(s, q, call.(pc := Write(0, None, NewLease(NAME, id, 0))));
    OneMore(s, more, Calling(s, q, call.(pc := ReadStore(0))), StoreAnswer(q), answered);
    more := more + [StoreAnswer(q)];
    OneMore(s, more, answered, Clock(q), timed);
    more := more + [Clock(q)];
    Decides(timed, s, q, call, Write(0, None, NewLease(NAME, id, 0)));
    OneMore(s, more, timed, Decide(q, 0), writing);
    more := more + [Decide(q, 0)];
    Writes(s, more, c, q, id);
    more := more + [Deliver(q)] + [Clock(q)];
  }

  lemma Writes(s: State, first: seq<Action>, c: CoordinatorId, q: CallId, id: string)
    requires c in s.coordinators && Current(s).None?
    requires RunFrom(s, first) ==
               Some(Calling(s, q, Sent(s, c, Campaign, id).(pc := Write(0, None, NewLease(NAME, id, 0)))))
    ensures RunFrom(s, first + [Deliver(q)] + [Clock(q)]) == Some(Creating(s, c, q, id))
  {
    hide RunFrom;
    var call := Sent(s, c, Campaign, id);
    var writing := Calling(s, q, call.(pc := Write(0, None, NewLease(NAME, id, 0))));
    var written := Creating(s, c, q, id).(calls := s.calls[q := call.(pc := TimeWritten(NewVersion(s, id)))]);
    assert DoDeliver(writing, q).calls == written.calls;
    OneMore(s, first, writing, Deliver(q), written);
    assert DoClock(written, q).calls == Creating(s, c, q, id).calls;
    OneMore(s, first + [Deliver(q)], written, Clock(q), Creating(s, c, q, id));
  }

  /** The first id campaigns and is granted the Lease. */
  lemma FirstGrant(a: string) returns (more: seq<Action>, s: State)
    requires a != ""
    ensures RunFrom(Init(0), more) == Some(s) && s.present && |s.history| == 1 && s.calls.Keys == {0}
    ensures HoldsTerm(s.history[0], a, Term(0, 1)) && s.history[0].lease.version == 0
    ensures 0 in s.coordinators
  {
    hide RunFrom, Read;
    var restarted := DoRestart(Init(0), 0, 0);
    RunFromNothing(Init(0));
    more := [];
    OneMore(Init(0), more, Init(0), Restart(0, 0), restarted);
    more := more + [Restart(0, 0)];
    var rest := Creates(restarted, 0, 0, a);
    RunFromConcat(Init(0), more, restarted, rest);
    more := more + rest;
    s := DoDecide(Creating(restarted, 0, 0, a), 0, 0);
    OneMore(Init(0), more, Creating(restarted, 0, 0, a), Decide(0, 0), s);
    more := more + [Decide(0, 0)];
  }

  /** Then one of its heartbeats reads the Lease, which is deleted before that read is in the slots. */
  lemma PausedHeartbeat(a: string) returns (more: seq<Action>, s: State)
    requires a != ""
    ensures RunFrom(Init(0), more) == Some(s) && Current(s).None? && |s.history| == 1 && s.calls.Keys == {0, 1}
    ensures HoldsTerm(s.history[0], a, Term(0, 1)) && s.history[0].lease.version == 0
    ensures Carries(s, 0, 1, s.history[0].lease) && s.calls[1].pc.TimeStore?
  {
    hide RunFrom;
    var granted;
    more, granted := FirstGrant(a);
    var rest := CacheMisses(granted, 0, 1, Heartbeat, a);
    RunFromConcat(Init(0), more, granted, rest);
    more := more + rest;
    var asking := Calling(granted, 1, Sent(granted, 0, Heartbeat, a).(pc := ReadStore(0)));
    var answered := Apply(asking, StoreAnswer(1));
    OneMore(Init(0), more, asking, StoreAnswer(1), answered);
    more := more + [StoreAnswer(1)];
    s := Apply(answered, Delete);
    OneMore(Init(0), more, answered, Delete, s);
    more := more + [Delete];
  }

  /**
   Two ids, one coordinator and one deletion suffice.  A heartbeat of the first id has read the
   Lease, which is then deleted; the second id creates it again and is granted its first term.
   The old read is still in flight, and can bring the second id a false defeat.
   */
  lemma DeletionExposes(a: string, b: string) returns (actions: seq<Action>, before: State)
    requires a != "" && b != "" && a != b
    ensures Reached(0, actions, before) && Grants(before, 2, 0, b, Term(1, 1)) && before.calls[2].coordinator == 0
    ensures Exposed(DoDecide(before, 2, 0), 0, b, Term(1, 1))
    ensures CanDefeatFalsely(DoDecide(before, 2, 0), 0, b, Term(1, 1))
  {
    hide RunFrom, Run, Read, CanDefeatFalsely;
    var first, s := PausedHeartbeat(a);
    var rest := Creates(s, 0, 2, b);
    before := Creating(s, 0, 2, b);
    RunFromConcat(Init(0), first, s, rest);
    assert Run(0, []) == Some(Init(0)) by {
      RunOfNothing(0);
    }
    RunExtends(0, [], Init(0), first + rest, before);
    actions := [] + (first + rest);
    var t := DoDecide(before, 2, 0);
    assert Misleads(t, 0, b, 1, s.history[0].lease, 0);
    assert Carries(t, 0, 1, s.history[0].lease);
    FalseDefeatIff(0, actions, before, 2, 0, b, Term(1, 1));
  }

  lemma RunOfNothing(start: int)
    ensures Run(start, []) == Some(Init(start))
  {
  }
}
