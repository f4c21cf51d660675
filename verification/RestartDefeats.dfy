/**
 False defeats when restarts are allowed: on any coordinator, the one that granted the term or
 another, one is possible exactly when the history holds a version of someone else.
 */
module RestartDefeats {
  import opened Options
  import opened Leases
  import opened Observations
  import opened Calls
  import opened ElectionProtocol
  import opened ElectionInvariants
  import opened ElectionSafety
  import opened ElectionGrants
  import opened ElectionDefeats
  import opened FalseDefeats

  // ----- while every version is the id's own, nothing but age turns it down -----

  /** A call that began after the grant has read the store after it. */
  predicate ReadIsOnTerm(pc: Pc, term: Term) {
    pc.TimeStore? || pc.ApplyStore? ==>
      pc.stored.Some? && OnTerm(pc.stored.value.uid, Epoch(pc.stored), term)
  }

  /** What holds since the grant, whose calls these are, until a later epoch is committed. */
  ghost predicate Uncontested(s: State, begun: set<CallId>, id: string, term: Term) {
    && TermGranted(s.history, id, term)
    && begun <= s.calls.Keys
    && (LaterEpochCommitted(s.history, term)
        || (!HeldByOthers(s.history, id)
            && forall k | k in s.calls && k !in begun :: ReadIsOnTerm(s.calls[k].pc, term)))
  }

  lemma StepKeepsReads(s: State, a: Action, begun: set<CallId>, id: string, term: Term, k: CallId)
    requires Inv(s) && Enabled(s, a) && Standing(s, term.uid)
    requires Uncontested(s, begun, id, term) && !LaterEpochCommitted(s.history, term)
    requires k in Apply(s, a).calls && k !in begun
    ensures ReadIsOnTerm(Apply(s, a).calls[k].pc, term)
  {
    hide Inv, LaterEpochCommitted, TermGranted, HeldByOthers, Decision, Commits;
    match a {
      case StoreAnswer(_) => CurrentIsOnTerm(s, id, term);
      case Decide(j, wall) => DecidedLeavesNothing(s, j, wall);
      case _ =>
    }
  }

  lemma StepKeepsOwn(s: State, a: Action, id: string, term: Term)
    requires Inv(s) && Enabled(s, a) && Inv(Apply(s, a)) && Standing(Apply(s, a), term.uid)
    requires TermGranted(s.history, id, term) && !LaterEpochCommitted(Apply(s, a).history, term)
    ensures HeldByOthers(Apply(s, a).history, id) ==> HeldByOthers(s.history, id)
  {
    hide Inv, Apply, Enabled, LaterEpochCommitted, TermGranted, Standing;
    var h, h' := s.history, Apply(s, a).history;
    StepCommitsOnTerm(s, a, id, term);
    InvHasHistory(Apply(s, a));
    if HeldByOthers(h', id) {
      var v: nat :| v < |h'| && HolderAt(h', v) != id;
      if v >= |h| {
        GrantedVersions(h', id, term, v);
      }
      assert HolderAt(h, v) != id;
    }
  }

  lemma StepKeepsUncontested(s: State, a: Action, begun: set<CallId>, id: string, term: Term)
    requires Inv(s) && Enabled(s, a) && Inv(Apply(s, a)) && Uncontested(s, begun, id, term)
    requires Standing(s, term.uid) && Standing(Apply(s, a), term.uid)
    ensures Uncontested(Apply(s, a), begun, id, term)
  {
    hide Inv, LaterEpochCommitted, TermGranted, HeldByOthers, Standing, ReadIsOnTerm;
    var t := Apply(s, a);
    StepCommitsOnTerm(s, a, id, term);
    GrantStays(s.history, t.history, id, term);
    CallsStay(s, a);
    if !LaterEpochCommitted(t.history, term) {
      StepKeepsOwn(s, a, id, term);
      forall k | k in t.calls && k !in begun ensures ReadIsOnTerm(t.calls[k].pc, term) {
        StepKeepsReads(s, a, begun, id, term, k);
      }
    }
  }

  lemma CallsStay(s: State, a: Action)
    requires Enabled(s, a)
    ensures s.calls.Keys <= Apply(s, a).calls.Keys
  {
    hide Decision;
  }

  lemma {:induction false} RunKeepsUncontested(s: State, more: seq<Action>, t: State, begun: set<CallId>, id: string,
        term: Term)
    requires Inv(s) && Uncontested(s, begun, id, term) && Continues(s, more, t) && Standing(t, term.uid)
    ensures Inv(t) && Uncontested(t, begun, id, term)
    decreases |more|
  {
    hide Inv, EpochsInRange, LaterEpochCommitted, HeldByOthers, Apply, Enabled, Standing, ReadIsOnTerm;
    if more != [] {
      var u := Apply(s, more[0]);
      FirstStepKeepsInv(s, more, t);
      var i: nat :| i < |s.history| && HoldsTerm(s.history[i], id, term);
      StoodAllAlong(s, more, t, term.uid, i);
      StoodAllAlong(u, more[1..], t, term.uid, i);
      StepKeepsUncontested(s, more[0], begun, id, term);
      RunKeepsUncontested(u, more[1..], t, begun, id, term);
    }
  }

  /** A heartbeat is then turned down only over a later epoch or an aged version, on any coordinator. */
  lemma UncontestedDefeatIsJustified(s: State, t: State, k: CallId, wall: int, c: CoordinatorId, id: string,
        term: Term)
    requires Inv(t) && Uncontested(t, s.calls.Keys, id, term) && TurnsDown(s, t, k, wall, c, id)
    ensures LaterEpochCommitted(t.history, term) || ReadVersionAged(t, t.calls[k].pc)
  {
    hide AuthorsOk, Read;
    if !LaterEpochCommitted(t.history, term) {
      var process := t.coordinators[c];
      assert CallOk(t, k) && CoordinatorOk(t.history, process);
      match t.calls[k].pc
      case ApplyCache(lease, elapsed) => OwnVersionIsNoDefeat(t.history, process.slots, id, lease, elapsed);
      case ApplyStore(_, lease, elapsed) =>
        StoreDefeatIsJustified(t.history, t.now, process.offset, process.slots, id, term, lease.value, elapsed);
    }
  }

  lemma OwnVersionIsNoDefeat(h: seq<Commit>, slots: Slots, id: string, lease: Option<Lease>, elapsed: int)
    requires KnownTo(h, lease) && !HeldByOthers(h, id)
    ensures !CacheDefeats(Heartbeat, id, lease, Read(slots, lease, FromCache, elapsed).left)
  {
    if lease.Some? {
      assert HolderAt(h, lease.value.version) == Holder(lease);
    }
  }

  // ----- when a false defeat is possible -----

  lemma DefeatIsContested(s: State, more: seq<Action>, t: State, k: CallId, wall: int, c: CoordinatorId, id: string,
        term: Term)
    requires Inv(s) && TermGranted(s.history, id, term)
    requires Continues(s, more, t) && FalselyDefeats(s, t, k, wall, c, id, term)
    ensures Contested(s, id, term)
  {
    hide Inv, EpochsInRange, LaterEpochCommitted, HeldByOthers, TurnsDown, Standing, ReadVersionAged;
    var i: nat :| i < |s.history| && HoldsTerm(s.history[i], id, term);
    StoodAllAlong(s, more, t, term.uid, i);
    RunOnlyGrows(s, more, t);
    GrantStays(s.history, t.history, id, term);
    if !HeldByOthers(s.history, id) {
      RunKeepsUncontested(s, more, t, s.calls.Keys, id, term);
      UncontestedDefeatIsJustified(s, t, k, wall, c, id, term);
    }
  }

  lemma ContestedCanDefeat(s: State, c: CoordinatorId, id: string, term: Term)
    requires Inv(s) && EpochsInRange(s.history) && id != "" && Contested(s, id, term)
    ensures CanEverDefeatFalsely(s, c, id, term)
  {
    hide Inv, EpochsInRange, LaterEpochCommitted, Standing, DoRestart, ReadVersionAged, KeepsProcess;
    var v: nat :| v < |s.history| && HolderAt(s.history, v) != id;
    RestartForgetsGrants(s, c, 0, id, term, v);
    var u := DoRestart(s, c, 0);
    var more, t, k, wall :| Reaches(u, more, t, c) && FalselyDefeats(u, t, k, wall, c, id, term);
    RestartContinues(s, c, more, t);
    assert FalselyDefeats(s, t, k, wall, c, id, term);
  }

  lemma RestartContinues(s: State, c: CoordinatorId, more: seq<Action>, t: State)
    requires Continues(DoRestart(s, c, 0), more, t)
    ensures Continues(s, [Restart(c, 0)] + more, t) && DoRestart(s, c, 0).calls.Keys == s.calls.Keys
  {
    assert ([Restart(c, 0)] + more)[1..] == more;
  }

  lemma DefeatIffContested(s: State, c: CoordinatorId, id: string, term: Term)
    requires Inv(s) && EpochsInRange(s.history) && TermGranted(s.history, id, term)
    ensures CanEverDefeatFalsely(s, c, id, term) <==> Contested(s, id, term)
  {
    hide Inv, EpochsInRange, Contested, Continues, FalselyDefeats, TermGranted;
    if Contested(s, id, term) {
      HoldersHaveIds(s, id, term);
      ContestedCanDefeat(s, c, id, term);
    }
    if more, t, k, wall :| Continues(s, more, t) && FalselyDefeats(s, t, k, wall, c, id, term) {
      DefeatIsContested(s, more, t, k, wall, c, id, term);
    }
  }

  /** At any moment of any run, whoever granted the term and whatever coordinators remember. */
  lemma AnyDefeatIff(start: int, actions: seq<Action>, s: State, c: CoordinatorId, id: string, term: Term)
    requires Reached(start, actions, s) && TermGranted(s.history, id, term)
    ensures CanEverDefeatFalsely(s, c, id, term) <==> Contested(s, id, term)
  {
    hide Run, Inv, Contested, CanEverDefeatFalsely;
    RunKeepsInv(start, actions);
    DefeatIffContested(s, c, id, term);
  }

  /**
   After a grant, some continuation with any restarts ends in a false defeat on a coordinator, the
   granting one or any other, if and only if the object stands, no later epoch was committed and
   some version in the history was held by someone else.
   */
  lemma FalseDefeatAnywhereIff(start: int, actions: seq<Action>, before: State, g: CallId, wall: int, id: string,
        term: Term, c: CoordinatorId)
    requires Reached(start, actions, before) && Grants(before, g, wall, id, term)
    ensures var s := DoDecide(before, g, wall);
            CanEverDefeatFalsely(s, c, id, term) <==> Contested(s, id, term)
  {
    hide Run, Inv, EpochsInRange, Contested, CanEverDefeatFalsely, TermGranted, StoreKnows;
    RunKeepsInv(start, actions);
    DecideKeepsInv(before, g, wall);
    GrantIsKnown(before, g, wall, id, term);
    DefeatIffContested(DoDecide(before, g, wall), c, id, term);
  }

  // ----- a coordinator that has read nothing from the store -----

  lemma UnreadCanDefeat(s: State, c: CoordinatorId, id: string, term: Term)
    requires Inv(s) && EpochsInRange(s.history) && TermGranted(s.history, id, term) && id != ""
    requires c in s.coordinators && s.coordinators[c].slots.store.None? && Contested(s, id, term)
    ensures CanDefeatFalsely(s, c, id, term)
  {
    hide Inv, EpochsInRange, LaterEpochCommitted, TermGranted, Standing, Path, CanDefeatFalsely;
    var v: nat :| v < |s.history| && HolderAt(s.history, v) != id;
    var more, t := [], s;
    EmptyPath(s, c);
    if !CacheIsFree(s, c, v) {
      LastIsGranted(s, c, id, term);
      LastIsCached(s, c, term);
      more, t := Scrapes(s, c, |s.history| - 1);
    }
    PathKeepsCoordinator(s, more, t, c);
    FreshVersionIsBelieved(s, t, c, v);
    BelievedDefeats(s, t, c, id, term, v, more);
  }

  lemma FreshVersionIsBelieved(s: State, t: State, c: CoordinatorId, v: nat)
    requires Inv(s) && v < |s.history| && c in t.coordinators && t.history == s.history
    requires t.coordinators[c].slots.store.None? && CacheIsFree(t, c, v)
    ensures Believed(t, c, v)
  {
    hide AuthorsOk, CoordinatorOk, CallOk;
    assert Follows(s.history, v);
  }

  /** Without a restart, while the coordinator has read nothing from the store, the condition is the same. */
  lemma UnreadDefeatIff(start: int, actions: seq<Action>, s: State, c: CoordinatorId, id: string, term: Term)
    requires Reached(start, actions, s) && TermGranted(s.history, id, term)
    requires c in s.coordinators && s.coordinators[c].slots.store.None?
    ensures CanDefeatFalsely(s, c, id, term) <==> Contested(s, id, term)
  {
    hide Run, Inv, EpochsInRange, Contested, Continues, FalselyDefeats, TermGranted;
    RunKeepsInv(start, actions);
    if Contested(s, id, term) {
      HoldersHaveIds(s, id, term);
      UnreadCanDefeat(s, c, id, term);
    }
    if more, t, k, wall :| Reaches(s, more, t, c) && FalselyDefeats(s, t, k, wall, c, id, term) {
      DefeatIsContested(s, more, t, k, wall, c, id, term);
    }
  }

  // ----- such a run -----

  /** For any two ids there is such a grant: the object was the first id's and is the second's after a deletion. */
  lemma DeletionContests(a: string, b: string, c: CoordinatorId) returns (actions: seq<Action>, before: State)
    requires a != "" && b != "" && a != b
    ensures Reached(0, actions, before) && Grants(before, 2, 0, b, Term(1, 1))
    ensures Contested(DoDecide(before, 2, 0), b, Term(1, 1))
    ensures CanEverDefeatFalsely(DoDecide(before, 2, 0), c, b, Term(1, 1))
  {
    hide Reached, Decision, CanEverDefeatFalsely, LaterEpochCommitted, Standing;
    actions, before := DeletionExposes(a, b);
    ExposedIsContested(DoDecide(before, 2, 0), 0, b, Term(1, 1));
    FalseDefeatAnywhereIff(0, actions, before, 2, 0, b, Term(1, 1), c);
  }

  lemma ExposedIsContested(s: State, c: CoordinatorId, id: string, term: Term)
    requires Exposed(s, c, id, term)
    ensures Contested(s, id, term)
  {
    var k, lease, v: nat :| Misleads(s, c, id, k, lease, v);
  }
}
