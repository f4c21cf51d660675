/**
 The election goes on: what each critical section answers in every reachable state, and that a Lease
 whose holder has stopped can be taken over, a held one renewed and a missing one created.
 */
module ElectionProgress {
  import opened Options
  import opened Leases
  import opened Observations
  import opened Calls
  import opened Verdicts
  import opened ElectionProtocol
  import opened ElectionInvariants
  import opened ElectionSafety
  import opened FalseDefeats

  // ----- who is touched by a step -----

  /**
   A step of one call leaves the others alone; a restart takes its coordinator, with everything it
   remembered, from its own calls and from no others; a client that goes away stops its own call, but
   not a write that is on its way.
   */
  lemma OthersGoOn(s: State, a: Action, k: CallId)
    requires Enabled(s, a) && k in s.calls
    ensures k in Apply(s, a).calls
    ensures var was, now := s.calls[k], Apply(s, a).calls[k];
            && (IsStepOf(a, k) || (a.Restart? && a.coordinator == was.coordinator) || now == was)
            && (a.Restart? && a.coordinator == was.coordinator ==> now == was.(live := false))
            && (a.Abandon? && a.call == k ==> now == was.(live := false))
            && (a.Deliver? && a.call == k ==>
                  if Commits(s, was.pc.base)
                  then |Apply(s, a).history| == |s.history| + 1 && (now.pc.TimeWritten? <==> was.live)
                  else Apply(s, a).history == s.history && (now.pc.ReadStore? <==> was.live))
  {
    hide Decision;
  }

  // ----- what a coordinator remembers, it has seen -----

  predicate SeenByNow(now: int, offset: int, slot: Option<Observation>) {
    slot.Some? ==> slot.value.observedAt + offset <= now
  }

  ghost predicate MemoryIsPast(s: State) {
    forall c | c in s.coordinators ::
      var p := s.coordinators[c]; SeenByNow(s.now, p.offset, p.slots.cache) && SeenByNow(s.now, p.offset, p.slots.store)
  }

  lemma StepKeepsMemoryPast(s: State, a: Action)
    requires Inv(s) && Enabled(s, a) && MemoryIsPast(s)
    ensures MemoryIsPast(Apply(s, a))
  {
    hide AuthorsOk, HistoryOk, CoordinatorOk, Commits;
    if a.Decide? {
      assert CallOk(s, a.call);
      DecisionReads(s, a.call, a.wall);
      hide Decision;
    } else {
      hide Decision;
    }
  }

  lemma {:induction false} RunKeepsMemoryPast(start: int, actions: seq<Action>)
    requires Run(start, actions).Some? && EpochsInRange(Run(start, actions).value.history)
    ensures MemoryIsPast(Run(start, actions).value)
  {
    hide MemoryIsPast, Inv, Apply, Enabled;
    if actions == [] {
      NothingIsPast(start);
    } else {
      var last := |actions| - 1;
      var before := Run(start, actions[..last]);
      HistoryOnlyGrows(before.value, actions[last]);
      RunKeepsInv(start, actions[..last]);
      RunKeepsMemoryPast(start, actions[..last]);
      StepKeepsMemoryPast(before.value, actions[last]);
    }
  }

  lemma NothingIsPast(start: int)
    ensures MemoryIsPast(Init(start))
  {
  }

  // ----- one authoritative read -----

  /** The state s after this call has read the store and taken its critical section. */
  function AfterRead(s: State, c: CoordinatorId, q: CallId, op: Operation, id: string): State
    requires c in s.coordinators
  {
    var p, lease := s.coordinators[c], Current(s);
    var (pc, slots) := DecideStore(NAME, op, id, 0, lease, s.now - p.offset, 0, p.slots);
    Calling(s, q, Sent(s, c, op, id).(pc := pc)).(coordinators := s.coordinators[c := p.(slots := slots)])
  }

  lemma ReadsStore(s: State, c: CoordinatorId, q: CallId, op: Operation, id: string) returns (more: seq<Action>)
    requires c in s.coordinators && q !in s.calls && id != ""
    ensures RunFrom(s, more) == Some(AfterRead(s, c, q, op, id)) && forall a <- more :: IsStepOf(a, q)
  {
    hide RunFrom, Read;
    var call, elapsed := Sent(s, c, op, id), s.now - s.coordinators[c].offset;
    more := CacheMisses(s, c, q, op, id);
    var asking := Calling(s, q, call.(pc := ReadStore(0)));
    var answered := Calling(s, q, call.(pc := TimeStore(0, Current(s))));
    var timed := Calling(s, q, call.(pc := ApplyStore(0, Current(s), elapsed)));
    OneMore(s, more, asking, StoreAnswer(q), answered);
    more := more + [StoreAnswer(q)];
    OneMore(s, more, answered, Clock(q), timed);
    more := more + [Clock(q)];
    DecidesRead(s, timed, c, q, op, id);
    OneMore(s, more, timed, Decide(q, 0), AfterRead(s, c, q, op, id));
    more := more + [Decide(q, 0)];
  }

  lemma DecidesRead(s: State, timed: State, c: CoordinatorId, q: CallId, op: Operation, id: string)
    requires c in s.coordinators
    requires timed == Calling(s, q, Sent(s, c, op, id).(pc :=
                        ApplyStore(0, Current(s), s.now - s.coordinators[c].offset)))
    ensures Enabled(timed, Decide(q, 0)) && DoDecide(timed, q, 0) == AfterRead(s, c, q, op, id)
  {
    hide Read;
    assert DoDecide(timed, q, 0).calls == AfterRead(s, c, q, op, id).calls;
  }

  function TimeRuns(s: State, c: CoordinatorId): bool
    requires c in s.coordinators
  {
    IsRunning(s.coordinators[c].slots, Current(s), FromStore, s.now - s.coordinators[c].offset)
  }

  // ----- one undisturbed call -----

  /** The version that the write of a call commits in state s. */
  ghost predicate CommitsOnce(s: State, t: State, q: CallId, op: Operation, id: string) {
    var base, n := Current(s), |s.history|;
    && q in t.calls && |t.history| == n + 1 && t.history[..n] == s.history && t.present
    && var written := t.history[n].lease;
       && t.history[n] == Commit(written, s.now, KindOf(Elect(op, id), base), q)
       && written.version == n && written.uid == (if base.Some? then base.value.uid else n)
       && Holder(Some(written)) == id && Seconds(Some(written)) == 30
       && Epoch(Some(written)) == Epoch(base) + (if op == Campaign then 1 else 0)
       && t.calls[q].pc == Done(Answered(Result(Success, id, id, 3, 30, Epoch(Some(written))), Some(written)))
  }

  lemma LastIsWellFormed(s: State)
    requires Inv(s) && s.present
    ensures s.history != [] && Current(s) == Some(s.history[|s.history| - 1].lease) && WellFormed(Current(s).value)
    ensures Current(s).value.version == |s.history| - 1
  {
    hide AuthorsOk, CoordinatorOk, CallOk;
    assert Follows(s.history, |s.history| - 1);
  }

  lemma ProposalIsFit(s: State, op: Operation, id: string, running: bool, proposal: Lease)
    requires Inv(s) && EpochsInRange(s.history) && GoesThrough(op, id, Current(s), running)
    requires IsProposal(NAME, op, id, Current(s), proposal) && (running ==> Current(s).Some?)
    ensures Holder(Some(proposal)) == id && Seconds(Some(proposal)) == 30
    ensures Epoch(Some(proposal)) == Epoch(Current(s)) + (if op == Campaign then 1 else 0)
    ensures Current(s).Some? ==> proposal.uid == Current(s).value.uid
  {
    hide AuthorsOk, CoordinatorOk, CallOk;
    if s.present {
      LastIsWellFormed(s);
      LastEpochFits(s);
    }
  }

  /** The write of a call reaches the store and is answered. */
  function Finished(u: State, q: CallId): State
    requires Enabled(u, Deliver(q)) && u.calls[q].live && u.calls[q].coordinator in u.coordinators
    requires u.calls[q].request.Elect? && Commits(u, u.calls[q].pc.base)
  {
    DoDecide(DoClock(DoDeliver(u, q), q), q, 0)
  }

  lemma FinishedIs(u: State, q: CallId)
    requires Enabled(u, Deliver(q)) && u.calls[q].live && u.calls[q].coordinator in u.coordinators
    requires u.calls[q].request.Elect? && Commits(u, u.calls[q].pc.base)
    ensures var t, written := Finished(u, q), Stored(|u.history|, u.calls[q].pc.base, u.calls[q].pc.proposal);
            && t.history == u.history + [Commit(written, u.now, KindOf(u.calls[q].request, u.calls[q].pc.base), q)]
            && t.present && t.now == u.now && q in t.calls
            && t.calls[q].pc == Done(Answered(SuccessWith(u.calls[q].request.id, written), Some(written)))
  {
    hide Read;
  }

  lemma RunsToFinish(s: State, first: seq<Action>, u: State, q: CallId) returns (more: seq<Action>)
    requires RunFrom(s, first) == Some(u) && forall a <- first :: IsStepOf(a, q)
    requires Enabled(u, Deliver(q)) && u.calls[q].live && u.calls[q].coordinator in u.coordinators
    requires u.calls[q].request.Elect? && Commits(u, u.calls[q].pc.base)
    ensures RunFrom(s, more) == Some(Finished(u, q)) && forall a <- more :: IsStepOf(a, q)
  {
    hide RunFrom, Read;
    var delivered := DoDeliver(u, q);
    OneMore(s, first, u, Deliver(q), delivered);
    var timed := DoClock(delivered, q);
    OneMore(s, first + [Deliver(q)], delivered, Clock(q), timed);
    more := first + [Deliver(q)] + [Clock(q)];
    OneMore(s, more, timed, Decide(q, 0), Finished(u, q));
    more := more + [Decide(q, 0)];
  }

  /** A write that nobody disturbs is committed and answered. */
  lemma WriteIsAnswered(s: State, first: seq<Action>, c: CoordinatorId, q: CallId, op: Operation, id: string)
    returns (more: seq<Action>, t: State)
    requires Inv(s) && EpochsInRange(s.history) && c in s.coordinators && q !in s.calls && id != ""
    requires RunFrom(s, first) == Some(AfterRead(s, c, q, op, id)) && forall a <- first :: IsStepOf(a, q)
    requires GoesThrough(op, id, Current(s), TimeRuns(s, c))
    ensures RunFrom(s, more) == Some(t) && (forall a <- more :: IsStepOf(a, q)) && CommitsOnce(s, t, q, op, id)
  {
    hide RunFrom, Inv, EpochsInRange, DecideStore, AfterRead, Finished, IsProposal, Read;
    var p, u := s.coordinators[c], AfterRead(s, c, q, op, id);
    StoreVerdict(NAME, op, id, 0, Current(s), s.now - p.offset, 0, p.slots);
    AfterReadIs(s, c, q, op, id);
    ProposalIsFit(s, op, id, TimeRuns(s, c), u.calls[q].pc.proposal);
    more := RunsToFinish(s, first, u, q);
    t := Finished(u, q);
    FinishedIs(u, q);
  }

  lemma AfterReadIs(s: State, c: CoordinatorId, q: CallId, op: Operation, id: string)
    requires c in s.coordinators
    ensures var u, p := AfterRead(s, c, q, op, id), s.coordinators[c];
            && (u.now, u.history, u.present) == (s.now, s.history, s.present) && c in u.coordinators && q in u.calls
            && u.calls[q] == Sent(s, c, op, id).(pc :=
                 DecideStore(NAME, op, id, 0, Current(s), s.now - p.offset, 0, p.slots).0)
            && u.coordinators[c] == p.(slots := Read(p.slots, Current(s), FromStore, s.now - p.offset).slots)
  {
    hide Read;
  }

  /**
   In every reachable state a call that nobody disturbs, and for which the cache has nothing, is
   answered: it goes through, with exactly one commit, when nobody's time runs on its coordinator, or
   for a heartbeat while its own does, and it is turned down otherwise.
   */
  lemma UndisturbedCall(start: int, actions: seq<Action>, s: State, c: CoordinatorId, op: Operation, id: string)
    returns (more: seq<Action>, t: State, q: CallId)
    requires Reached(start, actions, s) && c in s.coordinators && id != ""
    ensures q !in s.calls && RunFrom(s, more) == Some(t) && forall a <- more :: IsStepOf(a, q)
    ensures if GoesThrough(op, id, Current(s), TimeRuns(s, c)) then CommitsOnce(s, t, q, op, id)
            else t.history == s.history && q in t.calls &&
                 t.calls[q].pc == Done(Answered(DefeatBy(id, Current(s), TimeRuns(s, c)), Current(s)))
  {
    hide Run, RunFrom, Inv, EpochsInRange, AfterRead, GoesThrough, IsRunning, DecideStore, Read;
    RunKeepsInv(start, actions);
    q := FreshId(s.calls.Keys);
    assert q !in s.calls;
    more := ReadsStore(s, c, q, op, id);
    if GoesThrough(op, id, Current(s), TimeRuns(s, c)) {
      more, t := WriteIsAnswered(s, more, c, q, op, id);
    } else {
      t := AfterRead(s, c, q, op, id);
      var p := s.coordinators[c];
      StoreVerdict(NAME, op, id, 0, Current(s), s.now - p.offset, 0, p.slots);
      AfterReadIs(s, c, q, op, id);
    }
  }

  // ----- taking over -----

  /** The coordinator remembers the current version, has seen it by now, and knows nothing later. */
  ghost predicate Remembers(s: State, c: CoordinatorId) {
    && c in s.coordinators && Current(s).Some?
    && var p := s.coordinators[c];
       && Saw(p.slots.store, Current(s).value) && p.slots.store.value.observedAt + p.offset <= s.now
  }

  lemma ReadIsRemembered(s: State, c: CoordinatorId, q: CallId, op: Operation, id: string)
    requires Inv(s) && MemoryIsPast(s) && s.present && c in s.coordinators
    ensures Remembers(AfterRead(s, c, q, op, id), c)
  {
    hide AuthorsOk, CallOk, AfterRead;
    LastIsWellFormed(s);
    AfterReadIs(s, c, q, op, id);
    assert CoordinatorOk(s.history, s.coordinators[c]);
    var slot := s.coordinators[c].slots.store;
    if slot.Some? {
      HistoryGrows(s.history, slot.value.version, |s.history| - 1);
    }
  }

  lemma RememberedTimeIsOver(s: State, c: CoordinatorId, wait: nat)
    requires Inv(s) && Remembers(s, c) && wait >= LEASE_DURATION
    ensures !TimeRuns(s.(now := s.now + wait), c)
  {
    hide AuthorsOk, CallOk, CoordinatorOk;
    LastIsWellFormed(s);
  }

  /**
   Whoever holds the Lease and whatever the coordinators remember: after one read of the store and a
   wait of the lease duration, a campaign of any id on that coordinator takes the Lease over, with
   exactly one commit, one epoch later.
   */
  lemma AnyoneCanTakeOver(start: int, actions: seq<Action>, s: State, c: CoordinatorId, id: string, wait: nat)
    returns (first: seq<Action>, second: seq<Action>, t: State, q: CallId, r: CallId)
    requires Reached(start, actions, s) && s.present && c in s.coordinators && id != "" && wait >= LEASE_DURATION
    ensures (forall a <- first :: IsStepOf(a, q)) && forall a <- second :: IsStepOf(a, r)
    ensures RunFrom(s, first + [Tick(wait)] + second) == Some(t)
    ensures s.history != [] && |t.history| == |s.history| + 1 && t.history[..|s.history|] == s.history && r in t.calls
    ensures var was, now := s.history[|s.history| - 1].lease, t.history[|s.history|].lease;
            && now.uid == was.uid && now.holder == Some(id) && t.history[|s.history|].at == s.now + wait
            && Epoch(Some(now)) == Epoch(Some(was)) + 1
            && t.calls[r].pc == Done(Answered(Result(Success, id, id, 3, 30, Epoch(Some(was)) + 1), Some(now)))
  {
    hide Run, RunFrom, Inv, EpochsInRange, AfterRead, IsRunning, MemoryIsPast;
    RunKeepsInv(start, actions);
    RunKeepsMemoryPast(start, actions);
    LastIsWellFormed(s);
    q := FreshId(s.calls.Keys);
    assert q !in s.calls;
    first := ReadsStore(s, c, q, Campaign, id);
    var u := AfterRead(s, c, q, Campaign, id);
    AfterReadIs(s, c, q, Campaign, id);
    ReadIsRemembered(s, c, q, Campaign, id);
    var v := u.(now := u.now + wait);
    OneMore(s, first, u, Tick(wait), v);
    RunExtends(start, actions, s, first + [Tick(wait)], v);
    assert Reached(start, actions + (first + [Tick(wait)]), v);
    RunFromInv(start, actions + first, s, actions, first, u);
    RememberedTimeIsOver(u, c, wait);
    second, t, r := UndisturbedCall(start, actions + (first + [Tick(wait)]), v, c, Campaign, id);
    RunFromConcat(s, first + [Tick(wait)], v, second);
  }

  lemma RunFromInv(start: int, all: seq<Action>, s: State, actions: seq<Action>, first: seq<Action>, u: State)
    requires Run(start, actions) == Some(s) && RunFrom(s, first) == Some(u) && all == actions + first
    requires EpochsInRange(u.history)
    ensures Inv(u)
  {
    RunExtends(start, actions, s, first, u);
    RunKeepsInv(start, all);
  }
}
