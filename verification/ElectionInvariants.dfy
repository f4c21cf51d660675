/** What every step of the election protocol keeps. */
module ElectionInvariants {
  import opened Options
  import opened Leases
  import opened Observations
  import opened Calls
  import opened ElectionProtocol

  // ----- the history of committed versions -----

  predicate WellFormed(lease: Lease) {
    && HasTerm(lease)
    && lease.acquireTime.Some?
    && lease.duration == Some(LEASE_DURATION_SECONDS)
    && Epoch(Some(lease)) >= 1
  }

  predicate SameUid(h: seq<Commit>, i: nat, j: nat)
    requires i < |h| && j < |h|
  {
    h[i].lease.uid == h[j].lease.uid
  }

  function EpochAt(h: seq<Commit>, i: nat): int
    requires i < |h|
  {
    Epoch(Some(h[i].lease))
  }

  function HolderAt(h: seq<Commit>, i: nat): string
    requires i < |h|
  {
    Holder(Some(h[i].lease))
  }

  /** How version i follows from version i - 1. */
  predicate Follows(h: seq<Commit>, i: nat)
    requires i < |h|
  {
    && h[i].lease.version == i
    && WellFormed(h[i].lease)
    && (i > 0 ==> h[i - 1].at <= h[i].at)
    && match h[i].kind
       case Created => h[i].lease.uid == i && EpochAt(h, i) == 1
       case TakenOver =>
         i > 0 && SameUid(h, i - 1, i) && EpochAt(h, i) == EpochAt(h, i - 1) + 1 &&
         h[i - 1].at + LEASE_DURATION <= h[i].at
       case Renewed =>
         i > 0 && SameUid(h, i - 1, i) && EpochAt(h, i) == EpochAt(h, i - 1) && HolderAt(h, i) == HolderAt(h, i - 1)
  }

  ghost predicate HistoryOk(h: seq<Commit>) {
    forall i: nat | i < |h| :: Follows(h, i)
  }

  lemma {:induction false} HistoryGrows(h: seq<Commit>, i: nat, j: nat)
    requires HistoryOk(h) && i <= j < |h|
    ensures h[i].at <= h[j].at
    ensures h[i].lease.uid <= h[j].lease.uid <= j
    ensures SameUid(h, i, j) ==> EpochAt(h, i) <= EpochAt(h, j)
    ensures SameUid(h, i, j) && EpochAt(h, i) == EpochAt(h, j) ==> HolderAt(h, i) == HolderAt(h, j)
    decreases j
  {
    assert Follows(h, j);
    if i < j {
      HistoryGrows(h, i, j - 1);
    } else if h[j].kind != Created {
      HistoryGrows(h, j - 1, j - 1);
    }
  }

  /** Within one Lease object, two holders are at least one lease duration apart. */
  lemma {:induction false} HoldersAreApart(h: seq<Commit>, i: nat, j: nat)
    requires HistoryOk(h) && i <= j < |h|
    requires SameUid(h, i, j) && HolderAt(h, i) != HolderAt(h, j)
    ensures h[i].at + LEASE_DURATION <= h[j].at
    decreases j
  {
    assert Follows(h, j);
    HistoryGrows(h, i, j - 1);
    if h[j].kind == Renewed {
      HoldersAreApart(h, i, j - 1);
    }
  }

  // ----- what coordinators and calls know about the history -----

  predicate Committed(h: seq<Commit>, lease: Lease) {
    lease.version < |h| && h[lease.version].lease == lease
  }

  predicate KnownTo(h: seq<Commit>, lease: Option<Lease>) {
    lease.Some? ==> Committed(h, lease.value)
  }

  /** The slot holds a committed version, first seen after it was committed. */
  predicate SlotOk(h: seq<Commit>, offset: int, slot: Option<Observation>) {
    slot.Some? ==>
      var o := slot.value;
      && o.version < |h|
      && h[o.version].lease.uid == o.uid
      && EpochAt(h, o.version) == o.epoch
      && h[o.version].at <= o.observedAt + offset
  }

  predicate CoordinatorOk(h: seq<Commit>, c: Coordinator) {
    SlotOk(h, c.offset, c.slots.cache) && SlotOk(h, c.offset, c.slots.store)
  }

  /** Replacing this version cannot take a term that is still running. */
  predicate Expendable(h: seq<Commit>, now: int, lease: Lease)
    requires Committed(h, lease)
  {
    lease.version < |h| - 1 || h[lease.version].at + LEASE_DURATION <= now
  }

  /** The write of this call committed this version. */
  predicate Granted(h: seq<Commit>, k: CallId, call: Call, lease: Lease) {
    && Committed(h, lease)
    && h[lease.version].author == k
    && call.sentAt <= h[lease.version].at
    && call.request.Elect? && Holder(Some(lease)) == call.request.id
  }

  predicate Proposed(op: Operation, id: string, base: Option<Lease>, proposal: Lease) {
    proposal.renewTime.Some? && proposal == Proposal(op, NAME, id, base, proposal.renewTime.value)
  }

  predicate PcOk(h: seq<Commit>, now: int, k: CallId, call: Call) {
    && (call.request.Elect? ==> call.request.id != "")
    && match call.pc
       case ReadCache => true
       case TimeCache(lease) => KnownTo(h, lease)
       case ApplyCache(lease, _) => KnownTo(h, lease)
       case ReadStore(attempt) => call.request.Elect? && attempt <= MAX_CAS_ATTEMPTS
       case TimeStore(attempt, lease) => call.request.Elect? && attempt <= MAX_CAS_ATTEMPTS && KnownTo(h, lease)
       case ApplyStore(attempt, lease, _) => call.request.Elect? && attempt <= MAX_CAS_ATTEMPTS && KnownTo(h, lease)
       case Write(attempt, base, proposal) =>
         && call.request.Elect? && attempt < MAX_CAS_ATTEMPTS
         && KnownTo(h, base)
         && Proposed(call.request.op, call.request.id, base, proposal)
         && (call.request.op == Heartbeat ==> base.Some? && Holder(base) == call.request.id)
         && (call.request.op == Campaign && base.Some? ==> Expendable(h, now, base.value))
       case TimeWritten(lease) => Granted(h, k, call, lease)
       case ApplyWritten(lease, _) => Granted(h, k, call, lease)
       case Done(Answered(result, lease)) =>
         && call.request.Elect?
         && KnownTo(h, lease)
         && (result.status == Success ==>
               lease.Some? && Granted(h, k, call, lease.value) &&
               result == ResultOf(Success, call.request.id, lease, true))
       case Done(_) => true
  }

  /** The sampled time lies between the commit of what was read and now. */
  predicate Sampled(h: seq<Commit>, now: int, offset: int, lease: Option<Lease>, elapsed: int)
    requires KnownTo(h, lease)
  {
    elapsed + offset <= now && (lease.Some? ==> h[lease.value.version].at <= elapsed + offset)
  }

  predicate ClockOk(h: seq<Commit>, now: int, offset: int, k: CallId, call: Call)
    requires PcOk(h, now, k, call)
  {
    match call.pc
    case ApplyCache(lease, elapsed) => Sampled(h, now, offset, lease, elapsed)
    case ApplyStore(_, lease, elapsed) => Sampled(h, now, offset, lease, elapsed)
    case ApplyWritten(lease, elapsed) => Sampled(h, now, offset, Some(lease), elapsed)
    case _ => true
  }

  predicate CallOk(s: State, k: CallId)
    requires k in s.calls
  {
    var call := s.calls[k];
    && call.sentAt <= s.now
    && call.coordinator in s.coordinators
    && PcOk(s.history, s.now, k, call)
    && (call.live ==> ClockOk(s.history, s.now, s.coordinators[call.coordinator].offset, k, call))
  }

  /** A call whose write committed version i is past writing, and reports no other version. */
  predicate Spent(pc: Pc, i: nat) {
    match pc
    case TimeWritten(lease) => lease.version == i
    case ApplyWritten(lease, _) => lease.version == i
    case Done(Answered(result, lease)) => result.status == Success && lease.Some? && lease.value.version == i
    case Done(Failed) => true
    case _ => false
  }

  /** Every call commits at most one version. */
  ghost predicate AuthorsOk(s: State) {
    && (forall i: nat | i < |s.history| ::
          s.history[i].author in s.calls && Spent(s.calls[s.history[i].author].pc, i))
    && (forall i: nat, j: nat | i < j < |s.history| :: s.history[i].author != s.history[j].author)
  }

  ghost predicate Inv(s: State) {
    && HistoryOk(s.history)
    && (forall i: nat | i < |s.history| :: s.history[i].at <= s.now)
    && (s.present ==> s.history != [])
    && (forall c | c in s.coordinators :: CoordinatorOk(s.history, s.coordinators[c]))
    && (forall k | k in s.calls :: CallOk(s, k))
    && AuthorsOk(s)
  }

  // ----- preservation -----

  /** A call that a step does not touch stays in order. */
  lemma CallStaysOk(s: State, t: State, k: CallId)
    requires k in s.calls && CallOk(s, k)
    requires k in t.calls
    requires t.calls[k] == s.calls[k] || t.calls[k] == s.calls[k].(live := false)
    requires s.history <= t.history && s.now <= t.now
    requires s.calls[k].coordinator in t.coordinators
    requires t.calls[k].live ==>
               s.coordinators[s.calls[k].coordinator].offset == t.coordinators[s.calls[k].coordinator].offset
    ensures CallOk(t, k)
  {
    assert forall i: nat | i < |s.history| :: t.history[i] == s.history[i];
  }

  lemma NextFollows(h: seq<Commit>, now: int, op: Operation, id: string, base: Option<Lease>, proposal: Lease,
        k: CallId)
    requires HistoryOk(h) && id != "" && Proposed(op, id, base, proposal)
    requires h != [] ==> h[|h| - 1].at <= now && EpochAt(h, |h| - 1) < MAX_INT32
    requires base.Some? ==> h != [] && base.value == h[|h| - 1].lease
    requires op == Heartbeat ==> base.Some? && Holder(base) == id
    requires op == Campaign && base.Some? ==> h[|h| - 1].at + LEASE_DURATION <= now
    ensures var c := Commit(Stored(|h|, base, proposal), now, KindOf(Elect(op, id), base), k);
            Follows(h + [c], |h|)
  {
    assert h != [] ==> Follows(h, |h| - 1);
  }

  lemma AppendKeepsHistory(h: seq<Commit>, c: Commit)
    requires HistoryOk(h) && Follows(h + [c], |h|)
    ensures HistoryOk(h + [c])
  {
    forall i: nat | i < |h| ensures Follows(h + [c], i) {
      assert Follows(h, i);
    }
  }

  lemma CommitFollows(s: State, k: CallId)
    requires Enabled(s, Deliver(k)) && CallOk(s, k) && Commits(s, s.calls[k].pc.base)
    requires HistoryOk(s.history) && (s.history != [] ==> s.history[|s.history| - 1].at <= s.now)
    requires EpochsInRange(s.history)
    ensures HistoryOk(DoDeliver(s, k).history)
  {
    var h, n, call := s.history, |s.history|, s.calls[k];
    var Write(_, base, proposal) := call.pc;
    var c := Commit(Stored(n, base, proposal), s.now, KindOf(call.request, base), k);
    assert DoDeliver(s, k).history == h + [c];
    if n > 0 {
      assert Follows(h, n - 1);
      assert h[n - 1] in h;
    }
    NextFollows(h, s.now, call.request.op, call.request.id, base, proposal, k);
    AppendKeepsHistory(h, c);
  }

  lemma CommitIsGranted(s: State, k: CallId)
    requires Inv(s) && Enabled(s, Deliver(k)) && Commits(s, s.calls[k].pc.base)
    ensures CallOk(DoDeliver(s, k), k)
  {
    assert CallOk(s, k);
    assert s.present ==> Follows(s.history, |s.history| - 1);
  }

  lemma CommitKeepsAuthors(s: State, k: CallId)
    requires AuthorsOk(s) && Enabled(s, Deliver(k)) && Commits(s, s.calls[k].pc.base)
    ensures AuthorsOk(DoDeliver(s, k))
  {
    var t, n := DoDeliver(s, k), |s.history|;
    forall i: nat | i < n ensures t.history[i].author != k && Spent(t.calls[t.history[i].author].pc, i) {
      assert t.history[i] == s.history[i];
      assert Spent(s.calls[s.history[i].author].pc, i);
    }
  }

  lemma CommitKeepsOthers(s: State, k: CallId)
    requires Inv(s) && Enabled(s, Deliver(k)) && Commits(s, s.calls[k].pc.base)
    ensures var t := DoDeliver(s, k);
            && (forall j | j in t.calls && j != k :: CallOk(t, j))
            && (forall c | c in t.coordinators :: CoordinatorOk(t.history, t.coordinators[c]))
  {
    hide AuthorsOk, Follows;
    var t := DoDeliver(s, k);
    HistoryOnlyGrows(s, Deliver(k));
    forall j | j in t.calls && j != k ensures CallOk(t, j) {
      assert CallOk(s, j);
      CallStaysOk(s, t, j);
    }
    forall c | c in t.coordinators ensures CoordinatorOk(t.history, t.coordinators[c]) {
      assert CoordinatorOk(s.history, s.coordinators[c]);
    }
  }

  lemma CommitKeepsInv(s: State, k: CallId)
    requires Inv(s) && Enabled(s, Deliver(k)) && Commits(s, s.calls[k].pc.base)
    requires EpochsInRange(DoDeliver(s, k).history)
    ensures Inv(DoDeliver(s, k))
  {
    hide AuthorsOk, HistoryOk, CallOk, CoordinatorOk;
    var t := DoDeliver(s, k);
    assert CallOk(s, k);
    HistoryOnlyGrows(s, Deliver(k));
    CommitFollows(s, k);
    CommitIsGranted(s, k);
    CommitKeepsAuthors(s, k);
    CommitKeepsOthers(s, k);
  }

  /** A read that says "expired" was of a version that may be replaced. */
  lemma ExpiredIsExpendable(h: seq<Commit>, now: int, offset: int, slots: Slots, lease: Lease, elapsed: int)
    requires HistoryOk(h) && Committed(h, lease)
    requires SlotOk(h, offset, slots.cache) && SlotOk(h, offset, slots.store)
    requires Sampled(h, now, offset, Some(lease), elapsed)
    requires Read(slots, Some(lease), FromStore, elapsed).left <= 0
    ensures Expendable(h, now, lease)
  {
    assert Follows(h, lease.version);
    if Superseded(slots, lease, FromStore) {
      var o := slots.store.value;
      if o.version <= lease.version {
        HistoryGrows(h, o.version, lease.version);
      }
    }
  }

  lemma ReadKeepsSlots(h: seq<Commit>, now: int, offset: int, slots: Slots, lease: Option<Lease>, source: Source,
        elapsed: int)
    requires KnownTo(h, lease) && Sampled(h, now, offset, lease, elapsed)
    requires SlotOk(h, offset, slots.cache) && SlotOk(h, offset, slots.store)
    ensures var after := Read(slots, lease, source, elapsed).slots;
            SlotOk(h, offset, after.cache) && SlotOk(h, offset, after.store)
  {
  }

  /** The Lease and the source that a critical section considers. */
  function Considered(pc: Pc): (Option<Lease>, Source)
    requires pc.ApplyCache? || pc.ApplyStore? || pc.ApplyWritten?
  {
    match pc
    case ApplyCache(lease, _) => (lease, FromCache)
    case ApplyStore(_, lease, _) => (lease, FromStore)
    case ApplyWritten(lease, _) => (Some(lease), FromStore)
  }

  lemma DecisionReads(s: State, k: CallId, wall: int)
    requires Enabled(s, Decide(k, wall))
    ensures var pc := s.calls[k].pc;
            var slots := s.coordinators[s.calls[k].coordinator].slots;
            Decision(s, k, wall).1 == Read(slots, Considered(pc).0, Considered(pc).1, pc.elapsed).slots
  {
  }

  lemma DecisionKeepsSlots(s: State, k: CallId, wall: int)
    requires Enabled(s, Decide(k, wall)) && CallOk(s, k)
    requires CoordinatorOk(s.history, s.coordinators[s.calls[k].coordinator])
    ensures CoordinatorOk(s.history, DoDecide(s, k, wall).coordinators[s.calls[k].coordinator])
  {
    DecisionReads(s, k, wall);
    var c := s.coordinators[s.calls[k].coordinator];
    var (lease, source) := Considered(s.calls[k].pc);
    ReadKeepsSlots(s.history, s.now, c.offset, c.slots, lease, source, s.calls[k].pc.elapsed);
  }

  lemma StoreVerdictIsOk(h: seq<Commit>, now: int, k: CallId, call: Call, slots: Slots, offset: int, wall: int)
    requires HistoryOk(h) && call.pc.ApplyStore? && PcOk(h, now, k, call) && ClockOk(h, now, offset, k, call)
    requires SlotOk(h, offset, slots.cache) && SlotOk(h, offset, slots.store)
    ensures var (pc, _) := DecideStore(NAME, call.request.op, call.request.id, call.pc.attempt, call.pc.stored,
                                       call.pc.elapsed, wall, slots);
            PcOk(h, now, k, call.(pc := pc)) && ClockOk(h, now, offset, k, call.(pc := pc))
  {
    var ApplyStore(attempt, lease, elapsed) := call.pc;
    if lease.Some? && Read(slots, lease, FromStore, elapsed).left <= 0 {
      ExpiredIsExpendable(h, now, offset, slots, lease.value, elapsed);
    }
  }

  lemma DecisionIsOk(s: State, k: CallId, wall: int)
    requires HistoryOk(s.history) && Enabled(s, Decide(k, wall)) && CallOk(s, k)
    requires CoordinatorOk(s.history, s.coordinators[s.calls[k].coordinator])
    ensures CallOk(DoDecide(s, k, wall), k)
  {
    var call := s.calls[k];
    var c := s.coordinators[call.coordinator];
    if call.pc.ApplyStore? {
      StoreVerdictIsOk(s.history, s.now, k, call, c.slots, c.offset, wall);
    }
    var (pc, _) := Decision(s, k, wall);
    assert DoDecide(s, k, wall).calls[k] == call.(pc := pc);
    assert PcOk(s.history, s.now, k, call.(pc := pc));
  }

  lemma DecideKeepsAuthors(s: State, k: CallId, wall: int)
    requires AuthorsOk(s) && Enabled(s, Decide(k, wall))
    ensures AuthorsOk(DoDecide(s, k, wall))
  {
    var t := DoDecide(s, k, wall);
    forall i: nat | i < |t.history|
      ensures t.history[i].author in t.calls && Spent(t.calls[t.history[i].author].pc, i)
    {
      assert Spent(s.calls[s.history[i].author].pc, i);
    }
  }

  lemma DecideKeepsInv(s: State, k: CallId, wall: int)
    requires Inv(s) && Enabled(s, Decide(k, wall))
    ensures Inv(DoDecide(s, k, wall))
  {
    var t := DoDecide(s, k, wall);
    assert CallOk(s, k) && CoordinatorOk(s.history, s.coordinators[s.calls[k].coordinator]);
    DecisionIsOk(s, k, wall);
    DecisionKeepsSlots(s, k, wall);
    DecideKeepsAuthors(s, k, wall);
    assert t.history == s.history && t.now == s.now && t.present == s.present;
    forall j | j in t.calls && j != k ensures CallOk(t, j) {
      assert CallOk(s, j);
      CallStaysOk(s, t, j);
    }
    forall c | c in t.coordinators ensures CoordinatorOk(t.history, t.coordinators[c]) {
      assert c != s.calls[k].coordinator ==> CoordinatorOk(s.history, s.coordinators[c]);
    }
  }

  lemma AnswerIsOk(s: State, a: Action)
    requires Inv(s) && Enabled(s, a) && (a.CacheAnswer? || a.StoreAnswer?)
    ensures CallOk(Apply(s, a), a.call)
  {
    assert CallOk(s, a.call);
    if a.CacheAnswer? && a.version.Some? {
      assert Follows(s.history, a.version.value);
    } else if a.StoreAnswer? && s.present {
      assert Follows(s.history, |s.history| - 1);
    }
  }

  lemma SampleIsOk(s: State, k: CallId)
    requires Inv(s) && Enabled(s, Clock(k))
    ensures CallOk(DoClock(s, k), k)
  {
    assert CallOk(s, k);
  }

  lemma ConflictIsOk(s: State, k: CallId)
    requires Inv(s) && Enabled(s, Deliver(k)) && !Commits(s, s.calls[k].pc.base)
    ensures CallOk(DoDeliver(s, k), k)
  {
    assert CallOk(s, k);
  }

  /** Steps that leave the history, the slots and the clock offsets alone. */
  lemma QuietStepKeepsInv(s: State, a: Action)
    requires Inv(s) && Enabled(s, a)
    requires !a.Restart? && !a.Decide? && (a.Deliver? ==> !Commits(s, s.calls[a.call].pc.base))
    ensures Inv(Apply(s, a))
  {
    var t := Apply(s, a);
    assert t.history == s.history && t.coordinators == s.coordinators;
    match a {
      case CacheAnswer(_, _) => AnswerIsOk(s, a);
      case StoreAnswer(_) => AnswerIsOk(s, a);
      case Clock(k) => SampleIsOk(s, k);
      case Deliver(k) => ConflictIsOk(s, k);
      case _ =>
    }
    forall j | j in t.calls ensures CallOk(t, j) {
      if j in s.calls && (t.calls[j] == s.calls[j] || a.Abandon?) {
        assert CallOk(s, j);
        CallStaysOk(s, t, j);
      }
    }
    QuietStepKeepsAuthors(s, a);
  }

  lemma QuietStepKeepsAuthors(s: State, a: Action)
    requires Inv(s) && Enabled(s, a)
    requires !a.Restart? && !a.Decide? && (a.Deliver? ==> !Commits(s, s.calls[a.call].pc.base))
    ensures AuthorsOk(Apply(s, a))
  {
    var t := Apply(s, a);
    forall i: nat | i < |t.history|
      ensures t.history[i].author in t.calls && Spent(t.calls[t.history[i].author].pc, i)
    {
      assert Spent(s.calls[s.history[i].author].pc, i);
    }
  }

  lemma RestartKeepsInv(s: State, c: CoordinatorId, offset: int)
    requires Inv(s)
    ensures Inv(DoRestart(s, c, offset))
  {
    var t := DoRestart(s, c, offset);
    forall j | j in t.calls ensures CallOk(t, j) {
      assert CallOk(s, j);
      CallStaysOk(s, t, j);
    }
    forall d | d in t.coordinators ensures CoordinatorOk(t.history, t.coordinators[d]) {
      assert d != c ==> CoordinatorOk(s.history, s.coordinators[d]);
    }
  }

  lemma StepKeepsInv(s: State, a: Action)
    requires Inv(s) && Enabled(s, a) && EpochsInRange(Apply(s, a).history)
    ensures Inv(Apply(s, a))
  {
    match a
    case Restart(c, offset) => RestartKeepsInv(s, c, offset);
    case Decide(k, wall) => DecideKeepsInv(s, k, wall);
    case Deliver(k) =>
      if Commits(s, s.calls[k].pc.base) {
        CommitKeepsInv(s, k);
      } else {
        QuietStepKeepsInv(s, a);
      }
    case _ => QuietStepKeepsInv(s, a);
  }

  lemma HistoryOnlyGrows(s: State, a: Action)
    requires Enabled(s, a)
    ensures s.history <= Apply(s, a).history
    ensures EpochsInRange(Apply(s, a).history) ==> EpochsInRange(s.history)
  {
    var t := Apply(s, a);
    assert forall c <- s.history :: c in t.history;
  }

  lemma {:induction false} RunKeepsInv(start: int, actions: seq<Action>)
    requires Run(start, actions).Some? && EpochsInRange(Run(start, actions).value.history)
    ensures Inv(Run(start, actions).value)
  {
    if actions != [] {
      var last := |actions| - 1;
      var before := Run(start, actions[..last]);
      HistoryOnlyGrows(before.value, actions[last]);
      RunKeepsInv(start, actions[..last]);
      StepKeepsInv(before.value, actions[last]);
    }
  }
}
