/**
 Wall-clock independence: two runs with the same schedule and the same elapsed
 readings, but arbitrary wall-clock readings, differ only in persisted
 timestamps.  `Erase` forgets those timestamps and commutes with every step.
 */
module WallClock {
  import opened Options
  import opened Leases
  import opened Observations
  import opened Calls
  import opened ElectionProtocol

  function EraseTime(t: Option<int>): Option<int> {
    if t.Some? then Some(0) else None
  }

  function EraseLease(lease: Lease): Lease {
    lease.(acquireTime := EraseTime(lease.acquireTime), renewTime := EraseTime(lease.renewTime))
  }

  function EraseOption(lease: Option<Lease>): Option<Lease> {
    if lease.Some? then Some(EraseLease(lease.value)) else None
  }

  function EraseReply(reply: Reply): Reply {
    if reply.Answered? then reply.(lease := EraseOption(reply.lease)) else reply
  }

  function ErasePc(pc: Pc): Pc {
    match pc
    case ReadCache => pc
    case TimeCache(lease) => TimeCache(EraseOption(lease))
    case ApplyCache(lease, elapsed) => ApplyCache(EraseOption(lease), elapsed)
    case ReadStore(_) => pc
    case TimeStore(attempt, lease) => TimeStore(attempt, EraseOption(lease))
    case ApplyStore(attempt, lease, elapsed) => ApplyStore(attempt, EraseOption(lease), elapsed)
    case Write(attempt, base, proposal) => Write(attempt, EraseOption(base), EraseLease(proposal))
    case TimeWritten(lease) => TimeWritten(EraseLease(lease))
    case ApplyWritten(lease, elapsed) => ApplyWritten(EraseLease(lease), elapsed)
    case Done(reply) => Done(EraseReply(reply))
  }

  function EraseCall(call: Call): Call {
    call.(pc := ErasePc(call.pc))
  }

  function EraseHistory(h: seq<Commit>): seq<Commit> {
    seq(|h|, i requires 0 <= i < |h| => h[i].(lease := EraseLease(h[i].lease)))
  }

  function Erase(s: State): State {
    s.(history := EraseHistory(s.history), calls := map k | k in s.calls :: EraseCall(s.calls[k]))
  }

  function EraseAction(a: Action): Action {
    if a.Decide? then a.(wall := 0) else a
  }

  function EraseActions(actions: seq<Action>): seq<Action> {
    seq(|actions|, i requires 0 <= i < |actions| => EraseAction(actions[i]))
  }

  lemma EnabledErases(s: State, a: Action)
    ensures Enabled(Erase(s), EraseAction(a)) == Enabled(s, a)
  {
  }

  lemma CurrentErases(s: State)
    ensures Current(Erase(s)) == EraseOption(Current(s))
  {
  }

  lemma AtErases(s: State, k: CallId, pc: Pc)
    requires k in s.calls
    ensures Erase(At(s, k, pc)) == At(Erase(s), k, ErasePc(pc))
  {
  }

  /** The two-slot memory never looks at a timestamp. */
  lemma ReadErases(slots: Slots, lease: Option<Lease>, source: Source, elapsed: int)
    ensures Read(slots, EraseOption(lease), source, elapsed) == Read(slots, lease, source, elapsed)
  {
  }

  lemma DecideStoreErases(op: Operation, id: string, attempt: nat, lease: Option<Lease>, elapsed: int, wall: int,
        slots: Slots)
    ensures var plain := DecideStore(NAME, op, id, attempt, lease, elapsed, wall, slots);
            DecideStore(NAME, op, id, attempt, EraseOption(lease), elapsed, 0, slots) == (ErasePc(plain.0), plain.1)
  {
    ReadErases(slots, lease, FromStore, elapsed);
  }

  lemma DecideCacheErases(request: Request, lease: Option<Lease>, elapsed: int, slots: Slots)
    ensures var plain := DecideCache(request, lease, elapsed, slots);
            DecideCache(request, EraseOption(lease), elapsed, slots) == (ErasePc(plain.0), plain.1)
  {
    ReadErases(slots, lease, FromCache, elapsed);
  }

  lemma DecisionErases(s: State, k: CallId, wall: int)
    requires Enabled(s, Decide(k, wall)) && Enabled(Erase(s), Decide(k, 0))
    ensures Decision(Erase(s), k, 0) == (ErasePc(Decision(s, k, wall).0), Decision(s, k, wall).1)
  {
    var call := s.calls[k];
    var slots := s.coordinators[call.coordinator].slots;
    assert Erase(s).calls[k] == EraseCall(call);
    match call.pc
    case ApplyCache(lease, elapsed) => DecideCacheErases(call.request, lease, elapsed, slots);
    case ApplyStore(attempt, lease, elapsed) =>
      DecideStoreErases(call.request.op, call.request.id, attempt, lease, elapsed, wall, slots);
    case ApplyWritten(lease, elapsed) => ReadErases(slots, Some(lease), FromStore, elapsed);
  }

  lemma DecideErases(s: State, k: CallId, wall: int)
    requires Enabled(s, Decide(k, wall))
    ensures Enabled(Erase(s), Decide(k, 0))
    ensures Erase(DoDecide(s, k, wall)) == DoDecide(Erase(s), k, 0)
  {
    EnabledErases(s, Decide(k, wall));
    DecisionErases(s, k, wall);
    AtErases(s, k, Decision(s, k, wall).0);
  }

  lemma HistoryErases(h: seq<Commit>, c: Commit)
    ensures EraseHistory(h + [c]) == EraseHistory(h) + [c.(lease := EraseLease(c.lease))]
  {
  }

  lemma CommitsErases(s: State, base: Option<Lease>)
    ensures Commits(Erase(s), EraseOption(base)) == Commits(s, base)
  {
    CurrentErases(s);
  }

  lemma StoredErases(request: Request, version: nat, base: Option<Lease>, proposal: Lease)
    ensures EraseLease(Stored(version, base, proposal)) == Stored(version, EraseOption(base), EraseLease(proposal))
    ensures KindOf(request, EraseOption(base)) == KindOf(request, base)
  {
  }

  lemma DeliverErases(s: State, k: CallId)
    requires Enabled(s, Deliver(k)) && Enabled(Erase(s), Deliver(k))
    ensures Erase(DoDeliver(s, k)) == DoDeliver(Erase(s), k)
  {
    hide Stored, KindOf, EraseLease, Current;
    var call := s.calls[k];
    assert Erase(s).calls[k] == EraseCall(call);
    var Write(attempt, base, proposal) := call.pc;
    CommitsErases(s, base);
    StoredErases(call.request, |s.history|, base, proposal);
    if Commits(s, base) {
      var stored := Stored(|s.history|, base, proposal);
      HistoryErases(s.history, Commit(stored, s.now, KindOf(call.request, base), k));
      AtErases(s, k, if call.live then TimeWritten(stored) else Done(Failed));
    } else {
      AtErases(s, k, if call.live then ReadStore(attempt + 1) else Done(Failed));
    }
  }

  lemma ClockErases(s: State, k: CallId)
    requires Enabled(s, Clock(k))
    ensures Enabled(Erase(s), Clock(k))
    ensures Erase(DoClock(s, k)) == DoClock(Erase(s), k)
  {
    AtErases(s, k, DoClock(s, k).calls[k].pc);
  }

  lemma CallsErase(s: State, a: Action)
    requires a.Restart? || a.Begin? || a.Abandon?
    requires Enabled(s, a) && Enabled(Erase(s), a)
    ensures Erase(Apply(s, a)) == Apply(Erase(s), a)
  {
    assert Erase(Apply(s, a)).calls == Apply(Erase(s), a).calls;
  }

  lemma StepErases(s: State, a: Action)
    requires Enabled(s, a) && Enabled(Erase(s), EraseAction(a))
    ensures Erase(Apply(s, a)) == Apply(Erase(s), EraseAction(a))
  {
    match a
    case Decide(k, wall) => DecideErases(s, k, wall);
    case Deliver(k) => DeliverErases(s, k);
    case Clock(k) => ClockErases(s, k);
    case CacheAnswer(k, v) =>
      AtErases(s, k, TimeCache(if v.Some? then Some(s.history[v.value].lease) else None));
    case StoreAnswer(k) =>
      CurrentErases(s);
      AtErases(s, k, TimeStore(s.calls[k].pc.attempt, Current(s)));
    case Restart(_, _) => CallsErase(s, a);
    case Begin(_, _, _) => CallsErase(s, a);
    case Abandon(_) => CallsErase(s, a);
    case _ =>
  }

  lemma {:induction false} RunErases(start: int, actions: seq<Action>)
    ensures var plain, erased := Run(start, actions), Run(start, EraseActions(actions));
            plain.Some? == erased.Some? && (plain.Some? ==> erased.value == Erase(plain.value))
  {
    if actions == [] {
      assert Erase(Init(start)) == Init(start);
    } else {
      var last := |actions| - 1;
      RunErases(start, actions[..last]);
      assert EraseActions(actions)[..last] == EraseActions(actions[..last]);
      var before := Run(start, actions[..last]);
      if before.Some? {
        EnabledErases(before.value, actions[last]);
        if Enabled(before.value, actions[last]) {
          StepErases(before.value, actions[last]);
        }
      }
    }
  }

  /** Two states show the same replies and the same committed terms. */
  ghost predicate SameOutcome(s: State, t: State) {
    && s.now == t.now && s.present == t.present && |s.history| == |t.history|
    && (forall i: nat | i < |s.history| ::
          var (x, y) := (s.history[i], t.history[i]);
          && x.at == y.at && x.kind == y.kind && x.author == y.author && x.lease.uid == y.lease.uid
          && Holder(Some(x.lease)) == Holder(Some(y.lease)) && Epoch(Some(x.lease)) == Epoch(Some(y.lease)))
    && s.calls.Keys == t.calls.Keys
    && (forall k | k in s.calls ::
          var (x, y) := (s.calls[k].pc, t.calls[k].pc);
          && x.Done? == y.Done?
          && (x.Done? ==> x.reply.Answered? == y.reply.Answered?)
          && (x.Done? && x.reply.Answered? ==> x.reply.result == y.reply.result))
  }

  lemma ErasedPcsAgree(x: Pc, y: Pc)
    requires ErasePc(x) == ErasePc(y)
    ensures x.Done? == y.Done?
    ensures x.Done? ==> x.reply.Answered? == y.reply.Answered?
    ensures x.Done? && x.reply.Answered? ==> x.reply.result == y.reply.result
  {
  }

  lemma ErasedHistoriesAgree(h: seq<Commit>, g: seq<Commit>, i: nat)
    requires EraseHistory(h) == EraseHistory(g) && i < |h|
    ensures |h| == |g|
    ensures h[i].(lease := EraseLease(h[i].lease)) == g[i].(lease := EraseLease(g[i].lease))
  {
    assert |EraseHistory(h)| == |h| && |EraseHistory(g)| == |g|;
    assert EraseHistory(h)[i] == EraseHistory(g)[i];
  }

  lemma ErasedLeasesAgree(x: Lease, y: Lease)
    requires EraseLease(x) == EraseLease(y)
    ensures x.uid == y.uid && Holder(Some(x)) == Holder(Some(y)) && Epoch(Some(x)) == Epoch(Some(y))
  {
    var e := EraseLease(x);
    assert x.uid == e.uid && x.holder == e.holder && x.transitions == e.transitions;
  }

  lemma ErasedAlikeSameOutcome(s: State, t: State)
    requires Erase(s) == Erase(t)
    ensures SameOutcome(s, t)
  {
    hide ErasePc;
    assert |EraseHistory(s.history)| == |s.history| && |EraseHistory(t.history)| == |t.history|;
    forall i: nat | i < |s.history|
      ensures var (x, y) := (s.history[i], t.history[i]);
              && x.at == y.at && x.kind == y.kind && x.author == y.author && x.lease.uid == y.lease.uid
              && Holder(Some(x.lease)) == Holder(Some(y.lease)) && Epoch(Some(x.lease)) == Epoch(Some(y.lease))
    {
      ErasedHistoriesAgree(s.history, t.history, i);
      ErasedLeasesAgree(s.history[i].lease, t.history[i].lease);
    }
    assert Erase(s).calls.Keys == s.calls.Keys && Erase(t).calls.Keys == t.calls.Keys;
    forall k | k in s.calls
      ensures var (x, y) := (s.calls[k].pc, t.calls[k].pc);
              && x.Done? == y.Done?
              && (x.Done? ==> x.reply.Answered? == y.reply.Answered?)
              && (x.Done? && x.reply.Answered? ==> x.reply.result == y.reply.result)
    {
      assert Erase(s).calls[k] == Erase(t).calls[k];
      ErasedPcsAgree(s.calls[k].pc, t.calls[k].pc);
    }
  }

  /**
   Two schedules that agree in everything but their wall-clock readings run
   equally far, and after every number of steps show the same replies, holders
   and epochs.
   */
  lemma WallClockDoesNotMatter(start: int, a: seq<Action>, b: seq<Action>, n: nat)
    requires EraseActions(a) == EraseActions(b) && n <= |a|
    ensures |a| == |b|
    ensures Run(start, a[..n]).Some? == Run(start, b[..n]).Some?
    ensures Run(start, a[..n]).Some? ==> SameOutcome(Run(start, a[..n]).value, Run(start, b[..n]).value)
  {
    assert |a| == |EraseActions(a)| == |b|;
    assert EraseActions(a[..n]) == EraseActions(a)[..n] == EraseActions(b[..n]);
    RunErases(start, a[..n]);
    RunErases(start, b[..n]);
    if Run(start, a[..n]).Some? {
      ErasedAlikeSameOutcome(Run(start, a[..n]).value, Run(start, b[..n]).value);
    }
  }
}
