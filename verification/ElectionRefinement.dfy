/**
 The real loop and the interleaving model agree: a step that the protocol makes
 for an elect call is a local move, and a local move whose answers come from
 the protocol's store, cache and clock is a step of the protocol.
 */
module ElectionRefinement {
  import opened Options
  import opened Leases
  import opened Observations
  import opened Calls
  import opened ElectionProtocol
  import opened ElectionInvariants

  /** The actions that move the program counter of this call. */
  predicate MovesCall(a: Action, k: CallId) {
    (a.CacheAnswer? || a.StoreAnswer? || a.Clock? || a.Decide? || a.Deliver?) && a.call == k
  }

  function SlotsOf(s: State, k: CallId): Slots
    requires Runs(s, k)
  {
    s.coordinators[s.calls[k].coordinator].slots
  }

  lemma StepIsLocalMove(s: State, a: Action, k: CallId)
    requires Enabled(s, a) && Runs(s, k) && MovesCall(a, k) && s.calls[k].request.Elect?
    ensures Runs(Apply(s, a), k)
    ensures var call, after := s.calls[k], Apply(s, a);
            LocalMove(NAME, call.request.op, call.request.id,
                      Move(call.pc, SlotsOf(s, k), after.calls[k].pc, SlotsOf(after, k)))
  {
    if a.Decide? && s.calls[k].pc.ApplyStore? {
      var call := s.calls[k];
      var ApplyStore(attempt, lease, elapsed) := call.pc;
      assert Decision(s, k, a.wall) ==
             DecideStore(NAME, call.request.op, call.request.id, attempt, lease, elapsed, a.wall, SlotsOf(s, k));
    }
  }

  /** The answers of this move are those of the protocol's store, cache and clock in this state. */
  predicate EnvironmentAgrees(s: State, k: CallId, m: Move)
    requires Runs(s, k)
  {
    var elapsed := s.now - s.coordinators[s.calls[k].coordinator].offset;
    match m.pc
    case ReadCache => m.next.TimeCache? && KnownTo(s.history, m.next.cached)
    case TimeCache(_) => m.next.ApplyCache? && m.next.elapsed == elapsed
    case ReadStore(_) => m.next.TimeStore? && m.next.stored == Current(s)
    case TimeStore(_, _) => m.next.ApplyStore? && m.next.elapsed == elapsed
    case Write(attempt, base, proposal) =>
      m.next == if Commits(s, base) then TimeWritten(Stored(|s.history|, base, proposal)) else ReadStore(attempt + 1)
    case TimeWritten(_) => m.next.ApplyWritten? && m.next.elapsed == elapsed
    case _ => true
  }

  lemma LocalMoveIsStep(s: State, k: CallId, op: Operation, id: string, m: Move) returns (a: Action)
    requires Runs(s, k) && s.calls[k].request == Elect(op, id)
    requires s.calls[k].pc == m.pc && SlotsOf(s, k) == m.slots
    requires LocalMove(NAME, op, id, m) && EnvironmentAgrees(s, k, m)
    ensures Enabled(s, a) && Runs(Apply(s, a), k)
    ensures Apply(s, a).calls[k].pc == m.next && SlotsOf(Apply(s, a), k) == m.nextSlots
  {
    match m.pc
    case ReadCache =>
      a := CacheAnswer(k, if m.next.cached.Some? then Some(m.next.cached.value.version) else None);
    case ReadStore(_) => a := StoreAnswer(k);
    case Write(_, _, _) => a := Deliver(k);
    case ApplyStore(attempt, lease, elapsed) =>
      var wall :| (m.next, m.nextSlots) == DecideStore(NAME, op, id, attempt, lease, elapsed, wall, m.slots);
      a := Decide(k, wall);
      assert Decision(s, k, wall) == (m.next, m.nextSlots);
    case ApplyCache(_, _) =>
      a := Decide(k, 0);
      assert Decision(s, k, 0) == (m.next, m.nextSlots);
    case ApplyWritten(_, _) =>
      a := Decide(k, 0);
      assert Decision(s, k, 0) == (m.next, m.nextSlots);
    case _ => a := Clock(k);
  }
}
