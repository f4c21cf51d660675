/**
 The real retry loop: Coordinator.elect against a store that other clients
 change between any two of its requests, and against clocks, a cache and
 errors that may be anything.  Its moves are the protocol's local moves.
 */
module Coordinators {
  import opened Options
  import opened Leases
  import opened Observations
  import opened Calls
  import opened Verdicts

  /** One request of this client to the store; a write tells which version it committed, if any. */
  datatype StoreCall = DidGet | DidWrite(committed: Option<nat>)

  datatype GetReply = Found(lease: Lease) | NotFound | GetError

  /** A lost reply says nothing: the write may have been committed. */
  datatype WriteReply = Written(lease: Lease) | Conflict | WriteError

  datatype Error = CacheNotReady | StorageError

  datatype ElectReply = Replied(result: Result) | Refused(error: Error)

  function Gets(log: seq<StoreCall>): nat {
    if log == [] then 0 else Gets(log[..|log| - 1]) + (if log[|log| - 1].DidGet? then 1 else 0)
  }

  function Writes(log: seq<StoreCall>): nat {
    if log == [] then 0 else Writes(log[..|log| - 1]) + (if log[|log| - 1].DidWrite? then 1 else 0)
  }

  /** The versions committed by the writes of this log. */
  function Commits(log: seq<StoreCall>): seq<nat> {
    if log == [] then []
    else
      var last := log[|log| - 1];
      Commits(log[..|log| - 1]) + (if last.DidWrite? && last.committed.Some? then [last.committed.value] else [])
  }

  lemma LogAppends(log: seq<StoreCall>, call: StoreCall)
    ensures Gets(log + [call]) == Gets(log) + (if call.DidGet? then 1 else 0)
    ensures Writes(log + [call]) == Writes(log) + (if call.DidWrite? then 1 else 0)
    ensures Commits(log + [call]) ==
            Commits(log) + if call.DidWrite? && call.committed.Some? then [call.committed.value] else []
  {
    assert (log + [call])[..|log|] == log;
  }

  /**
   The versioned store of one Lease name, between the requests of this client.  When it is quiet
   nobody else writes, and every request is answered.
   */
  class LeaseStore {
    const name: string
    const quiet: bool
    var history: seq<Lease>
    var present: bool
    var log: seq<StoreCall>

    predicate Valid()
      reads this
    {
      && (present ==> history != [])
      && (forall i: nat | i < |history| :: history[i].version == i && history[i].name == name)
    }

    function Current(): Option<Lease>
      requires Valid()
      reads this
    {
      if present then Some(history[|history| - 1]) else None
    }

    predicate IsCurrent(base: Option<Lease>)
      requires Valid()
      reads this
    {
      if base.None? then !present else present && history[|history| - 1].version == base.value.version
    }

    /** Other clients write, delete and create; the log of this client is its own. */
    method Interfere()
      requires Valid()
      modifies this`history, this`present
      ensures Valid() && old(history) <= history
      ensures quiet ==> history == old(history) && present == old(present)
    {
      if quiet {
        return;
      }
      var others: seq<Lease> := *;
      var remains: bool := *;
      if forall i: nat | i < |others| :: others[i].version == |history| + i && others[i].name == name {
        history := history + others;
      }
      present := remains && history != [];
    }

    /** A linearizable read, answered late or not at all. */
    method Get() returns (reply: GetReply)
      requires Valid()
      modifies this
      ensures Valid() && old(history) <= history && log == old(log) + [DidGet]
      ensures reply.Found? ==> reply.lease in history
      ensures quiet ==> history == old(history) && present == old(present)
                        && reply == match Current() { case None => NotFound case Some(lease) => Found(lease) }
    {
      Interfere();
      log := log + [DidGet];
      var fails: bool := *;
      if fails && !quiet {
        reply := GetError;
      } else {
        reply := if present then Found(history[|history| - 1]) else NotFound;
      }
      Interfere();
    }

    /** Create, when there is no base, or Update with the version of the base as its precondition. */
    method Write(base: Option<Lease>, proposal: Lease) returns (reply: WriteReply)
      requires Valid() && proposal.name == name
      modifies this
      ensures Valid() && old(history) <= history
      ensures |log| == |old(log)| + 1 && old(log) == log[..|old(log)|] && log[|old(log)|].DidWrite?
      ensures var committed := log[|old(log)|].committed;
              && (committed.Some? ==>
                    committed.value < |history| && WrittenFor(history[committed.value], base, proposal))
              && (reply.Written? ==> committed.Some? && reply.lease == history[committed.value])
              && (reply.Conflict? ==> committed.None?)
      ensures quiet && old(IsCurrent(base)) ==> reply.Written? && history == old(history) + [reply.lease] && present
    {
      Interfere();
      var committed: Option<nat> := None;
      if IsCurrent(base) {
        var stored := proposal.(version := |history|, uid := if base.None? then |history| else proposal.uid);
        committed := Some(|history|);
        history := history + [stored];
        present := true;
        reply := Written(stored);
      } else {
        reply := Conflict;
      }
      log := log + [DidWrite(committed)];
      var lost: bool := *;
      if lost && !quiet {
        reply := WriteError;
      }
      Interfere();
    }
  }

  /** The moves that a reply may stand for. */
  ghost predicate Explains(name: string, op: Operation, id: string, moves: seq<Move>, reply: ElectReply) {
    match reply
    case Refused(CacheNotReady) => moves == []
    case Refused(StorageError) => Moves(name, op, id, moves, Done(Failed))
    case Replied(result) => exists lease :: Moves(name, op, id, moves, Done(Answered(result, lease)))
  }

  /** This version made the id holder, and the reply is about it. */
  predicate Grants(history: seq<Lease>, i: nat, id: string, result: Result) {
    i < |history| && Holder(Some(history[i])) == id && result == SuccessWith(id, history[i])
  }

  lemma ProposalIsOwn(name: string, op: Operation, id: string, base: Option<Lease>, proposal: Lease)
    requires IsProposal(name, op, id, base, proposal) && (base.Some? ==> base.value.name == name)
    requires op == Heartbeat ==> Holder(base) == id
    ensures proposal.name == name && Holder(Some(proposal)) == id
  {
  }

  /** A time can run only on a Lease, and does for some memory and some clock reading. */
  ghost predicate CanRun(lease: Option<Lease>, running: bool) {
    exists slots, elapsed :: running == IsRunning(slots, lease, FromStore, elapsed)
  }

  /** A defeat from the cache: a holder's time runs, and the caller campaigns or is not that holder. */
  ghost predicate IsCacheDefeat(op: Operation, id: string, result: Result) {
    exists lease, slots, elapsed ::
      && IsRunning(slots, lease, FromCache, elapsed) && (op == Campaign || Holder(lease) != id)
      && result == DefeatBy(id, lease, true)
  }

  /** A defeat from the store: of what was read the call could not go through. */
  ghost predicate IsStoreDefeat(op: Operation, id: string, result: Result) {
    exists lease, running ::
      CanRun(lease, running) && !GoesThrough(op, id, lease, running) && result == DefeatBy(id, lease, running)
  }

  /** What an undisturbed call that reaches the store does to it and answers. */
  ghost predicate QuietAnswer(name: string, op: Operation, id: string, base: Option<Lease>, was: seq<Lease>,
        now: seq<Lease>, reply: ElectReply) {
    exists running :: CanRun(base, running) &&
      if GoesThrough(op, id, base, running)
      then |now| == |was| + 1 && now[..|was|] == was
           && IsProposal(name, op, id, base, WithVersionOf(now[|was|], base))
           && reply == Replied(SuccessWith(id, now[|was|]))
      else now == was && reply == Replied(DefeatBy(id, base, running))
  }

  function WithVersionOf(written: Lease, base: Option<Lease>): Lease {
    if base.Some? then written.(version := base.value.version) else written
  }

  /** What a reply says about the requests made for it. */
  ghost predicate Accounts(mine: seq<StoreCall>, history: seq<Lease>, op: Operation, id: string, reply: ElectReply) {
    && Gets(mine) <= 6 && Writes(mine) <= 5 && |Commits(mine)| <= 1
    && (reply.Replied? && reply.result.status == Defeat ==>
          Commits(mine) == [] && (IsCacheDefeat(op, id, reply.result) || IsStoreDefeat(op, id, reply.result)))
    && (reply.Replied? && reply.result.status == Success ==>
          exists i: nat :: Commits(mine) == [i] && Grants(history, i, id, reply.result))
  }

  /** The log of the attempts so far: a read and a failed write each. */
  predicate Underway(mine: seq<StoreCall>, attempt: nat) {
    attempt <= MAX_CAS_ATTEMPTS && Gets(mine) == Writes(mine) == attempt && Commits(mine) == []
  }

  /** The requests of the attempt that answers. */
  ghost predicate Settles(attempt: nat, requests: seq<StoreCall>, history: seq<Lease>, op: Operation, id: string,
        reply: ElectReply) {
    || (requests == [DidGet] &&
        (reply.Replied? ==> reply.result.status == Defeat && IsStoreDefeat(op, id, reply.result)))
    || (&& attempt < MAX_CAS_ATTEMPTS
        && |requests| == 2 && requests[0] == DidGet && requests[1].DidWrite?
        && (reply.Replied? ==>
              reply.result.status == Success && requests[1].committed.Some? &&
              Grants(history, requests[1].committed.value, id, reply.result)))
  }

  lemma NothingUnderway()
    ensures Underway([], 0)
  {
  }

  lemma SettledAccounts(mine: seq<StoreCall>, attempt: nat, requests: seq<StoreCall>, history: seq<Lease>,
        op: Operation, id: string, reply: ElectReply)
    requires Underway(mine, attempt) && Settles(attempt, requests, history, op, id, reply)
    ensures Accounts(mine + requests, history, op, id, reply)
  {
    hide IsStoreDefeat, IsCacheDefeat;
    LogAppends(mine, DidGet);
    if |requests| == 2 {
      LogAppends(mine + [DidGet], requests[1]);
      assert mine + requests == mine + [DidGet] + [requests[1]];
      if requests[1].committed.Some? {
        assert Commits(mine + requests) == [requests[1].committed.value];
      }
    }
  }

  lemma GoesOn(mine: seq<StoreCall>, attempt: nat)
    requires Underway(mine, attempt) && attempt < MAX_CAS_ATTEMPTS
    ensures Underway(mine + [DidGet, DidWrite(None)], attempt + 1)
  {
    LogAppends(mine, DidGet);
    LogAppends(mine + [DidGet], DidWrite(None));
    assert mine + [DidGet, DidWrite(None)] == mine + [DidGet] + [DidWrite(None)];
  }

  ghost function FailedRead(name: string, op: Operation, id: string, attempt: nat, before: seq<Move>)
    : (moves: seq<Move>)
    requires Moves(name, op, id, before, ReadStore(attempt))
    ensures Explains(name, op, id, moves, Refused(StorageError))
  {
    Extend(name, op, id, before, Move(ReadStore(attempt), NO_SLOTS, Done(Failed), NO_SLOTS))
  }

  /** The moves of an authoritative read, up to the decision. */
  ghost function StoreMoves(name: string, op: Operation, id: string, attempt: nat, before: seq<Move>,
        lease: Option<Lease>, elapsed: int, wall: int, slots: Slots): (r: (seq<Move>, Pc))
    requires Moves(name, op, id, before, ReadStore(attempt)) && attempt <= MAX_CAS_ATTEMPTS
    ensures Moves(name, op, id, r.0, r.1)
    ensures var running := IsRunning(slots, lease, FromStore, elapsed);
            r.1 == if !GoesThrough(op, id, lease, running) then Done(Answered(DefeatBy(id, lease, running), lease))
                   else if attempt == MAX_CAS_ATTEMPTS then Done(Failed)
                   else Write(attempt, lease, Proposal(op, name, id, lease, wall))
  {
    RemainingIsRunning(slots, lease, FromStore, elapsed);
    var next := DecideStore(name, op, id, attempt, lease, elapsed, wall, slots);
    var read := Extend(name, op, id, before, Move(ReadStore(attempt), NO_SLOTS, TimeStore(attempt, lease), NO_SLOTS));
    var timed := Extend(name, op, id, read,
                        Move(TimeStore(attempt, lease), NO_SLOTS, ApplyStore(attempt, lease, elapsed), NO_SLOTS));
    (Extend(name, op, id, timed, Move(ApplyStore(attempt, lease, elapsed), slots, next.0, next.1)), next.0)
  }

  /** The moves of a committed write, up to the answer. */
  ghost function WrittenMoves(name: string, op: Operation, id: string, attempt: nat, before: seq<Move>,
        base: Option<Lease>, proposal: Lease, written: Lease, elapsed: int, slots: Slots): (moves: seq<Move>)
    requires Moves(name, op, id, before, Write(attempt, base, proposal)) && WrittenFor(written, base, proposal)
    ensures Explains(name, op, id, moves, Replied(SuccessWith(id, written)))
  {
    var next := DecideWritten(id, written, elapsed, slots);
    var sent := Extend(name, op, id, before,
                       Move(Write(attempt, base, proposal), NO_SLOTS, TimeWritten(written), NO_SLOTS));
    var timed := Extend(name, op, id, sent,
                        Move(TimeWritten(written), NO_SLOTS, ApplyWritten(written, elapsed), NO_SLOTS));
    Extend(name, op, id, timed, Move(ApplyWritten(written, elapsed), slots, next.0, next.1))
  }

  ghost function FailedWrite(name: string, op: Operation, id: string, attempt: nat, before: seq<Move>,
        base: Option<Lease>, proposal: Lease): (moves: seq<Move>)
    requires Moves(name, op, id, before, Write(attempt, base, proposal))
    ensures Explains(name, op, id, moves, Refused(StorageError))
  {
    Extend(name, op, id, before, Move(Write(attempt, base, proposal), NO_SLOTS, Done(Failed), NO_SLOTS))
  }

  ghost function RefusedWrite(name: string, op: Operation, id: string, attempt: nat, before: seq<Move>,
        base: Option<Lease>, proposal: Lease): (moves: seq<Move>)
    requires Moves(name, op, id, before, Write(attempt, base, proposal))
    ensures Moves(name, op, id, moves, ReadStore(attempt + 1))
  {
    Extend(name, op, id, before, Move(Write(attempt, base, proposal), NO_SLOTS, ReadStore(attempt + 1), NO_SLOTS))
  }

  lemma AnswerIsExplained(name: string, op: Operation, id: string, moves: seq<Move>, result: Result,
        lease: Option<Lease>)
    requires Moves(name, op, id, moves, Done(Answered(result, lease)))
    ensures Explains(name, op, id, moves, Replied(result))
  {
  }

  lemma FailureIsExplained(name: string, op: Operation, id: string, moves: seq<Move>)
    requires Moves(name, op, id, moves, Done(Failed))
    ensures Explains(name, op, id, moves, Refused(StorageError))
  {
  }

  class Coordinator {
    const store: LeaseStore
    const observations: LeaseObservations

    constructor (store: LeaseStore, observations: LeaseObservations)
      ensures this.store == store && this.observations == observations
    {
      this.store := store;
      this.observations := observations;
    }

    /** The informer's copy: ready or not, an error, or any Lease of this name, however old. */
    method ReadCachedLease() returns (ready: bool, error: bool, lease: Option<Lease>)
      ensures lease.Some? ==> lease.value.name == store.name
    {
      ready, error, lease := *, *, *;
      if lease.Some? && lease.value.name != store.name {
        lease := None;
      }
    }

    /**
     remaining: elapsed is sampled, other calls of the process may get the mutex
     first, and then the critical section runs.  `slots` is what it saw.
     */
    method Remaining(lease: Option<Lease>, source: Source) returns (left: int, elapsed: int, ghost slots: Slots)
      requires lease.Some? ==> lease.value.name == store.name
      modifies observations
      ensures left == Read(slots, lease, source, elapsed).left
      ensures observations.SlotsOf(store.name) == Read(slots, lease, source, elapsed).slots
    {
      elapsed := *;
      observations.leases := *;
      slots := observations.SlotsOf(store.name);
      left := observations.Remaining(lease, source, elapsed);
    }

    /** The optimistic check against the cache: a reply, or None to go on to the store. */
    method CheckCache(op: Operation, id: string) returns (reply: Option<ElectReply>, ghost moves: seq<Move>)
      modifies observations
      ensures reply.Some? ==> Explains(store.name, op, id, moves, reply.value)
      ensures reply.Some? && reply.value.Replied? ==>
                reply.value.result.status == Defeat && IsCacheDefeat(op, id, reply.value.result)
      ensures reply.None? ==> Moves(store.name, op, id, moves, ReadStore(0))
    {
      moves := [];
      var ready, error, lease := ReadCachedLease();
      if !ready {
        return Some(Refused(CacheNotReady)), moves;
      }
      if error {
        moves := Extend(store.name, op, id, moves, Move(ReadCache, NO_SLOTS, Done(Failed), NO_SLOTS));
        return Some(Refused(StorageError)), moves;
      }
      moves := Extend(store.name, op, id, moves, Move(ReadCache, NO_SLOTS, TimeCache(lease), NO_SLOTS));
      var left, elapsed;
      ghost var slots;
      left, elapsed, slots := Remaining(lease, FromCache);
      moves := Extend(store.name, op, id, moves,
                      Move(TimeCache(lease), NO_SLOTS, ApplyCache(lease, elapsed), NO_SLOTS));
      ghost var next := DecideCache(Calls.Elect(op, id), lease, elapsed, slots);
      RemainingIsRunning(slots, lease, FromCache, elapsed);
      moves := Extend(store.name, op, id, moves, Move(ApplyCache(lease, elapsed), slots, next.0, next.1));
      if left > 0 && (op == Campaign || Holder(lease) != id) {
        return Some(Replied(ResultOf(Defeat, id, lease, true))), moves;
      }
      return None, moves;
    }

    /**
     The authoritative read of one attempt: a reply, or the write to send.  `running` is whether the
     holder's time still runs on this coordinator.
     */
    method CheckStore(op: Operation, id: string, attempt: nat, ghost before: seq<Move>)
      returns (reply: Option<ElectReply>, base: Option<Lease>, proposal: Lease, ghost running: bool,
               ghost moves: seq<Move>)
      requires store.Valid() && attempt <= MAX_CAS_ATTEMPTS
      requires Moves(store.name, op, id, before, ReadStore(attempt))
      modifies store, observations
      ensures store.Valid() && old(store.history) <= store.history && store.log == old(store.log) + [DidGet]
      ensures reply.Some? ==> Explains(store.name, op, id, moves, reply.value)
      ensures reply.Some? && reply.value.Replied? ==>
                CanRun(base, running) && !GoesThrough(op, id, base, running)
                && reply.value.result == DefeatBy(id, base, running)
      ensures reply.None? ==>
                && attempt < MAX_CAS_ATTEMPTS
                && CanRun(base, running) && GoesThrough(op, id, base, running)
                && IsProposal(store.name, op, id, base, proposal)
                && proposal.name == store.name && Holder(Some(proposal)) == id
                && Moves(store.name, op, id, moves, Write(attempt, base, proposal))
      ensures store.quiet ==>
                && store.history == old(store.history) && store.present == old(store.present)
                && base == old(store.Current()) && (attempt < MAX_CAS_ATTEMPTS ==> reply.None? || reply.value.Replied?)
    {
      hide Moves, LocalMove, Explains, Read, IsRunning, DecideStore, Proposal, IsProposal;
      moves, base, proposal, running := before, None, NewLease(store.name, id, 0), false;
      var answer := store.Get();
      if answer.GetError? {
        moves := FailedRead(store.name, op, id, attempt, moves);
        return Some(Refused(StorageError)), base, proposal, running, moves;
      }
      var missing := answer.NotFound?;
      base := if missing then None else Some(answer.lease);
      var left, elapsed;
      ghost var slots;
      left, elapsed, slots := Remaining(base, FromStore);
      var active := left > 0;
      RemainingIsRunning(slots, base, FromStore, elapsed);
      running := active;
      var wall: int := *;
      ghost var pc;
      pc := StoreMoves(store.name, op, id, attempt, moves, base, elapsed, wall, slots).1;
      moves := StoreMoves(store.name, op, id, attempt, moves, base, elapsed, wall, slots).0;
      if (op == Campaign && active) || (op == Heartbeat && (!active || Holder(base) != id)) {
        AnswerIsExplained(store.name, op, id, moves, ResultOf(Defeat, id, base, active), base);
        return Some(Replied(ResultOf(Defeat, id, base, active))), base, proposal, running, moves;
      }
      if attempt == MAX_CAS_ATTEMPTS {
        FailureIsExplained(store.name, op, id, moves);
        return Some(Refused(StorageError)), base, proposal, running, moves;
      }
      proposal := Propose(op, id, base, wall);
      ProposalIsFit(store.name, op, id, base, wall, running);
      ProposalIsOwn(store.name, op, id, base, proposal);
      return None, base, proposal, running, moves;
    }

    /** The Lease object that the write sends. */
    method Propose(op: Operation, id: string, base: Option<Lease>, wall: int) returns (proposal: Lease)
      ensures proposal == Proposal(op, store.name, id, base, wall)
    {
      if base.None? {
        proposal := NewLease(store.name, id, wall);
      } else {
        var candidate := new LeaseObject.Copy(base.value);
        if op == Campaign {
          candidate.AcquireLease(id, wall);
        } else {
          candidate.RenewLease(wall);
        }
        proposal := candidate.Value();
      }
    }

    /** The write of one attempt: a reply, or None after a conflict. */
    method TryWrite(op: Operation, id: string, attempt: nat, base: Option<Lease>, proposal: Lease,
          ghost before: seq<Move>)
      returns (reply: Option<ElectReply>, ghost committed: Option<nat>, ghost moves: seq<Move>)
      requires store.Valid() && proposal.name == store.name && Holder(Some(proposal)) == id
      requires Moves(store.name, op, id, before, Write(attempt, base, proposal))
      modifies store, observations
      ensures store.Valid() && old(store.history) <= store.history
      ensures store.log == old(store.log) + [DidWrite(committed)]
      ensures reply.None? ==> committed.None?
      ensures reply.Some? && reply.value.Replied? ==>
                reply.value.result.status == Success && committed.Some? &&
                Grants(store.history, committed.value, id, reply.value.result)
      ensures store.quiet && old(store.IsCurrent(base)) ==>
                && reply.Some? && reply.value.Replied?
                && |store.history| == |old(store.history)| + 1
                && store.history[..|old(store.history)|] == old(store.history)
                && WrittenFor(store.history[|old(store.history)|], base, proposal)
                && reply.value.result == SuccessWith(id, store.history[|old(store.history)|])
      ensures reply.Some? ==> Explains(store.name, op, id, moves, reply.value)
      ensures reply.None? ==> Moves(store.name, op, id, moves, ReadStore(attempt + 1))
    {
      hide Moves, Explains, Read;
      moves := before;
      var written := store.Write(base, proposal);
      committed := store.log[|store.log| - 1].committed;
      match written {
        case Conflict =>
          moves := RefusedWrite(store.name, op, id, attempt, moves, base, proposal);
          return None, committed, moves;
        case WriteError =>
          moves := FailedWrite(store.name, op, id, attempt, moves, base, proposal);
          return Some(Refused(StorageError)), committed, moves;
        case Written(updated) =>
          var left, elapsed;
          ghost var slots;
          left, elapsed, slots := Remaining(Some(updated), FromStore);
          moves := WrittenMoves(store.name, op, id, attempt, moves, base, proposal, updated, elapsed, slots);
          return Some(Replied(ResultOf(Success, id, Some(updated), true))), committed, moves;
      }
    }

    /** One round of the loop: a reply, or None after a conflict. */
    method Attempt(op: Operation, id: string, attempt: nat, ghost before: seq<Move>)
      returns (reply: Option<ElectReply>, ghost requests: seq<StoreCall>, ghost moves: seq<Move>)
      requires store.Valid() && attempt <= MAX_CAS_ATTEMPTS
      requires Moves(store.name, op, id, before, ReadStore(attempt))
      modifies store, observations
      ensures store.Valid() && old(store.history) <= store.history && store.log == old(store.log) + requests
      ensures reply.Some? ==>
                && Explains(store.name, op, id, moves, reply.value)
                && Settles(attempt, requests, store.history, op, id, reply.value)
      ensures reply.None? ==>
                && attempt < MAX_CAS_ATTEMPTS
                && requests == [DidGet, DidWrite(None)]
                && Moves(store.name, op, id, moves, ReadStore(attempt + 1))
      ensures requests != []
      ensures store.quiet && attempt < MAX_CAS_ATTEMPTS ==>
                reply.Some? && QuietAnswer(store.name, op, id, old(store.Current()), old(store.history), store.history,
                                           reply.value)
    {
      hide Moves, Explains, IsRunning, CanRun;
      var base, proposal;
      ghost var running;
      reply, base, proposal, running, moves := CheckStore(op, id, attempt, before);
      requests := [DidGet];
      if reply.None? {
        ghost var committed;
        reply, committed, moves := TryWrite(op, id, attempt, base, proposal, moves);
        requests := [DidGet, DidWrite(committed)];
      }
    }

    /** The loop, from its first round to the reply. */
    method Attempts(op: Operation, id: string, ghost before: seq<Move>)
      returns (reply: ElectReply, ghost mine: seq<StoreCall>, ghost moves: seq<Move>)
      requires store.Valid() && Moves(store.name, op, id, before, ReadStore(0))
      modifies store, observations
      ensures store.Valid() && old(store.history) <= store.history && store.log == old(store.log) + mine
      ensures Accounts(mine, store.history, op, id, reply) && Explains(store.name, op, id, moves, reply)
      ensures store.quiet ==>
                QuietAnswer(store.name, op, id, old(store.Current()), old(store.history), store.history, reply)
      ensures mine != []
    {
      hide Moves, Settles, Accounts, Explains, Underway, QuietAnswer;
      NothingUnderway();
      mine, moves := [], before;
      var attempt: nat := 0;
      var answer: Option<ElectReply> := None;
      while answer.None?
        invariant store.Valid() && old(store.history) <= store.history && store.log == old(store.log) + mine
        invariant answer.None? ==> Underway(mine, attempt) && attempt <= MAX_CAS_ATTEMPTS
                                   && Moves(store.name, op, id, moves, ReadStore(attempt))
        invariant answer.Some? ==> Accounts(mine, store.history, op, id, answer.value)
                                   && Explains(store.name, op, id, moves, answer.value)
        invariant answer.None? ==> (attempt == 0 <==> mine == [])
        invariant answer.Some? ==> mine != []
        invariant answer.None? && store.quiet ==>
                    attempt == 0 && store.history == old(store.history) && store.Current() == old(store.Current())
        invariant answer.Some? && store.quiet ==>
                    QuietAnswer(store.name, op, id, old(store.Current()), old(store.history), store.history,
                                answer.value)
        decreases answer.None?, MAX_CAS_ATTEMPTS - attempt
      {
        ghost var requests;
        answer, requests, moves := Attempt(op, id, attempt, moves);
        if answer.Some? {
          SettledAccounts(mine, attempt, requests, store.history, op, id, answer.value);
        } else {
          GoesOn(mine, attempt);
          attempt := attempt + 1;
        }
        mine := mine + requests;
      }
      reply := answer.value;
    }

    /**
     elect.  However others interfere, it ends after at most six reads and five
     writes; a success stands for exactly one committed write, which made the
     caller holder and which the reply describes, and a defeat for none; and its
     moves are local moves of the protocol that end in the reply.  When nobody
     disturbs it, the store changes and the reply is as the Lease that was there
     and its time on this coordinator require.
     */
    method Elect(op: Operation, id: string) returns (reply: ElectReply, ghost moves: seq<Move>)
      requires store.Valid()
      modifies store, observations
      ensures store.Valid() && old(store.history) <= store.history && old(store.log) <= store.log
      ensures Accounts(store.log[|old(store.log)|..], store.history, op, id, reply)
      ensures Explains(store.name, op, id, moves, reply)
      ensures store.quiet && store.log != old(store.log) ==>
                QuietAnswer(store.name, op, id, old(store.Current()), old(store.history), store.history, reply)
      ensures store.log == old(store.log) && reply.Replied? ==> IsCacheDefeat(op, id, reply.result)
    {
      hide Moves, Explains, IsCacheDefeat, QuietAnswer, CanRun;
      var answer;
      answer, moves := CheckCache(op, id);
      if answer.Some? {
        reply := answer.value;
        assert store.log[|old(store.log)|..] == [];
      } else {
        ghost var mine;
        reply, mine, moves := Attempts(op, id, moves);
        assert store.log[|old(store.log)|..] == mine;
      }
    }
  }
}
