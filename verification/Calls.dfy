/**
 One elect call as a program counter and the local decisions it takes.
 The interleaving model (ElectionProtocol) and the real loop (Coordinators)
 both move a call only through the functions of this module.
 */
module Calls {
  import opened Options
  import opened Leases
  import opened Observations

  /** The in-flight requests of a coordinator; a metrics scrape also reads the cache and its timers. */
  datatype Request = Elect(op: Operation, id: string) | Scrape

  datatype Reply =
    | Answered(result: Result, lease: Option<Lease>)  // the Lease that the result was computed from
    | Failed                                          // storage error, conflict after the last attempt, lost request
    | Scraped

  datatype Pc =
    | ReadCache
    | TimeCache(cached: Option<Lease>)                // cache answered, elapsed not sampled yet
    | ApplyCache(cached: Option<Lease>, elapsed: int) // elapsed sampled, mutex not taken yet
    | ReadStore(attempt: nat)
    | TimeStore(attempt: nat, stored: Option<Lease>)
    | ApplyStore(attempt: nat, stored: Option<Lease>, elapsed: int)
    | Write(attempt: nat, base: Option<Lease>, proposal: Lease)
    | TimeWritten(written: Lease)
    | ApplyWritten(written: Lease, elapsed: int)
    | Done(reply: Reply)

  /** The negative reply from cached state. */
  predicate CacheDefeats(op: Operation, id: string, lease: Option<Lease>, left: int) {
    left > 0 && (op == Campaign || Holder(lease) != id)
  }

  /** The negative reply from authoritative state. */
  predicate StoreDefeats(op: Operation, id: string, lease: Option<Lease>, left: int) {
    (op == Campaign && left > 0) || (op == Heartbeat && (left <= 0 || Holder(lease) != id))
  }

  /** The Lease object that the write sends: created, taken over or renewed. */
  function Proposal(op: Operation, name: string, id: string, base: Option<Lease>, wall: int): Lease {
    match base
    case None => NewLease(name, id, wall)
    case Some(lease) => if op == Campaign then Acquire(lease, id, wall) else Renew(lease, wall)
  }

  /** The critical section after the cache read. */
  function DecideCache(request: Request, lease: Option<Lease>, elapsed: int, slots: Slots): (Pc, Slots) {
    var reading := Read(slots, lease, FromCache, elapsed);
    match request
    case Scrape => (Done(Scraped), reading.slots)
    case Elect(op, id) =>
      if CacheDefeats(op, id, lease, reading.left)
      then (Done(Answered(ResultOf(Defeat, id, lease, true), lease)), reading.slots)
      else (ReadStore(0), reading.slots)
  }

  /** The critical section after an authoritative read, with the write it prepares. */
  function DecideStore(name: string, op: Operation, id: string, attempt: nat, lease: Option<Lease>,
                       elapsed: int, wall: int, slots: Slots): (Pc, Slots)
  {
    var reading := Read(slots, lease, FromStore, elapsed);
    if StoreDefeats(op, id, lease, reading.left)
    then (Done(Answered(ResultOf(Defeat, id, lease, reading.left > 0), lease)), reading.slots)
    else if attempt == MAX_CAS_ATTEMPTS then (Done(Failed), reading.slots)
    else (Write(attempt, lease, Proposal(op, name, id, lease, wall)), reading.slots)
  }

  /** The critical section after a committed write. */
  function DecideWritten(id: string, lease: Lease, elapsed: int, slots: Slots): (Pc, Slots) {
    (Done(Answered(ResultOf(Success, id, Some(lease), true), Some(lease))),
     Read(slots, Some(lease), FromStore, elapsed).slots)
  }

  predicate Succeeded(pc: Pc) {
    pc.Done? && pc.reply.Answered? && pc.reply.result.status == Success
  }

  predicate Defeated(pc: Pc) {
    pc.Done? && pc.reply.Answered? && pc.reply.result.status == Defeat
  }

  /** One local move of a call: its program counter and its coordinator's slots, before and after. */
  datatype Move = Move(pc: Pc, slots: Slots, next: Pc, nextSlots: Slots)

  /** What the store may have written for a proposal: versions, and the uid of a new object, are its own. */
  predicate WrittenFor(written: Lease, base: Option<Lease>, proposal: Lease) {
    written == proposal.(version := written.version, uid := if base.None? then written.uid else proposal.uid)
  }

  /** The moves that an elect call can make, whatever its environment answers. */
  ghost predicate LocalMove(name: string, op: Operation, id: string, m: Move) {
    match m.pc
    case ReadCache => (m.next.TimeCache? || m.next == Done(Failed)) && m.nextSlots == m.slots
    case TimeCache(lease) => m.next.ApplyCache? && m.next.cached == lease && m.nextSlots == m.slots
    case ApplyCache(lease, elapsed) =>
      (m.next, m.nextSlots) == DecideCache(Elect(op, id), lease, elapsed, m.slots)
    case ReadStore(attempt) =>
      && ((m.next.TimeStore? && m.next.attempt == attempt) || m.next == Done(Failed))
      && m.nextSlots == m.slots
    case TimeStore(attempt, lease) =>
      m.next.ApplyStore? && m.next.attempt == attempt && m.next.stored == lease && m.nextSlots == m.slots
    case ApplyStore(attempt, lease, elapsed) =>
      exists wall :: (m.next, m.nextSlots) == DecideStore(name, op, id, attempt, lease, elapsed, wall, m.slots)
    case Write(attempt, base, proposal) =>
      && (|| (m.next.TimeWritten? && WrittenFor(m.next.written, base, proposal))
          || m.next == ReadStore(attempt + 1)
          || m.next == Done(Failed))
      && m.nextSlots == m.slots
    case TimeWritten(lease) => m.next.ApplyWritten? && m.next.written == lease && m.nextSlots == m.slots
    case ApplyWritten(lease, elapsed) => (m.next, m.nextSlots) == DecideWritten(id, lease, elapsed, m.slots)
    case Done(_) => false
  }

  /** The moves of one call in order, from the cache read; between two moves others may change the slots. */
  ghost predicate Moves(name: string, op: Operation, id: string, moves: seq<Move>, pc: Pc) {
    if moves == [] then pc == ReadCache
    else
      var last := moves[|moves| - 1];
      last.next == pc && LocalMove(name, op, id, last) && Moves(name, op, id, moves[..|moves| - 1], last.pc)
  }

  ghost function Extend(name: string, op: Operation, id: string, moves: seq<Move>, m: Move): (longer: seq<Move>)
    requires Moves(name, op, id, moves, m.pc) && LocalMove(name, op, id, m)
    ensures longer == moves + [m] && Moves(name, op, id, longer, m.next)
  {
    assert (moves + [m])[..|moves|] == moves;
    moves + [m]
  }
}
