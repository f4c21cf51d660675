/**
 The Lease election protocol as steps: one versioned store, any number of
 coordinators that restart at any time, and any number of interleaved calls.
 Every step is a function of the state and of a labelled action, so a run is a
 sequence of actions.
 */
module ElectionProtocol {
  import opened Options
  import opened Leases
  import opened Observations
  import opened Calls

  const NAME := "lease"

  type CallId = nat
  type CoordinatorId = nat

  datatype Kind = Created | TakenOver | Renewed

  /** A committed version: what was stored, when, how and by which call. */
  datatype Commit = Commit(lease: Lease, at: int, kind: Kind, author: CallId)

  /** A coordinator process: elapsed time is global time minus its offset. */
  datatype Coordinator = Coordinator(offset: int, slots: Slots)

  /**
   A call in flight or finished.  A call that is not live has lost its client
   or its coordinator; a write it has already sent may still reach the store.
   */
  datatype Call = Call(
    coordinator: CoordinatorId,
    request: Request,
    sentAt: int,
    live: bool,
    pc: Pc)

  /** `present` tells whether the last committed version is still in the store or was deleted. */
  datatype State = State(
    now: int,
    history: seq<Commit>,
    present: bool,
    coordinators: map<CoordinatorId, Coordinator>,
    calls: map<CallId, Call>)

  datatype Action =
    | Tick(span: nat)
    | Restart(coordinator: CoordinatorId, offset: int)
    | Delete                                              // an administrator deletes the Lease
    | Begin(call: CallId, coordinator: CoordinatorId, request: Request)
    | CacheAnswer(call: CallId, version: Option<nat>)     // any past version, or not found
    | StoreAnswer(call: CallId)                           // linearizable GET
    | Clock(call: CallId)                                 // elapsed is sampled before the mutex is taken
    | Decide(call: CallId, wall: int)                     // the critical section, then the wall clock
    | Deliver(call: CallId)                               // the write reaches the store
    | Abandon(call: CallId)                               // timeout, cancelled context, lost response

  function Init(now: int): State {
    State(now, [], false, map[], map[])
  }

  /** The authoritative Lease. */
  function Current(s: State): Option<Lease> {
    if s.present && s.history != [] then Some(s.history[|s.history| - 1].lease) else None
  }

  /** The compare-and-swap: only an unchanged resourceVersion commits, and Create needs absence. */
  predicate Commits(s: State, base: Option<Lease>) {
    match base
    case None => Current(s).None?
    case Some(lease) => Current(s).Some? && Current(s).value.version == lease.version
  }

  /** The store fills in a fresh version, and for a creation a fresh uid. */
  function Stored(next: nat, base: Option<Lease>, proposal: Lease): Lease {
    if base.None? then proposal.(uid := next, version := next) else proposal.(version := next)
  }

  function KindOf(request: Request, base: Option<Lease>): Kind {
    if base.None? then Created
    else if request.Elect? && request.op == Campaign then TakenOver
    else Renewed
  }

  predicate Enabled(s: State, a: Action) {
    match a
    case Tick(_) => true
    case Restart(_, _) => true
    case Delete => s.present
    case Begin(k, c, request) => k !in s.calls && c in s.coordinators && (request.Elect? ==> request.id != "")
    case CacheAnswer(k, v) => Runs(s, k) && s.calls[k].pc.ReadCache? && (v.Some? ==> v.value < |s.history|)
    case StoreAnswer(k) => Runs(s, k) && s.calls[k].pc.ReadStore?
    case Clock(k) =>
      Runs(s, k) && (s.calls[k].pc.TimeCache? || s.calls[k].pc.TimeStore? || s.calls[k].pc.TimeWritten?)
    case Decide(k, _) =>
      && Runs(s, k)
      && (|| s.calls[k].pc.ApplyCache?
          || (s.calls[k].request.Elect? && (s.calls[k].pc.ApplyStore? || s.calls[k].pc.ApplyWritten?)))
    case Deliver(k) => k in s.calls && s.calls[k].pc.Write?
    case Abandon(k) => k in s.calls && s.calls[k].live
  }

  predicate Runs(s: State, k: CallId) {
    k in s.calls && s.calls[k].live && s.calls[k].coordinator in s.coordinators
  }

  function At(s: State, k: CallId, pc: Pc): State
    requires k in s.calls
  {
    s.(calls := s.calls[k := s.calls[k].(pc := pc)])
  }

  /** A restarted process has a new clock offset and empty slots, and its calls lose their coordinator. */
  function DoRestart(s: State, c: CoordinatorId, offset: int): State {
    s.(coordinators := s.coordinators[c := Coordinator(offset, NO_SLOTS)],
       calls := map k | k in s.calls ::
                  if s.calls[k].coordinator == c then s.calls[k].(live := false) else s.calls[k])
  }

  function DoBegin(s: State, k: CallId, c: CoordinatorId, request: Request): State
    requires Enabled(s, Begin(k, c, request))
  {
    s.(calls := s.calls[k := Call(c, request, s.now, true, ReadCache)])
  }

  function DoClock(s: State, k: CallId): State
    requires Enabled(s, Clock(k))
  {
    var elapsed := s.now - s.coordinators[s.calls[k].coordinator].offset;
    At(s, k,
       match s.calls[k].pc
       case TimeCache(lease) => ApplyCache(lease, elapsed)
       case TimeStore(attempt, lease) => ApplyStore(attempt, lease, elapsed)
       case TimeWritten(lease) => ApplyWritten(lease, elapsed))
  }

  /** The next program counter and slots of a critical section. */
  function Decision(s: State, k: CallId, wall: int): (Pc, Slots)
    requires Enabled(s, Decide(k, wall))
  {
    var call := s.calls[k];
    var slots := s.coordinators[call.coordinator].slots;
    match call.pc
    case ApplyCache(lease, elapsed) => DecideCache(call.request, lease, elapsed, slots)
    case ApplyStore(attempt, lease, elapsed) =>
      DecideStore(NAME, call.request.op, call.request.id, attempt, lease, elapsed, wall, slots)
    case ApplyWritten(lease, elapsed) => DecideWritten(call.request.id, lease, elapsed, slots)
  }

  function DoDecide(s: State, k: CallId, wall: int): State
    requires Enabled(s, Decide(k, wall))
  {
    var call := s.calls[k];
    var (pc, slots) := Decision(s, k, wall);
    var c := s.coordinators[call.coordinator];
    At(s, k, pc).(coordinators := s.coordinators[call.coordinator := c.(slots := slots)])
  }

  function DoDeliver(s: State, k: CallId): State
    requires Enabled(s, Deliver(k))
  {
    var call := s.calls[k];
    var Write(attempt, base, proposal) := call.pc;
    if Commits(s, base) then
      var stored := Stored(|s.history|, base, proposal);
      At(s, k, if call.live then TimeWritten(stored) else Done(Failed))
        .(history := s.history + [Commit(stored, s.now, KindOf(call.request, base), k)], present := true)
    else
      At(s, k, if call.live then ReadStore(attempt + 1) else Done(Failed))
  }

  function Apply(s: State, a: Action): State
    requires Enabled(s, a)
  {
    match a
    case Tick(span) => s.(now := s.now + span)
    case Restart(c, offset) => DoRestart(s, c, offset)
    case Delete => s.(present := false)
    case Begin(k, c, request) => DoBegin(s, k, c, request)
    case CacheAnswer(k, v) => At(s, k, TimeCache(if v.Some? then Some(s.history[v.value].lease) else None))
    case StoreAnswer(k) => At(s, k, TimeStore(s.calls[k].pc.attempt, Current(s)))
    case Clock(k) => DoClock(s, k)
    case Decide(k, wall) => DoDecide(s, k, wall)
    case Deliver(k) => DoDeliver(s, k)
    case Abandon(k) => s.(calls := s.calls[k := s.calls[k].(live := false)])
  }

  /** The state that a run reaches, or None when some action was not enabled. */
  function Run(start: int, actions: seq<Action>): Option<State> {
    if actions == [] then Some(Init(start))
    else
      var last := |actions| - 1;
      var before := Run(start, actions[..last]);
      if before.Some? && Enabled(before.value, actions[last])
      then Some(Apply(before.value, actions[last]))
      else None
  }

  /** The state after some further steps, or None when one of them was not enabled. */
  function RunFrom(s: State, actions: seq<Action>): Option<State>
    decreases |actions|
  {
    if actions == [] then Some(s)
    else if Enabled(s, actions[0]) then RunFrom(Apply(s, actions[0]), actions[1..])
    else None
  }

  /** The id counts itself leader: a success it asked for less than one lease duration ago. */
  ghost predicate Leads(s: State, id: string, uid: nat) {
    exists k :: LeadsBy(s, k, id, uid)
  }

  predicate LeadsBy(s: State, k: CallId, id: string, uid: nat) {
    && k in s.calls
    && s.calls[k].request.Elect? && s.calls[k].request.id == id
    && Succeeded(s.calls[k].pc)
    && s.calls[k].pc.reply.lease.Some? && s.calls[k].pc.reply.lease.value.uid == uid
    && s.now < s.calls[k].sentAt + s.calls[k].pc.reply.result.leaseDuration * SECOND
  }

  /** Epochs are stored in 32 bits; the guarantees hold while the counter has not reached its end. */
  predicate EpochsInRange(history: seq<Commit>) {
    forall c <- history :: Epoch(Some(c.lease)) < MAX_INT32
  }
}
