/**
 The watcher that feeds the cache, apis/logging/config/crd_watcher.go, as steps: the informer
 store changes and emits events, events wait in a delaying work queue, and one worker reads the
 store again for each key before it changes the cache.  Reads race with later events.
 */
module LoggingWatcher {
  import opened Options
  import opened LoggingCache

  datatype Worker =
    | Idle
    | Got(key: string)
    | Read(key: string, snapshot: Option<LoggingConfig>)
    | Applied(key: string)

  /**
   `events` are not delivered to the handler yet, `delayed` keys wait out the delay, and the queue
   proper holds `dirty` keys in line, except one that is in the hands of the worker.
   */
  datatype State = State(
    store: map<string, LoggingConfig>,
    events: multiset<string>,
    delayed: set<string>,
    line: seq<string>,
    dirty: set<string>,
    worker: Worker,
    cache: seq<CachedConfig>)

  function Initial(): State {
    State(map[], multiset{}, {}, [], {}, Idle, [])
  }

  function Stored(s: State, key: string): Option<LoggingConfig> {
    if key in s.store then Some(s.store[key]) else None
  }

  predicate Processing(s: State, key: string) {
    !s.worker.Idle? && s.worker.key == key
  }

  // ----- steps -----

  datatype Action =
    | Change(key: string, config: Option<LoggingConfig>)
    | Deliver(key: string)
    | Expire(key: string)
    | Get
    | ReadStore
    | Apply
    | Done

  predicate Enabled(s: State, a: Action) {
    match a
    case Change(_, _) => true
    case Deliver(key) => key in s.events
    case Expire(key) => key in s.delayed
    case Get => s.worker.Idle? && s.line != []
    case ReadStore => s.worker.Got?
    case Apply => s.worker.Read?
    case Done => s.worker.Applied?
  }

  /** What one turn of the worker makes of the cache for what it read. */
  function Reconciled(library: Library, cache: seq<CachedConfig>, key: string,
        snapshot: Option<LoggingConfig>): seq<CachedConfig> {
    match snapshot
    case None => Removed(cache, key)
    case Some(config) => Put(cache, Compiled(library, key, config))
  }

  /** A dirty key is not queued twice, and not while it is being processed. */
  function Enqueued(s: State, key: string): State {
    if key in s.dirty then s
    else if Processing(s, key) then s.(dirty := s.dirty + {key})
    else s.(dirty := s.dirty + {key}, line := s.line + [key])
  }

  function Next(library: Library, s: State, a: Action): State
    requires Enabled(s, a)
  {
    match a
    case Change(key, config) =>
      s.(store := match config { case None => s.store - {key} case Some(c) => s.store[key := c] },
         events := s.events + multiset{key})
    case Deliver(key) => s.(events := s.events - multiset{key}, delayed := s.delayed + {key})
    case Expire(key) => Enqueued(s.(delayed := s.delayed - {key}), key)
    case Get => s.(worker := Got(s.line[0]), line := s.line[1..], dirty := s.dirty - {s.line[0]})
    case ReadStore => s.(worker := Read(s.worker.key, Stored(s, s.worker.key)))
    case Apply =>
      s.(worker := Applied(s.worker.key), cache := Reconciled(library, s.cache, s.worker.key, s.worker.snapshot))
    case Done =>
      var key := s.worker.key;
      s.(worker := Idle, line := if key in s.dirty then s.line + [key] else s.line)
  }

  // ----- what every step keeps -----

  /** The line holds, once each, the dirty keys that the worker does not have in hand. */
  ghost predicate QueueConsistent(s: State) {
    && (forall i, j | 0 <= i < j < |s.line| :: s.line[i] != s.line[j])
    && (forall key :: key in s.line <==> key in s.dirty && !Processing(s, key))
  }

  /** What the cache should hold for what was read. */
  function Entry(library: Library, key: string, snapshot: Option<LoggingConfig>): Option<CachedConfig> {
    match snapshot
    case None => None
    case Some(config) => Some(Compiled(library, key, config))
  }

  /** The cache shows what the store holds. */
  predicate Shows(library: Library, s: State, key: string) {
    Lookup(s.cache, key) == Entry(library, key, Stored(s, key))
  }

  /** Somebody will still look at the key. */
  predicate Announced(s: State, key: string) {
    key in s.events || key in s.delayed || key in s.dirty
  }

  /**
   A key is announced, or the worker will look at it, or the worker has looked and saw what the
   store still holds, or the cache is up to date.
   */
  predicate Accounted(library: Library, s: State, key: string) {
    || Announced(s, key)
    || (if s.worker.Got? && s.worker.key == key then true
        else if s.worker.Read? && s.worker.key == key then s.worker.snapshot == Stored(s, key)
        else Shows(library, s, key))
  }

  ghost predicate Inv(library: Library, s: State) {
    && UniqueNames(s.cache)
    && QueueConsistent(s)
    && forall key :: Accounted(library, s, key)
  }

  lemma InitialInv(library: Library)
    ensures Inv(library, Initial())
  {
  }

  lemma ReconciledShows(library: Library, cache: seq<CachedConfig>, key: string, snapshot: Option<LoggingConfig>)
    requires UniqueNames(cache)
    ensures var r := Reconciled(library, cache, key, snapshot);
            && UniqueNames(r)
            && Lookup(r, key) == Entry(library, key, snapshot)
  {
    match snapshot
    case None => RemovedIsGone(cache, key);
    case Some(config) => PutStores(cache, Compiled(library, key, config));
  }

  lemma ReconciledKeepsOthers(
      library: Library, cache: seq<CachedConfig>, key: string, snapshot: Option<LoggingConfig>, other: string)
    requires other != key
    ensures Lookup(Reconciled(library, cache, key, snapshot), other) == Lookup(cache, other)
  {
    match snapshot
    case None => RemovalKeepsOthers(cache, key, other);
    case Some(config) => PutKeepsOthers(cache, Compiled(library, key, config), other);
  }

  lemma KeyIsQueuedOnce(s: State, key: string)
    requires QueueConsistent(s)
    ensures QueueConsistent(Enqueued(s, key))
  {
  }

  lemma QueueStaysConsistent(library: Library, s: State, a: Action)
    requires QueueConsistent(s) && Enabled(s, a)
    ensures QueueConsistent(Next(library, s, a))
  {
    hide Reconciled, Stored;
    if a.Get? {
      assert s.line == [s.line[0]] + s.line[1..];
      assert s.line[0] in s.line;
    } else if a.Expire? {
      KeyIsQueuedOnce(s.(delayed := s.delayed - {a.key}), a.key);
    }
  }

  lemma ApplyKeepsAccount(library: Library, s: State, key: string)
    requires UniqueNames(s.cache) && Accounted(library, s, key) && s.worker.Read?
    ensures Accounted(library, Next(library, s, Apply), key)
  {
    hide Reconciled, Lookup, Compiled, UniqueNames;
    ReconciledShows(library, s.cache, s.worker.key, s.worker.snapshot);
    if key != s.worker.key {
      ReconciledKeepsOthers(library, s.cache, s.worker.key, s.worker.snapshot, key);
    }
  }

  /** The cache and the worker stay; a key whose stored configuration changes is announced. */
  lemma OutsideKeepsAccount(library: Library, s: State, a: Action, key: string)
    requires Accounted(library, s, key) && Enabled(s, a) && (a.Change? || a.Deliver? || a.Expire?)
    ensures Accounted(library, Next(library, s, a), key)
  {
    hide Lookup, Compiled;
    if a.Change? && a.key == key {
      assert Announced(Next(library, s, a), key);
    } else {
      assert Stored(Next(library, s, a), key) == Stored(s, key);
    }
  }

  lemma WorkerKeepsAccount(library: Library, s: State, a: Action, key: string)
    requires QueueConsistent(s) && Accounted(library, s, key) && Enabled(s, a) && (a.Get? || a.ReadStore? || a.Done?)
    ensures Accounted(library, Next(library, s, a), key)
  {
    hide Lookup, Compiled;
    if a.Get? {
      assert s.line[0] in s.line;
    }
    hide QueueConsistent;
    assert Stored(Next(library, s, a), key) == Stored(s, key);
  }

  lemma StepKeepsAccount(library: Library, s: State, a: Action, key: string)
    requires UniqueNames(s.cache) && QueueConsistent(s) && Accounted(library, s, key) && Enabled(s, a)
    ensures Accounted(library, Next(library, s, a), key)
  {
    hide Accounted, Next, UniqueNames, QueueConsistent;
    if a.Apply? {
      ApplyKeepsAccount(library, s, key);
    } else if a.Get? || a.ReadStore? || a.Done? {
      WorkerKeepsAccount(library, s, a, key);
    } else {
      OutsideKeepsAccount(library, s, a, key);
    }
  }

  lemma StepKeepsInv(library: Library, s: State, a: Action)
    requires Inv(library, s) && Enabled(s, a)
    ensures Inv(library, Next(library, s, a))
  {
    hide Accounted, QueueConsistent, UniqueNames, Reconciled;
    QueueStaysConsistent(library, s, a);
    if a.Apply? {
      ReconciledShows(library, s.cache, s.worker.key, s.worker.snapshot);
    }
    forall key ensures Accounted(library, Next(library, s, a), key) {
      StepKeepsAccount(library, s, a, key);
    }
  }

  // ----- runs -----

  ghost predicate IsStep(library: Library, s: State, t: State) {
    exists a :: Enabled(s, a) && t == Next(library, s, a)
  }

  ghost predicate IsRun(library: Library, run: seq<State>) {
    && run != [] && run[0] == Initial()
    && forall i | 0 <= i < |run| - 1 :: IsStep(library, run[i], run[i + 1])
  }

  lemma IsStepKeepsInv(library: Library, s: State, t: State)
    requires Inv(library, s) && IsStep(library, s, t)
    ensures Inv(library, t)
  {
    hide Inv, Next, Enabled;
    var a :| Enabled(s, a) && t == Next(library, s, a);
    StepKeepsInv(library, s, a);
  }

  lemma {:induction false} RunKeepsInv(library: Library, run: seq<State>)
    requires IsRun(library, run)
    ensures Inv(library, run[|run| - 1])
  {
    hide Inv, IsStep, Initial;
    if |run| == 1 {
      InitialInv(library);
    } else {
      RunKeepsInv(library, run[..|run| - 1]);
      IsStepKeepsInv(library, run[|run| - 2], run[|run| - 1]);
    }
  }

  /**
   In every reachable state names in the cache are unique, and a key whose entry is out of date
   has an undelivered event, is queued, or is being processed.
   */
  lemma OutOfDateIsPending(library: Library, run: seq<State>, key: string)
    requires IsRun(library, run)
    ensures var s := run[|run| - 1];
            UniqueNames(s.cache) && (!Shows(library, s, key) ==> Announced(s, key) || Processing(s, key))
  {
    hide Shows, IsStep, Initial;
    RunKeepsInv(library, run);
    assert Accounted(library, run[|run| - 1], key);
  }

  /** Nothing is pending anywhere. */
  predicate Quiescent(s: State) {
    s.events == multiset{} && s.delayed == {} && s.line == [] && s.worker.Idle?
  }

  /** When nothing is pending the cache agrees with the store, on every key. */
  lemma QuietCacheShowsStore(library: Library, s: State, key: string)
    requires Inv(library, s) && Quiescent(s)
    ensures Shows(library, s, key)
  {
    hide Shows;
    assert Accounted(library, s, key);
    assert key in s.line <==> key in s.dirty && !Processing(s, key);
  }

  // ----- the queue drains -----

  function Left(worker: Worker): nat {
    match worker
    case Idle => 0
    case Got(_) => 3
    case Read(_, _) => 2
    case Applied(_) => 1
  }

  function Work(s: State): nat {
    6 * |s.events| + 5 * |s.delayed| + 4 * |s.dirty| + Left(s.worker)
  }

  /** Once the store stops changing every step reduces the work, so the steps come to an end. */
  lemma StepReducesWork(library: Library, s: State, a: Action)
    requires QueueConsistent(s) && Enabled(s, a) && !a.Change?
    ensures Work(Next(library, s, a)) < Work(s)
  {
    hide Reconciled;
    match a
    case Deliver(key) =>
      assert |s.events - multiset{key}| == |s.events| - 1;
    case Expire(key) =>
      assert |s.delayed - {key}| == |s.delayed| - 1;
    case Get =>
      assert s.line[0] in s.line;
    case ReadStore =>
    case Apply =>
    case Done =>
  }

  /** And they do not stop before nothing is pending. */
  lemma BusyCanStep(s: State) returns (a: Action)
    requires !Quiescent(s)
    ensures Enabled(s, a) && !a.Change?
  {
    if !s.worker.Idle? {
      a := match s.worker
        case Got(_) => ReadStore
        case Read(_, _) => Apply
        case _ => Done;
    } else if s.line != [] {
      a := Get;
    } else if s.delayed != {} {
      var key :| key in s.delayed;
      a := Expire(key);
    } else {
      var key :| key in s.events;
      a := Deliver(key);
    }
  }

  /** The state after some steps, if each of them was possible. */
  function After(library: Library, s: State, steps: seq<Action>): Option<State>
    decreases |steps|
  {
    if steps == [] then Some(s)
    else if Enabled(s, steps[0]) then After(library, Next(library, s, steps[0]), steps[1..])
    else None
  }

  /** However the steps are chosen, there are at most so many of them before the store changes again. */
  lemma {:induction false} DrainingIsBounded(library: Library, s: State, steps: seq<Action>)
    requires Inv(library, s) && After(library, s, steps).Some? && forall a <- steps :: !a.Change?
    ensures var end := After(library, s, steps).value;
            |steps| + Work(end) <= Work(s) && Inv(library, end) && end.store == s.store
    decreases |steps|
  {
    hide Inv, Work, Next;
    if steps != [] {
      InvIsConsistent(library, s);
      StepReducesWork(library, s, steps[0]);
      StepKeepsInv(library, s, steps[0]);
      StepKeepsStore(library, s, steps[0]);
      DrainingIsBounded(library, Next(library, s, steps[0]), steps[1..]);
    }
  }

  /** The steps that are left lead to a state in which the cache shows the store on every key. */
  lemma {:induction false} CacheConverges(library: Library, s: State) returns (steps: seq<Action>)
    requires Inv(library, s)
    ensures forall a <- steps :: !a.Change?
    ensures After(library, s, steps).Some?
    ensures var end := After(library, s, steps).value;
            Quiescent(end) && end.store == s.store && forall key :: Shows(library, end, key)
    decreases Work(s)
  {
    hide Inv, Shows, Work, Next;
    if Quiescent(s) {
      steps := [];
      forall key ensures Shows(library, s, key) {
        QuietCacheShowsStore(library, s, key);
      }
    } else {
      var a := BusyCanStep(s);
      InvIsConsistent(library, s);
      StepReducesWork(library, s, a);
      StepKeepsInv(library, s, a);
      StepKeepsStore(library, s, a);
      var rest := CacheConverges(library, Next(library, s, a));
      steps := [a] + rest;
      assert steps[1..] == rest;
    }
  }

  lemma InvIsConsistent(library: Library, s: State)
    requires Inv(library, s)
    ensures QueueConsistent(s)
  {
  }

  lemma StepKeepsStore(library: Library, s: State, a: Action)
    requires Enabled(s, a) && !a.Change?
    ensures Next(library, s, a).store == s.store
  {
  }

  // ----- what a query then finds -----

  /** With nothing pending a query answers from the store: some stored configuration that fits, or none if none does. */
  lemma QuietQueryAnswersFromStore(library: Library, s: State, q: Query)
    requires Inv(library, s) && Quiescent(s)
    ensures var r := Find(library, s.cache, q);
            && (r.Some? ==> r.value.name in s.store
                            && Compiled(library, r.value.name, s.store[r.value.name]) == r.value)
            && (r.None? <==> forall key <- s.store :: !Fits(library, Compiled(library, key, s.store[key]), q))
  {
    hide Fits, Compiled, Inv;
    var r := Find(library, s.cache, q);
    if r.Some? {
      EntriesComeFromStore(library, s, r.value);
    }
    forall key | key in s.store ensures Compiled(library, key, s.store[key]) in s.cache {
      QuietCacheShowsStore(library, s, key);
    }
  }

  lemma EntriesComeFromStore(library: Library, s: State, c: CachedConfig)
    requires Inv(library, s) && Quiescent(s) && c in s.cache
    ensures c.name in s.store && Compiled(library, c.name, s.store[c.name]) == c
  {
    hide Compiled, Accounted, QueueConsistent;
    var i :| 0 <= i < |s.cache| && s.cache[i] == c;
    PositionIs(s.cache, i);
    QuietCacheShowsStore(library, s, c.name);
  }
}
