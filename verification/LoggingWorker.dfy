/** The work queue and its worker as they run: processNextItem with everything that may happen in between. */
module LoggingWorker {
  import opened Options
  import opened LoggingCache
  import opened LoggingWatcher

  /** The steps of the informer, its handler and the delay, which other goroutines take. */
  predicate IsOutside(a: Action) {
    a.Change? || a.Deliver? || a.Expire?
  }

  function WorkerSteps(steps: seq<Action>): seq<Action> {
    if steps == [] then []
    else (if IsOutside(steps[0]) then [] else [steps[0]]) + WorkerSteps(steps[1..])
  }

  lemma {:induction false} AfterConcat(library: Library, s: State, a: seq<Action>, b: seq<Action>)
    requires After(library, s, a).Some?
    ensures After(library, s, a + b) == After(library, After(library, s, a).value, b)
    ensures WorkerSteps(a + b) == WorkerSteps(a) + WorkerSteps(b)
    decreases |a|
  {
    hide Next, Enabled;
    if a == [] {
      assert a + b == b;
    } else {
      assert (a + b)[1..] == a[1..] + b;
      AfterConcat(library, Next(library, s, a[0]), a[1..], b);
    }
  }

  lemma OneMoreStep(library: Library, s: State, steps: seq<Action>, a: Action)
    requires After(library, s, steps).Some? && Enabled(After(library, s, steps).value, a)
    ensures After(library, s, steps + [a]) == Some(Next(library, After(library, s, steps).value, a))
    ensures WorkerSteps(steps + [a]) == WorkerSteps(steps) + (if IsOutside(a) then [] else [a])
  {
    hide Next, Enabled;
    AfterConcat(library, s, steps, [a]);
    assert [a][1..] == [];
  }

  class LoggingConfigWatcher {
    var store: map<string, LoggingConfig>
    var events: multiset<string>
    var delayed: set<string>
    var line: seq<string>
    var dirty: set<string>
    var worker: Worker
    const cache: LoggingConfigCache
    const library: Library

    constructor (library: Library)
      ensures Value() == Initial() && fresh(cache) && this.library == library
    {
      store, events, delayed, line, dirty, worker := map[], multiset{}, {}, [], {}, Idle;
      this.library := library;
      cache := new LoggingConfigCache();
    }

    function Value(): State
      reads this, cache
    {
      State(store, events, delayed, line, dirty, worker, cache.configs)
    }

    /** The event handler: the key waits a second before it is queued. */
    method Enqueue(key: string)
      requires key in events
      modifies this
      ensures Value() == Next(library, old(Value()), Deliver(key))
    {
      events := events - multiset{key};
      delayed := delayed + {key};
    }

    /** The work queue takes a key whose delay is over. */
    method Add(key: string)
      requires key in delayed
      modifies this
      ensures Value() == Next(library, old(Value()), Expire(key))
    {
      delayed := delayed - {key};
      if key in dirty {
        return;
      }
      dirty := dirty + {key};
      if worker.Idle? || worker.key != key {
        line := line + [key];
      }
    }

    /** The informer updates its store and emits an event. */
    method Observe(key: string, config: Option<LoggingConfig>)
      modifies this
      ensures Value() == Next(library, old(Value()), Change(key, config))
    {
      store := match config { case None => store - {key} case Some(c) => store[key := c] };
      events := events + multiset{key};
    }

    /** Any number of steps of the other goroutines. */
    method Interfere(ghost start: State, ghost before: seq<Action>) returns (ghost steps: seq<Action>)
      requires After(library, start, before) == Some(Value())
      modifies this
      ensures After(library, start, steps) == Some(Value())
      ensures WorkerSteps(steps) == WorkerSteps(before)
      ensures worker == old(worker) && cache.configs == old(cache.configs)
      ensures old(line) <= line
    {
      hide After, Next;
      steps := before;
      var left: int := *;
      while left > 0
        invariant After(library, start, steps) == Some(Value())
        invariant WorkerSteps(steps) == WorkerSteps(before)
        invariant worker == old(worker) && cache.configs == old(cache.configs)
        invariant old(line) <= line
      {
        var a: Action := *;
        if IsOutside(a) && Enabled(Value(), a) {
          OneMoreStep(library, start, steps, a);
          steps := steps + [a];
          StepsOutsideOnlyAppend(library, Value(), a);
          match a
          case Change(key, config) => Observe(key, config);
          case Deliver(key) => Enqueue(key);
          case Expire(key) => Add(key);
        }
        left := left - 1;
      }
    }

    /** Nothing to do is reported by the queue, which then waits or, once shut down, ends the worker. */
    method ProcessNextItem() returns (took: bool, ghost steps: seq<Action>)
      requires worker.Idle?
      modifies this, cache
      ensures After(library, old(Value()), steps) == Some(Value())
      ensures worker.Idle?
      ensures WorkerSteps(steps) == if took then [Get, ReadStore, Apply, Done] else []
    {
      hide After, Next;
      ghost var start := Value();
      steps := [];
      NoSteps(library, start);
      if line == [] {
        return false, steps;
      }
      steps := TakeKey(start, steps);
      steps := Interfere(start, steps);
      var snapshot;
      snapshot, steps := LookUp(start, steps);
      steps := Interfere(start, steps);
      steps := Reconcile(start, steps, snapshot);
      steps := Interfere(start, steps);
      steps := Finish(start, steps);
      return true, steps;
    }

    method TakeKey(ghost start: State, ghost before: seq<Action>) returns (ghost steps: seq<Action>)
      requires After(library, start, before) == Some(Value()) && worker.Idle? && line != []
      modifies this
      ensures After(library, start, steps) == Some(Value()) && worker.Got?
      ensures WorkerSteps(steps) == WorkerSteps(before) + [Get]
    {
      hide After;
      OneMoreStep(library, start, before, Get);
      steps := before + [Get];
      var key := line[0];
      worker, line, dirty := Got(key), line[1..], dirty - {key};
    }

    method LookUp(ghost start: State, ghost before: seq<Action>)
      returns (snapshot: Option<LoggingConfig>, ghost steps: seq<Action>)
      requires After(library, start, before) == Some(Value()) && worker.Got?
      modifies this
      ensures After(library, start, steps) == Some(Value()) && worker.Read? && worker.snapshot == snapshot
      ensures WorkerSteps(steps) == WorkerSteps(before) + [ReadStore]
    {
      hide After;
      OneMoreStep(library, start, before, ReadStore);
      steps := before + [ReadStore];
      snapshot := if worker.key in store then Some(store[worker.key]) else None;
      worker := Read(worker.key, snapshot);
    }

    method Reconcile(ghost start: State, ghost before: seq<Action>, snapshot: Option<LoggingConfig>)
      returns (ghost steps: seq<Action>)
      requires After(library, start, before) == Some(Value()) && worker.Read? && worker.snapshot == snapshot
      modifies this, cache
      ensures After(library, start, steps) == Some(Value()) && worker.Applied?
      ensures WorkerSteps(steps) == WorkerSteps(before) + [Apply]
    {
      hide After;
      OneMoreStep(library, start, before, Apply);
      steps := before + [Apply];
      if snapshot.None? {
        cache.RemoveConfig(worker.key);
      } else {
        cache.AddOrUpdateConfig(library, worker.key, snapshot.value);
      }
      worker := Applied(worker.key);
    }

    method Finish(ghost start: State, ghost before: seq<Action>) returns (ghost steps: seq<Action>)
      requires After(library, start, before) == Some(Value()) && worker.Applied?
      modifies this
      ensures After(library, start, steps) == Some(Value()) && worker.Idle?
      ensures WorkerSteps(steps) == WorkerSteps(before) + [Done]
    {
      hide After;
      OneMoreStep(library, start, before, Done);
      steps := before + [Done];
      if worker.key in dirty {
        line := line + [worker.key];
      }
      worker := Idle;
    }
  }

  lemma NoSteps(library: Library, s: State)
    ensures After(library, s, []) == Some(s) && WorkerSteps([]) == []
  {
  }

  lemma StepsOutsideOnlyAppend(library: Library, s: State, a: Action)
    requires IsOutside(a) && Enabled(s, a)
    ensures var t := Next(library, s, a); t.worker == s.worker && t.cache == s.cache && s.line <= t.line
  {
  }
}
