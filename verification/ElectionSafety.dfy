/** Safety of the election over whole runs. */
module ElectionSafety {
  import opened Options
  import opened Leases
  import opened Observations
  import opened Calls
  import opened ElectionProtocol
  import opened ElectionInvariants

  /** A state that some run reaches while epochs still fit their 32 bits. */
  ghost predicate Reached(start: int, actions: seq<Action>, s: State) {
    Run(start, actions) == Some(s) && EpochsInRange(s.history)
  }

  // ----- hold time -----

  /**
   The write of a campaign that replaces a committed version replaces the last
   one, and commits no earlier than that version's write time plus its duration.
   */
  lemma TakeoverWaitsOutTheTerm(start: int, actions: seq<Action>, s: State, k: CallId)
    requires Reached(start, actions, s)
    requires Enabled(s, Deliver(k)) && s.calls[k].request.Elect? && s.calls[k].request.op == Campaign
    requires s.calls[k].pc.base.Some? && Commits(s, s.calls[k].pc.base)
    ensures var base := s.calls[k].pc.base.value;
            && s.history != []
            && s.history[|s.history| - 1].lease == base
            && s.history[|s.history| - 1].at + Duration(base) <= s.now
  {
    hide Run, CoordinatorOk, AuthorsOk, ClockOk;
    RunKeepsInv(start, actions);
    assert CallOk(s, k);
    assert Follows(s.history, |s.history| - 1);
  }

  /** The same in the history: a takeover is a lease duration away from the version it replaced. */
  lemma TakeoversAreSpaced(start: int, actions: seq<Action>, s: State, i: nat)
    requires Reached(start, actions, s)
    requires i < |s.history| && s.history[i].kind == TakenOver
    ensures i > 0 && s.history[i - 1].at + Duration(s.history[i - 1].lease) <= s.history[i].at
  {
    RunKeepsInv(start, actions);
    assert Follows(s.history, i) && Follows(s.history, i - 1);
  }

  // ----- one term, one holder -----

  predicate SameTerm(h: seq<Commit>, i: nat, j: nat)
    requires i < |h| && j < |h|
  {
    SameUid(h, i, j) && EpochAt(h, i) == EpochAt(h, j)
  }

  predicate Acquires(h: seq<Commit>, i: nat)
    requires i < |h|
  {
    h[i].kind != Renewed
  }

  lemma {:induction false} AcquiringCommit(h: seq<Commit>, i: nat) returns (a: nat)
    requires HistoryOk(h) && i < |h|
    ensures a <= i && Acquires(h, a) && SameTerm(h, a, i)
  {
    assert Follows(h, i);
    if Acquires(h, i) {
      a := i;
    } else {
      a := AcquiringCommit(h, i - 1);
    }
  }

  lemma AcquiringCommitIsUnique(h: seq<Commit>, a: nat, b: nat)
    requires HistoryOk(h) && a < b < |h| && Acquires(h, a) && Acquires(h, b)
    ensures !SameTerm(h, a, b)
  {
    assert Follows(h, b);
    HistoryGrows(h, a, b - 1);
  }

  /** Every term has exactly one acquiring commit, and one holder in all its versions. */
  lemma OneTermOneHolder(start: int, actions: seq<Action>, s: State, i: nat)
    requires Reached(start, actions, s) && i < |s.history|
    ensures exists a: nat | a <= i ::
              Acquires(s.history, a) && SameTerm(s.history, a, i) &&
              (forall b: nat | b < |s.history| ::
                 Acquires(s.history, b) && SameTerm(s.history, b, i) ==> b == a)
    ensures forall j: nat | j < |s.history| ::
              SameTerm(s.history, i, j) ==> HolderAt(s.history, i) == HolderAt(s.history, j)
  {
    var h := s.history;
    RunKeepsInv(start, actions);
    var a := AcquiringCommit(h, i);
    forall b: nat | b < |h| && Acquires(h, b) && SameTerm(h, b, i) ensures b == a {
      if a < b {
        AcquiringCommitIsUnique(h, a, b);
      } else if b < a {
        AcquiringCommitIsUnique(h, b, a);
      }
    }
    forall j: nat | j < |h| && SameTerm(h, i, j) ensures HolderAt(h, i) == HolderAt(h, j) {
      if i <= j {
        HistoryGrows(h, i, j);
      } else {
        HistoryGrows(h, j, i);
      }
    }
  }

  /** What one commit does to the term: creation starts it, a takeover moves to the next, a heartbeat keeps it. */
  lemma CommitStepsTheTerm(start: int, actions: seq<Action>, s: State, k: CallId)
    requires Reached(start, actions, s)
    requires Enabled(s, Deliver(k)) && Commits(s, s.calls[k].pc.base)
    ensures s.calls[k].request.Elect?
    ensures var was, next := Current(s), Current(DoDeliver(s, k));
            var request := s.calls[k].request;
            && next.Some? && Holder(next) == request.id
            && (was.None? ==>
                  request.op == Campaign && Epoch(next) == 1 && forall c <- s.history :: c.lease.uid != next.value.uid)
            && (was.Some? ==> next.value.uid == was.value.uid)
            && (was.Some? && request.op == Campaign ==> Epoch(next) == Epoch(was) + 1)
            && (request.op == Heartbeat ==> was.Some? && Epoch(next) == Epoch(was) && Holder(was) == request.id)
  {
    hide Run, CoordinatorOk, AuthorsOk, ClockOk, EpochsInRange;
    RunKeepsInv(start, actions);
    var n := |s.history|;
    assert CallOk(s, k);
    if n > 0 {
      assert Follows(s.history, n - 1);
      LastEpochFits(s);
    }
    UidsAreOld(s.history);
  }

  lemma LastEpochFits(s: State)
    requires EpochsInRange(s.history) && s.history != []
    ensures Epoch(Some(s.history[|s.history| - 1].lease)) < MAX_INT32
  {
    assert s.history[|s.history| - 1] in s.history;
  }

  lemma UidsAreOld(h: seq<Commit>)
    requires HistoryOk(h)
    ensures forall c <- h :: c.lease.uid < |h|
  {
    forall c | c in h ensures c.lease.uid < |h| {
      var i :| 0 <= i < |h| && h[i] == c;
      HistoryGrows(h, i, i);
    }
  }

  // ----- at most one leader -----

  /** A success that still runs was committed by now, and less than a lease duration ago. */
  lemma LeaderCommit(s: State, k: CallId, id: string, uid: nat) returns (i: nat)
    requires Inv(s) && LeadsBy(s, k, id, uid)
    ensures i < |s.history| && s.history[i].lease.uid == uid && HolderAt(s.history, i) == id
    ensures s.history[i].at <= s.now < s.history[i].at + LEASE_DURATION
  {
    assert CallOk(s, k);
    i := s.calls[k].pc.reply.lease.value.version;
    assert Follows(s.history, i);
  }

  /** At no instant do two ids lead on the same Lease object, deletions or not. */
  lemma AtMostOneLeader(start: int, actions: seq<Action>, s: State, a: string, b: string, uid: nat)
    requires Reached(start, actions, s)
    requires Leads(s, a, uid) && Leads(s, b, uid)
    ensures a == b
  {
    RunKeepsInv(start, actions);
    var k :| LeadsBy(s, k, a, uid);
    var l :| LeadsBy(s, l, b, uid);
    var i := LeaderCommit(s, k, a, uid);
    var j := LeaderCommit(s, l, b, uid);
    if a != b {
      if i <= j {
        HoldersAreApart(s.history, i, j);
      } else {
        HoldersAreApart(s.history, j, i);
      }
    }
  }

  predicate Undeleted(actions: seq<Action>) {
    forall a <- actions :: !a.Delete?
  }

  /** Without deletions there is a single Lease object. */
  ghost predicate OneObject(s: State) {
    && (s.history != [] ==> s.present)
    && (forall i: nat | i < |s.history| :: s.history[i].lease.uid == 0)
  }

  lemma StepKeepsOneObject(s: State, a: Action)
    requires Inv(s) && OneObject(s) && Enabled(s, a) && !a.Delete?
    ensures OneObject(Apply(s, a))
  {
    if a.Deliver? {
      assert CallOk(s, a.call);
      if s.history != [] {
        assert s.history[|s.history| - 1].lease.uid == 0;
      }
    }
  }

  lemma {:induction false} UndeletedKeepsOneObject(start: int, actions: seq<Action>, s: State)
    requires Reached(start, actions, s) && Undeleted(actions)
    ensures OneObject(s)
  {
    if actions != [] {
      var last := |actions| - 1;
      var before := Run(start, actions[..last]).value;
      HistoryOnlyGrows(before, actions[last]);
      RunKeepsInv(start, actions[..last]);
      UndeletedKeepsOneObject(start, actions[..last], before);
      StepKeepsOneObject(before, actions[last]);
    }
  }

  /** In a run without deletions no two ids lead at one instant. */
  lemma AtMostOneLeaderEver(start: int, actions: seq<Action>, s: State, a: string, b: string, u: nat, v: nat)
    requires Reached(start, actions, s) && Undeleted(actions)
    requires Leads(s, a, u) && Leads(s, b, v)
    ensures a == b
  {
    RunKeepsInv(start, actions);
    UndeletedKeepsOneObject(start, actions, s);
    var k :| LeadsBy(s, k, a, u);
    var l :| LeadsBy(s, l, b, v);
    var i := LeaderCommit(s, k, a, u);
    var j := LeaderCommit(s, l, b, v);
    AtMostOneLeader(start, actions, s, a, b, 0);
  }

  // ----- one call -----

  ghost function CommitsOf(s: State, k: CallId): set<nat> {
    set i: nat | i < |s.history| && s.history[i].author == k
  }

  /**
   A success stands for exactly one commit of the call, with the caller as
   holder and the reported epoch; a defeat for none; no call commits twice.
   */
  lemma ReplyTellsTheCommits(start: int, actions: seq<Action>, s: State, k: CallId)
    requires Reached(start, actions, s) && k in s.calls
    ensures forall i, j :: i in CommitsOf(s, k) && j in CommitsOf(s, k) ==> i == j
    ensures Defeated(s.calls[k].pc) ==> CommitsOf(s, k) == {}
    ensures Succeeded(s.calls[k].pc) ==>
              s.calls[k].request.Elect? &&
              exists i: nat | i < |s.history| ::
                && CommitsOf(s, k) == {i}
                && HolderAt(s.history, i) == s.calls[k].request.id == s.calls[k].pc.reply.result.incumbent
                && EpochAt(s.history, i) == s.calls[k].pc.reply.result.epoch
                && s.calls[k].sentAt <= s.history[i].at
  {
    RunKeepsInv(start, actions);
    assert CallOk(s, k);
    if Succeeded(s.calls[k].pc) {
      var i := s.calls[k].pc.reply.lease.value.version;
      assert i in CommitsOf(s, k);
      assert CommitsOf(s, k) == {i};
    }
    forall i | i in CommitsOf(s, k) ensures Spent(s.calls[k].pc, i) {
    }
  }
}
