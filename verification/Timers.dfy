/**
 Rereading a Lease version never restarts its timer: properties of whole
 sequences of reads against the two-slot memory of one Lease.
 */
module Timers {
  import opened Options
  import opened Leases
  import opened Observations

  datatype LeaseRead = LeaseRead(lease: Lease, source: Source, elapsed: int)

  /** The slots after a sequence of reads, starting from an empty memory. */
  function SlotsAfter(rs: seq<LeaseRead>): Slots {
    if rs == [] then NO_SLOTS
    else
      var last := rs[|rs| - 1];
      Read(SlotsAfter(rs[..|rs| - 1]), Some(last.lease), last.source, last.elapsed).slots
  }

  /** What read n of the sequence answers. */
  function Answer(rs: seq<LeaseRead>, n: nat): int
    requires n < |rs|
  {
    Read(SlotsAfter(rs[..n]), Some(rs[n].lease), rs[n].source, rs[n].elapsed).left
  }

  /** Whatever is read, in whatever order, two slots on one version hold one observation. */
  lemma {:induction false} SharedVersionSharesTimer(rs: seq<LeaseRead>)
    ensures var s := SlotsAfter(rs);
            s.cache.Some? && s.store.Some? &&
            s.cache.value.uid == s.store.value.uid && s.cache.value.version == s.store.value.version
            ==> s.cache == s.store
  {
    if rs != [] {
      SharedVersionSharesTimer(rs[..|rs| - 1]);
    }
  }

  // ----- repeated reads of one cached and one stored version -----

  predicate OneVersion(a: Lease, b: Lease) {
    a.uid == b.uid && a.version == b.version
  }

  /** Every read is of the cached version or of the stored version, according to its source. */
  predicate ReadsOf(rs: seq<LeaseRead>, cached: Lease, stored: Lease) {
    forall r <- rs :: r.lease == if r.source == FromCache then cached else stored
  }

  predicate Outdated(cached: Lease, stored: Lease) {
    cached.uid != stored.uid || Epoch(Some(cached)) < Epoch(Some(stored))
  }

  predicate StoreWasRead(rs: seq<LeaseRead>) {
    exists r <- rs :: r.source == FromStore
  }

  predicate CacheWasRead(rs: seq<LeaseRead>) {
    exists r <- rs :: r.source == FromCache
  }

  /** The elapsed reading of the first read of this version, from either source. */
  function FirstSeen(rs: seq<LeaseRead>, lease: Lease): Option<int> {
    if rs == [] then None
    else
      var last := rs[|rs| - 1];
      var before := FirstSeen(rs[..|rs| - 1], lease);
      if before.Some? then before
      else if OneVersion(last.lease, lease) then Some(last.elapsed)
      else None
  }

  lemma FirstSeenGrows(rs: seq<LeaseRead>, last: LeaseRead, lease: Lease)
    ensures FirstSeen(rs + [last], lease) ==
            if FirstSeen(rs, lease).Some? then FirstSeen(rs, lease)
            else if OneVersion(last.lease, lease) then Some(last.elapsed)
            else None
  {
    assert (rs + [last])[..|rs|] == rs;
  }

  ghost predicate Remembers(slot: Option<Observation>, lease: Lease, rs: seq<LeaseRead>) {
    slot.Some? ==>
      && FirstSeen(rs, lease).Some?
      && slot.value == Observation(lease.version, lease.uid, Epoch(Some(lease)), FirstSeen(rs, lease).value)
  }

  lemma {:induction false} FirstSeenExists(rs: seq<LeaseRead>, cached: Lease, stored: Lease)
    requires ReadsOf(rs, cached, stored)
    ensures CacheWasRead(rs) ==> FirstSeen(rs, cached).Some?
    ensures StoreWasRead(rs) ==> FirstSeen(rs, stored).Some?
    ensures FirstSeen(rs, cached).Some? && !OneVersion(cached, stored) ==> CacheWasRead(rs)
    ensures FirstSeen(rs, stored).Some? && !OneVersion(cached, stored) ==> StoreWasRead(rs)
    ensures FirstSeen(rs, stored).Some? ==> rs != []
    ensures rs != [] ==> CacheWasRead(rs) || StoreWasRead(rs)
  {
    if rs != [] {
      var front, last := rs[..|rs| - 1], rs[|rs| - 1];
      assert rs == front + [last];
      FirstSeenExists(front, cached, stored);
      assert last in rs;
    }
  }

  lemma {:induction false} SlotsOfRepeatedReads(rs: seq<LeaseRead>, cached: Lease, stored: Lease)
    requires HasTerm(cached) && HasTerm(stored)
    requires OneVersion(cached, stored) ==> cached == stored
    requires ReadsOf(rs, cached, stored)
    ensures SlotsFit(SlotsAfter(rs), rs, cached, stored)
  {
    hide FirstSeen;
    if rs == [] {
    } else {
      var front, last := rs[..|rs| - 1], rs[|rs| - 1];
      assert rs == front + [last];
      SlotsOfRepeatedReads(front, cached, stored);
      OneMoreRead(SlotsAfter(front), front, last, cached, stored);
    }
  }

  /** What both slots remember after these reads. */
  ghost predicate SlotsFit(s: Slots, rs: seq<LeaseRead>, cached: Lease, stored: Lease) {
    && Remembers(s.cache, cached, rs)
    && Remembers(s.store, stored, rs)
    && (s.store.Some? <==> StoreWasRead(rs))
    && ((Outdated(cached, stored) && StoreWasRead(rs)) || (s.cache.Some? <==> CacheWasRead(rs)))
  }

  lemma OneMoreRead(s: Slots, rs: seq<LeaseRead>, last: LeaseRead, cached: Lease, stored: Lease)
    requires HasTerm(cached) && HasTerm(stored)
    requires OneVersion(cached, stored) ==> cached == stored
    requires ReadsOf(rs + [last], cached, stored) && SlotsFit(s, rs, cached, stored)
    ensures SlotsFit(Read(s, Some(last.lease), last.source, last.elapsed).slots, rs + [last], cached, stored)
  {
    hide FirstSeen;
    FirstSeenExists(rs, cached, stored);
    FirstSeenGrows(rs, last, cached);
    FirstSeenGrows(rs, last, stored);
    assert (rs + [last])[|rs|] == last;
    assert forall r <- rs :: r in rs + [last];
    assert forall r <- rs + [last] :: r in rs || r == last;
  }

  /**
   The remaining time of read n counts from the first read of the version it
   read, however often and in whatever order both versions were read since.
   Only a cached version that an earlier store read has overtaken answers zero.
   */
  lemma RemainingCountsFromFirstRead(rs: seq<LeaseRead>, cached: Lease, stored: Lease, n: nat)
    requires HasTerm(cached) && HasTerm(stored)
    requires OneVersion(cached, stored) ==> cached == stored
    requires ReadsOf(rs, cached, stored)
    requires n < |rs|
    ensures var lease := rs[n].lease;
            var first := FirstSeen(rs[..n + 1], lease);
            && first.Some?
            && Answer(rs, n) ==
               if rs[n].source == FromCache && Outdated(cached, stored) && StoreWasRead(rs[..n]) then 0
               else Max(0, Duration(lease) - (rs[n].elapsed - first.value))
  {
    hide FirstSeen, SlotsAfter;
    var front := rs[..n];
    assert rs[..n + 1] == front + [rs[n]];
    SlotsOfRepeatedReads(front, cached, stored);
    AnswerCounts(SlotsAfter(front), front, rs[n], cached, stored);
  }

  lemma AnswerCounts(s: Slots, rs: seq<LeaseRead>, r: LeaseRead, cached: Lease, stored: Lease)
    requires HasTerm(cached) && HasTerm(stored)
    requires OneVersion(cached, stored) ==> cached == stored
    requires ReadsOf(rs, cached, stored) && SlotsFit(s, rs, cached, stored)
    requires r.lease == if r.source == FromCache then cached else stored
    ensures var first := FirstSeen(rs + [r], r.lease);
            && first.Some?
            && Read(s, Some(r.lease), r.source, r.elapsed).left ==
               if r.source == FromCache && Outdated(cached, stored) && StoreWasRead(rs) then 0
               else Max(0, Duration(r.lease) - (r.elapsed - first.value))
  {
    hide FirstSeen;
    FirstSeenGrows(rs, r, r.lease);
    FirstSeenExists(rs, cached, stored);
  }
}
