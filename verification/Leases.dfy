/**
 The Lease record and the functions of apis/election/coordinator.go that read
 and build it.  Times and durations are nanoseconds; a nil pointer is None.
 */
module Leases {
  import opened Options

  const SECOND := 1_000_000_000
  const LEASE_DURATION_SECONDS := 30
  const REQUEST_INTERVAL_SECONDS := 3
  const LEASE_DURATION := LEASE_DURATION_SECONDS * SECOND
  const MAX_CAS_ATTEMPTS := 5
  const MAX_INT32 := 0x7fff_ffff

  type Int32 = x: int | -0x8000_0000 <= x <= 0x7fff_ffff

  datatype Lease = Lease(
    name: string,
    uid: nat,
    version: nat,
    holder: Option<string>,
    duration: Option<Int32>,
    acquireTime: Option<int>,
    renewTime: Option<int>,
    transitions: Option<Int32>)

  datatype Operation = Campaign | Heartbeat

  datatype Status = Success | Defeat

  /** The reply fields that elect computes from the Lease. */
  datatype Result = Result(
    status: Status,
    id: string,
    incumbent: string,
    interval: int,
    leaseDuration: int,
    epoch: int)

  /** Conversion to a 32-bit integer, which wraps around. */
  function ToInt32(x: int): (r: Int32)
    ensures -0x8000_0000 <= x <= 0x7fff_ffff ==> r == x
    ensures (r - x) % 0x1_0000_0000 == 0
  {
    (x + 0x8000_0000) % 0x1_0000_0000 - 0x8000_0000
  }

  function Holder(lease: Option<Lease>): string {
    match lease
    case None => ""
    case Some(l) => l.holder.GetOr("")
  }

  function Epoch(lease: Option<Lease>): int {
    match lease
    case None => 0
    case Some(l) => l.transitions.GetOr(0)
  }

  /** acquireLease, as a function of the Lease it is given. */
  function Acquire(lease: Lease, id: string, now: int): Lease {
    lease.(holder := Some(id),
           duration := Some(LEASE_DURATION_SECONDS),
           acquireTime := Some(now),
           renewTime := Some(now),
           transitions := Some(ToInt32(Epoch(Some(lease)) + 1)))
  }

  /** newLease: the uid and the version are filled in by the store. */
  function NewLease(name: string, id: string, now: int): Lease {
    Acquire(Lease(name, 0, 0, None, None, None, None, None), id, now)
  }

  /** The heartbeat write: only the renew time changes. */
  function Renew(lease: Lease, now: int): Lease {
    lease.(renewTime := Some(now))
  }

  function ResultOf(status: Status, id: string, lease: Option<Lease>, active: bool): Result {
    Result(
      status, id,
      if active then Holder(lease) else "",
      REQUEST_INTERVAL_SECONDS,
      if lease.Some? && lease.value.duration.Some? then lease.value.duration.value else LEASE_DURATION_SECONDS,
      Epoch(lease))
  }

  /** Taking a Lease raises its epoch by one exactly when the stored epoch is not the largest 32-bit integer. */
  lemma AcquireRaisesEpoch(lease: Lease, id: string, now: int)
    ensures Epoch(Some(Acquire(lease, id, now))) == Epoch(Some(lease)) + 1 <==> Epoch(Some(lease)) != MAX_INT32
  {
    var e := Epoch(Some(lease));
    if e == MAX_INT32 {
      assert ToInt32(e + 1) == -0x8000_0000;
    } else {
      assert ToInt32(e + 1) == e + 1;
    }
  }

  /** At the largest epoch the counter wraps to the smallest 32-bit integer. */
  lemma EpochWrapsAround(id: string, now: int)
    ensures var full := NewLease("lease", "a", 0).(transitions := Some(MAX_INT32));
            Epoch(Some(Acquire(full, id, now))) == -0x8000_0000
  {
  }

  /** A Lease that elect works on: acquireLease assigns its fields in place. */
  class LeaseObject {
    var name: string
    var uid: nat
    var version: nat
    var holder: Option<string>
    var duration: Option<Int32>
    var acquireTime: Option<int>
    var renewTime: Option<int>
    var transitions: Option<Int32>

    function Value(): Lease
      reads this
    {
      Lease(name, uid, version, holder, duration, acquireTime, renewTime, transitions)
    }

    /** DeepCopy. */
    constructor Copy(lease: Lease)
      ensures Value() == lease
    {
      name, uid, version := lease.name, lease.uid, lease.version;
      holder, duration := lease.holder, lease.duration;
      acquireTime, renewTime, transitions := lease.acquireTime, lease.renewTime, lease.transitions;
    }

    method AcquireLease(id: string, now: int)
      modifies this
      ensures Value() == Acquire(old(Value()), id, now)
    {
      var nextEpoch := ToInt32(transitions.GetOr(0) + 1);
      holder := Some(id);
      duration := Some(LEASE_DURATION_SECONDS);
      acquireTime := Some(now);
      renewTime := Some(now);
      transitions := Some(nextEpoch);
    }

    method RenewLease(now: int)
      modifies this
      ensures Value() == Renew(old(Value()), now)
    {
      renewTime := Some(now);
    }
  }
}
