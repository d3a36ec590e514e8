/** The entities of the fabric: descriptors, policies, allocation records, per-pool
    aggregates, and the records that make a mutation durable. */
module Model {
  import opened Arithmetic
  import opened Pressure

  // ----- Hard bounds -----

  const MAX_POOLS: nat := 4096
  const MAX_QUEUES: nat := 0x10_0000
  const MAX_ALLOCATIONS: nat := 0x40_0000
  const MAX_POLICIES: nat := 4096
  const MAX_SNAPSHOTS: nat := 0x1_0000
  const MAX_ATTEMPTS: nat := 0x1_0000
  const MAX_DEPTH: nat := 16
  const MAX_UNITS: u64 := 0x1000_0000_0000_0000
  const MAX_OVERCOMMIT: u64 := 0x1000_0000_0000_0000
  const MAX_VICTIMS: nat := 0x10_0000
  const MAX_LINEAGE: nat := 32
  const MAX_NAME: nat := 64
  const MAX_PENDING: nat := 0x10_0000

  // ----- Status codes, by their durable numbers -----

  type Code = x: int | 0 <= x <= 105 witness 0

  const OK: Code := 0
  const INVALID_ARGUMENT: Code := 1
  const NO_CHANGE: Code := 4
  const NAME_TOO_LONG: Code := 5
  const EXHAUSTED: Code := 6
  const OVERFLOW: Code := 7
  const SHUTTING_DOWN: Code := 12
  const LIFECYCLE_VIOLATION: Code := 13
  const WRONG_STATE: Code := 14
  const UNKNOWN_POOL: Code := 20
  const UNKNOWN_QUEUE: Code := 21
  const UNKNOWN_ALLOCATION: Code := 22
  const UNKNOWN_POLICY: Code := 23
  const UNKNOWN_BACKEND: Code := 24
  const UNKNOWN_RESOURCE: Code := 25
  const DUPLICATE_POOL: Code := 26
  const DUPLICATE_QUEUE: Code := 29
  const POOL_CYCLE: Code := 30
  const DEPTH_EXCEEDED: Code := 31
  const DUPLICATE_NAME: Code := 32
  const CAPACITY_EXCEEDED: Code := 40
  const HEADROOM_VIOLATION: Code := 41
  const ACCOUNTING_VIOLATION: Code := 44
  const INVARIANT_VIOLATION: Code := 45
  const POLICY_FORBIDS: Code := 48
  const STALE_GENERATION: Code := 60
  const STALE_EPOCH: Code := 61
  const STALE_EVIDENCE: Code := 63
  const EVIDENCE_UNKNOWN: Code := 64
  const FENCED: Code := 65
  const ATTEMPT_CONFLICT: Code := 66
  const EPOCH_REGRESSION: Code := 67
  const CORRUPT_RECORD: Code := 81
  const VERSION_MISMATCH: Code := 82
  const INTEGRITY_FAILURE: Code := 83
  const JOURNAL_TRUNCATED: Code := 84
  const SNAPSHOT_OVERSIZED: Code := 85
  const OVERSIZED: Code := 102
  const TRUNCATED: Code := 103

  // ----- Names -----

  type Name = seq<byte>

  /** ASCII letters, digits, underscore, hyphen and dot. */
  predicate NameByte(b: byte) {
    48 <= b <= 57 || 65 <= b <= 90 || 97 <= b <= 122 || b == 95 || b == 45 || b == 46
  }

  predicate ValidName(n: Name) {
    1 <= |n| <= MAX_NAME && forall i :: 0 <= i < |n| ==> NameByte(n[i])
  }

  datatype Digest = Digest(hi: u64, lo: u64)
  datatype Boot = Boot(hi: u64, lo: u64)

  // ----- Policies -----

  datatype OvercommitMode = ForbidOvercommit | Bounded
  datatype BorrowMode = ForbidBorrow | FromAncestorFree
  datatype Overcommit = Overcommit(mode: OvercommitMode, limit: u64)
  datatype Borrow = Borrow(mode: BorrowMode, limit: u64)
  datatype PressurePolicy = PressurePolicy(
    thresholds: Thresholds, evidenceTtl: u64, refuseOnUnknown: bool,
    reduceOnHigh: bool, reduceOnCritical: bool, refuseAboveHigh: bool)
  datatype ReclaimPolicy = ReclaimPolicy(
    enabled: bool, minHold: u64, maxUnits: u64, reserve: u64, allowProtected: bool)

  datatype Policy = Policy(
    id: u64, generation: u64, name: Name, provenance: u64,
    overcommit: Overcommit, borrow: Borrow,
    maxSingleAllocation: u64, maxSingleRequest: u64, softLimit: u32, allowPartial: bool,
    pressure: PressurePolicy, refuseAt: PressureState, reduceAt: PressureState,
    reclaim: ReclaimPolicy, usableFloor: u64, fenceOnChange: bool,
    reservationTtl: u64, maxPending: u64)
  {
    predicate Valid() {
      && id != 0
      && (name == [] || ValidName(name))
      && pressure.thresholds.Valid()
      && (if overcommit.mode.Bounded? then 0 < overcommit.limit <= MAX_OVERCOMMIT else overcommit.limit == 0)
      && (borrow.mode.ForbidBorrow? ==> borrow.limit == 0)
      && (borrow.mode.FromAncestorFree? ==> 0 < borrow.limit <= MAX_UNITS)
      && maxSingleAllocation <= MAX_UNITS
      && maxSingleRequest <= MAX_UNITS
      && softLimit <= SCALE
      && usableFloor <= MAX_UNITS
      && maxPending <= MAX_PENDING
      && reclaim.maxUnits <= MAX_UNITS
      && reclaim.reserve <= MAX_UNITS
      && !(pressure.refuseOnUnknown && refuseAt.Clear?)
      && (refuseAt.Unknown? || refuseAt.Known() || refuseAt.Stale?)
      && reduceAt.Known()
    }

    /** The allowance the accounting checks grant beyond usable capacity. */
    function Allowance(): u64 { if overcommit.mode.Bounded? then overcommit.limit else 0 }
  }

  // ----- Pools and queues -----

  datatype PoolDescriptor = PoolDescriptor(
    id: u64, generation: u64, name: Name, resource: u64, backend: u64,
    raw: u64, protected: u64, parent: u64, policy: u64, tenant: u64,
    provenance: u64, createdAt: u64, retired: bool)
  {
    function Validate(): Code {
      if id == 0 then INVALID_ARGUMENT
      else if !ValidName(name) then NAME_TOO_LONG
      else if raw == 0 then INVALID_ARGUMENT
      else if raw > MAX_UNITS then OVERFLOW
      else if protected >= raw then HEADROOM_VIOLATION
      else if backend == 0 then UNKNOWN_BACKEND
      else if policy == 0 then UNKNOWN_POLICY
      else if parent == id then POOL_CYCLE
      else OK
    }
  }

  datatype Queue = Queue(
    id: u64, generation: u64, name: Name, pool: u64, tenant: u64, trafficClass: u64,
    demand: u64, weight: u64, maxCommitted: u64, registeredAt: u64, demandUpdatedAt: u64,
    retired: bool)

  datatype Capacity = Capacity(resource: u64, backend: u64, generation: u64, raw: u64, observedAt: u64)

  datatype PressureSnapshot = PressureSnapshot(
    id: u64, pool: u64, poolGeneration: u64, epoch: u64, boot: Boot, observedAt: u64, ttl: u64,
    demand: u64, committed: u64, reclaimable: u64, provenance: u64, assertCommitted: bool,
    digest: Digest)

  // ----- Allocations -----

  datatype AllocationState = Reserved | Committed | Fenced | Reclaimed | Released | Expired {
    predicate Holds() { Reserved? || Committed? }
  }

  datatype ReclaimClass = Pinned | Reclaimable

  datatype Lineage = Lineage(origin: u64, parent: u64, depth: u32, chain: Digest)

  datatype Bound = Bound(
    poolGeneration: u64, queueGeneration: u64, policyGeneration: u64, capacityGeneration: u64,
    backendGeneration: u64, epoch: u64, boot: Boot)

  datatype Allocation = Allocation(
    id: u64, pool: u64, queue: u64, tenant: u64, trafficClass: u64, units: u64,
    state: AllocationState, reclaimClass: ReclaimClass, priority: u64,
    lineage: Lineage, bound: Bound, attempt: u64, provenance: u64,
    borrow: u64, lender: u64, createdAt: u64, lastTouched: u64, expiresAt: u64, revision: u64)
  {
    predicate Holds() { state.Holds() }

    /** Borrowed units, never more than the allocation itself. */
    function Borrowed(): u64 { if borrow <= units then borrow else units }

    function Own(): u64 { units - Borrowed() }
  }

  /** The record a change of state leaves behind. */
  function Marked(r: Allocation, to: AllocationState, now: u64): Allocation {
    r.(state := to, lastTouched := now, revision := Wrap(r.revision + 1))
  }

  datatype AttemptKind = AllocateAttempt | CommitAttempt | ReleaseAttempt | ReclaimAttempt
                       | FenceAttempt | RevalidateAttempt | ReserveAttempt

  datatype Attempt = Attempt(
    id: u64, kind: AttemptKind, digest: Digest, outcome: Code, allocation: u64,
    granted: u64, sequence: u64, recordedAt: u64, unfinished: bool)

  // ----- Per-pool aggregates -----

  /** A pool with the totals the runtime keeps incrementally. */
  datatype PoolEntry = PoolEntry(
    descriptor: PoolDescriptor, capacityGeneration: u64,
    reserved: u64, committed: u64, pinned: u64, reclaimable: u64,
    ownUsage: u64, borrowedIn: u64, lentOut: u64,
    queueCommitted: map<u64, u64>, queueReserved: map<u64, u64>, members: set<u64>)
  {
    function Allocated(): u64 { Wrap(reserved + committed) }

    function Usable(): u64 {
      if descriptor.raw >= descriptor.protected then descriptor.raw - descriptor.protected else 0
    }

    function OvercommitUsed(): u64 { if ownUsage > Usable() then ownUsage - Usable() else 0 }

    /** Free capacity: usable less own usage, and zero while overcommitted. */
    function Free(): (f: u64)
      ensures f == if ownUsage > Usable() then 0 else Usable() - ownUsage
    {
      Wrap(Usable() + OvercommitUsed() - ownUsage)
    }
  }

  function EmptyEntry(d: PoolDescriptor, capacityGeneration: u64): PoolEntry {
    PoolEntry(d, capacityGeneration, 0, 0, 0, 0, 0, 0, 0, map[], map[], {})
  }

  function Bucket(m: map<u64, u64>, q: u64): u64 { if q in m then m[q] else 0 }

  // ----- Durable records -----

  datatype AllocationOp = OpReserved | OpCommitted | OpReleased | OpReclaimed | OpFenced | OpRevalidated | OpExpired

  function OpFor(state: AllocationState): AllocationOp {
    match state
    case Reserved => OpReserved
    case Committed => OpCommitted
    case Fenced => OpFenced
    case Reclaimed => OpReclaimed
    case Released => OpReleased
    case Expired => OpExpired
  }

  datatype JournalRecord =
    | EpochAdvance(epoch: u64, boot: Boot)
    | PoolUpsert(descriptor: PoolDescriptor, capacityGeneration: u64)
    | PoolRemoved(pool: u64)
    | PolicyUpsert(policy: Policy)
    | QueueUpsert(queue: Queue)
    | QueueRetired(retired: u64)
    | CapacitySet(capacity: Capacity)
    | AllocationUpsert(op: AllocationOp, allocation: Allocation)
    | PressureObserved(snapshot: PressureSnapshot)
    | AttemptRecorded(attempt: Attempt)
    | Checkpoint
    | BackendRegistered
}
