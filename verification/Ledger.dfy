/** The capacity ledger as a state machine. Each locked section of the runtime is one
    atomic step; every step is a function of the state, its request and the sampled tick.
    Journal appends are taken to succeed and are recorded in `journal`. */
module Ledger {
  import opened Arithmetic
  import opened Pressure
  import opened Model
  import opened Attempts
  import opened Grants
  import Order

  datatype Config = Config(autoFenceOnRetirement: bool, refuseAfterShutdown: bool)

  /** The books: the pools with their aggregates, the allocation records, the next
      allocation id, and the durable records written so far. */
  datatype Books = Books(pools: Pools, allocations: map<u64, Allocation>, nextAllocation: u64,
                         journal: seq<JournalRecord>)

  datatype Counters = Counters(nextPool: u64, nextQueue: u64, nextPolicy: u64, nextSnapshot: u64, nextDecision: u64)

  datatype Names = Names(policies: map<Name, u64>, pools: map<Name, u64>, queues: map<Name, u64>)

  datatype Fabric = Fabric(
    config: Config, shuttingDown: bool, epoch: u64, boot: Boot, counters: Counters, names: Names,
    backends: map<u64, u64>, capacities: map<u64, Capacity>, policies: map<u64, Policy>,
    queues: map<u64, Queue>, pressure: map<u64, PressureSnapshot>, attempts: AttemptMemory, books: Books)
  {
    /** New work is refused once shutdown has begun, when so configured. */
    predicate Refusing() { shuttingDown && config.refuseAfterShutdown }
  }

  datatype DecisionKind = Granted | GrantedPartial | Refused | ReduceUsage | FenceRequired
                        | RevalidateRequired | Reclaimed | NoOp | IdempotentReplay

  /** What a caller sees: a refused call with its status, or a decision. */
  datatype Outcome = Failed(code: Code) | Decided(kind: DecisionKind, status: Code, granted: u64, allocation: u64)

  function Log(b: Books, r: JournalRecord): Books { b.(journal := b.journal + [r]) }

  function LogTo(s: Fabric, r: JournalRecord): Fabric { s.(books := Log(s.books, r)) }

  // ----- Applying and returning units -----

  /** adjust_queue: an entry that would drop to zero or below is erased. */
  function AdjustBucket(m: map<u64, u64>, q: u64, delta: int): map<u64, u64>
    requires -TWO64 < delta < TWO64
  {
    if delta >= 0 then m[q := Wrap(Bucket(m, q) + delta)]
    else if q !in m then m
    else if m[q] <= -delta then m - {q}
    else m[q := m[q] + delta]
  }

  function AdjustQueue(e: PoolEntry, q: u64, delta: int, reserved: bool): PoolEntry
    requires -TWO64 < delta < TWO64
  {
    if reserved then e.(queueReserved := AdjustBucket(e.queueReserved, q, delta))
    else e.(queueCommitted := AdjustBucket(e.queueCommitted, q, delta))
  }

  /** apply_commit_units: own and borrowed units are charged to the pool, borrowed ones
      also to the lender. Earlier assignments stay in place when a later check fails. */
  function CommitUnits(pools: Pools, p: u64, units: u64, borrow: u64, lender: u64): (r: (Pools, Code))
    requires p in pools
    ensures r.0.Keys == pools.Keys
  {
    if borrow > units then (pools, INVARIANT_VIOLATION)
    else
      var e := pools[p];
      if AddOverflows(e.ownUsage, units - borrow) then (pools, OVERFLOW)
      else if AddOverflows(e.borrowedIn, borrow) then (pools, OVERFLOW)
      else
        var charged := pools[p := e.(ownUsage := Wrap(e.ownUsage + units - borrow),
                                     borrowedIn := Wrap(e.borrowedIn + borrow))];
        if borrow == 0 then (charged, OK)
        else if lender == 0 then (charged, INVARIANT_VIOLATION)
        else if lender !in charged then (charged, UNKNOWN_POOL)
        else
          var l := charged[lender];
          if AddOverflows(l.lentOut, borrow) then (charged, OVERFLOW)
          else if AddOverflows(l.ownUsage, borrow) then (charged, OVERFLOW)
          else if Wrap(l.ownUsage + borrow) > SatAdd(l.Usable(), MAX_OVERCOMMIT) then (charged, CAPACITY_EXCEEDED)
          else (charged[lender := l.(lentOut := Wrap(l.lentOut + borrow),
                                     ownUsage := Wrap(l.ownUsage + borrow))], OK)
  }

  /** The part of apply_release_units that touches the owning pool. */
  function DebitOwner(e: PoolEntry, r: Allocation): (PoolEntry, Code) {
    if e.ownUsage < r.Own() || e.borrowedIn < r.Borrowed() then (e, INVARIANT_VIOLATION)
    else if r.state.Reserved? && e.reserved < r.units then (e, INVARIANT_VIOLATION)
    else if !r.state.Reserved? && e.committed < r.units then (e, INVARIANT_VIOLATION)
    else
      var e1 := if r.state.Reserved? then e.(reserved := e.reserved - r.units)
                else e.(committed := e.committed - r.units);
      if r.reclaimClass.Pinned? && e1.pinned < r.units then (e1, INVARIANT_VIOLATION)
      else if !r.reclaimClass.Pinned? && e1.reclaimable < r.units then (e1, INVARIANT_VIOLATION)
      else
        var e2 := if r.reclaimClass.Pinned? then e1.(pinned := e1.pinned - r.units)
                  else e1.(reclaimable := e1.reclaimable - r.units);
        (e2.(ownUsage := e2.ownUsage - r.Own(), borrowedIn := e2.borrowedIn - r.Borrowed()), OK)
  }

  /** apply_release_units: returns the units of `r` to its pool and its lender and drops
      the id from the member index. */
  function ReleaseUnits(pools: Pools, r: Allocation): (res: (Pools, Code))
    requires r.pool in pools
    ensures res.0.Keys == pools.Keys
  {
    if !r.Holds() then (pools, INVARIANT_VIOLATION)
    else
      var (e, code) := DebitOwner(pools[r.pool], r);
      var debited := pools[r.pool := e];
      if code != OK then (debited, code)
      else if r.Borrowed() != 0 && (r.lender == 0 || r.lender !in debited) then (debited, INVARIANT_VIOLATION)
      else if r.Borrowed() != 0 &&
              (debited[r.lender].lentOut < r.Borrowed() || debited[r.lender].ownUsage < r.Borrowed())
      then (debited, INVARIANT_VIOLATION)
      else
        var repaid :=
          if r.Borrowed() == 0 then debited
          else
            var l := debited[r.lender];
            debited[r.lender := l.(lentOut := l.lentOut - r.Borrowed(), ownUsage := l.ownUsage - r.Borrowed())];
        var owner := AdjustQueue(repaid[r.pool], r.queue, 0 - r.units, r.state.Reserved?);
        (repaid[r.pool := owner.(members := owner.members - {r.id})], OK)
  }

  // ----- Fencing -----

  /** fence_allocation_locked. */
  function FenceOne(b: Books, id: u64, to: AllocationState, now: u64): (Books, Code)
    requires id in b.allocations
  {
    var r := b.allocations[id];
    if r.pool !in b.pools then (b, UNKNOWN_POOL)
    else if !r.Holds() then (b, NO_CHANGE)
    else
      var (pools, code) := ReleaseUnits(b.pools, r);
      if code != OK then (b.(pools := pools), code)
      else
        var r' := Marked(r, to, now);
        (Log(b.(pools := pools, allocations := b.allocations[id := r']), AllocationUpsert(OpFor(to), r')), OK)
  }

  /** The generations and epoch a binding must match to be current. */
  datatype Current = Current(pool: u64, capacity: u64, policy: u64, epoch: u64)

  function CurrentFor(e: PoolEntry, policy: Policy, epoch: u64): Current {
    Current(e.descriptor.generation, e.capacityGeneration, policy.generation, epoch)
  }

  /** is_stale_binding. */
  predicate StaleBinding(r: Allocation, c: Current) {
    || r.bound.poolGeneration != c.pool
    || r.bound.capacityGeneration != c.capacity
    || r.bound.policyGeneration != c.policy
    || r.bound.epoch != c.epoch
  }

  /** The tick a reservation lapses at; 0 for never. */
  function Expiry(r: Allocation, ttl: u64): u64 {
    if r.expiresAt == 0 && ttl != 0 then SatAdd(r.createdAt, ttl) else r.expiresAt
  }

  /** Which of the visited allocations a fencing loop acts on. */
  datatype Selector =
    | AnyHolding
    | StaleFor(current: Current)
    | LapsedBy(ttl: u64, tick: u64)
    | OtherPolicyGeneration(generation: u64)

  predicate Selects(r: Allocation, sel: Selector) {
    match sel
    case AnyHolding => r.Holds()
    case StaleFor(c) => r.Holds() && StaleBinding(r, c)
    case LapsedBy(ttl, tick) => r.state.Reserved? && Expiry(r, ttl) != 0 && Expiry(r, ttl) <= tick
    case OtherPolicyGeneration(g) => r.Holds() && r.bound.policyGeneration != g
  }

  /** A fencing loop over a list of ids; it stops at the first failure. */
  function FenceAll(b: Books, ids: seq<u64>, sel: Selector, to: AllocationState, now: u64): (Books, Code)
    decreases |ids|
  {
    if ids == [] then (b, OK)
    else if ids[0] !in b.allocations || !Selects(b.allocations[ids[0]], sel) then FenceAll(b, ids[1..], sel, to, now)
    else
      var (b', code) := FenceOne(b, ids[0], to, now);
      if code != OK then (b', code) else FenceAll(b', ids[1..], sel, to, now)
  }

  // ----- Allocate -----

  datatype AllocateRequest = AllocateRequest(
    attempt: u64, digest: Digest, pool: u64, queue: u64, units: u64, reclaimClass: ReclaimClass, priority: u64,
    ttl: u64, commitNow: bool, parent: u64, provenance: u64, expectedPool: u64, expectedPolicy: u64,
    expectedQueue: u64, expectedCapacity: u64, expectedEpoch: u64, chain: Digest)

  predicate Mismatch(expected: u64, actual: u64) { expected != 0 && expected != actual }

  function CountDecision(s: Fabric): Fabric {
    s.(counters := s.counters.(nextDecision := Wrap(s.counters.nextDecision + 1)))
  }

  function Remember(s: Fabric, kind: AttemptKind, attempt: u64, digest: Digest, outcome: Code,
                    allocation: u64, granted: u64, now: u64): Fabric {
    CountDecision(s).(attempts := Record(s.attempts, Attempt(attempt, kind, digest, outcome, allocation, granted,
                                                             s.counters.nextDecision, now, false)))
  }

  /** The checks made before the attempt memory is consulted. */
  function AllocateAdmission(s: Fabric, q: AllocateRequest): Code {
    if s.Refusing() then SHUTTING_DOWN
    else if q.attempt == 0 then INVALID_ARGUMENT
    else if q.units == 0 then INVALID_ARGUMENT
    else if q.units > MAX_UNITS then OVERFLOW
    else if |s.books.allocations| >= MAX_ALLOCATIONS then EXHAUSTED
    else if Find(s.attempts, q.attempt, q.digest).Conflict? then ATTEMPT_CONFLICT
    else if q.pool == 0 then INVALID_ARGUMENT
    else if q.pool !in s.books.pools then UNKNOWN_POOL
    else if q.queue == 0 then INVALID_ARGUMENT
    else if q.queue !in s.queues then UNKNOWN_QUEUE
    else if s.books.pools[q.pool].descriptor.policy !in s.policies then UNKNOWN_POLICY
    else OK
  }

  /** The generation assertions of a request that is not a replay. */
  function AllocateBindings(s: Fabric, q: AllocateRequest): Code
    requires q.pool in s.books.pools && q.queue in s.queues && s.books.pools[q.pool].descriptor.policy in s.policies
  {
    var e, queue := s.books.pools[q.pool], s.queues[q.queue];
    if Mismatch(q.expectedEpoch, s.epoch) then STALE_EPOCH
    else if Mismatch(q.expectedPool, e.descriptor.generation) then STALE_GENERATION
    else if Mismatch(q.expectedPolicy, s.policies[e.descriptor.policy].generation) then STALE_GENERATION
    else if Mismatch(q.expectedCapacity, e.capacityGeneration) then STALE_GENERATION
    else if Mismatch(q.expectedQueue, queue.generation) then STALE_GENERATION
    else if queue.pool != e.descriptor.id then INVALID_ARGUMENT
    else OK
  }

  /** A refusal decided before or after the arithmetic, or the units to grant. */
  datatype Verdict = Deny(kind: DecisionKind, status: Code) | Give(units: u64)

  function Decide(s: Fabric, q: AllocateRequest, now: u64): Verdict
    requires q.pool in s.books.pools && q.queue in s.queues && s.books.pools[q.pool].descriptor.policy in s.policies
  {
    var e, queue := s.books.pools[q.pool], s.queues[q.queue];
    var policy := s.policies[e.descriptor.policy];
    var evidence := ResolveEvidence(s.pressure, s.policies, s.epoch, e, now);
    if e.descriptor.retired then Deny(Refused, WRONG_STATE)
    else if queue.retired then Deny(Refused, WRONG_STATE)
    else if !evidence.state.Known() && policy.pressure.refuseOnUnknown then Deny(RevalidateRequired, evidence.reason)
    else if evidence.state.Known() && !policy.refuseAt.Unknown? && evidence.state.AtLeast(policy.refuseAt)
    then Deny(ReduceUsage, POLICY_FORBIDS)
    else
      var units := AllocateUnits(s.books.pools, e, queue, policy, evidence.state, q.units);
      if units != 0 then Give(units)
      else if evidence.state.Known() && evidence.state.AtLeast(policy.reduceAt) then Deny(ReduceUsage, POLICY_FORBIDS)
      else Deny(Refused, CAPACITY_EXCEEDED)
  }

  datatype Draft = Rejected(code: Code) | Drafted(record: Allocation)

  /** The record an allocate is about to store, or the reason it cannot be formed. */
  function DraftRecord(s: Fabric, q: AllocateRequest, grant: u64, now: u64): Draft
    requires q.pool in s.books.pools && q.queue in s.queues && s.books.pools[q.pool].descriptor.policy in s.policies
  {
    var e, queue := s.books.pools[q.pool], s.queues[q.queue];
    var policy := s.policies[e.descriptor.policy];
    var g := ComputeGrant(s.books.pools, e, policy);
    var borrow := BorrowFor(g, grant);
    if AddOverflows(s.books.nextAllocation, 1) then Rejected(OVERFLOW)
    else if q.ttl != 0 && AddOverflows(now, q.ttl) then Rejected(OVERFLOW)
    else if q.parent != 0 && q.parent !in s.books.allocations then Rejected(UNKNOWN_ALLOCATION)
    else if q.parent != 0 && s.books.allocations[q.parent].lineage.depth + 1 > MAX_LINEAGE then Rejected(EXHAUSTED)
    else
      var lineage :=
        if q.parent != 0 then
          var parent := s.books.allocations[q.parent];
          Lineage(if parent.lineage.origin != 0 then parent.lineage.origin else parent.id,
                  parent.id, parent.lineage.depth + 1, q.chain)
        else Lineage(s.books.nextAllocation, 0, 0, q.chain);
      var bound := Bound(e.descriptor.generation, queue.generation, policy.generation, e.capacityGeneration,
                         Bucket(s.backends, e.descriptor.backend), s.epoch, s.boot);
      Drafted(Allocation(
        s.books.nextAllocation, e.descriptor.id, queue.id, queue.tenant, queue.trafficClass, grant,
        if q.commitNow then Committed else Reserved, q.reclaimClass, q.priority, lineage, bound,
        q.attempt, q.provenance, borrow, if borrow != 0 then g.lender else 0,
        now, now, if q.ttl != 0 then Wrap(now + q.ttl) else 0, 1))
  }

  /** The counters of the owning pool, other than usage, after `r` is granted. */
  function CreditOwner(e: PoolEntry, r: Allocation): PoolEntry {
    var e1 := if r.state.Committed? then e.(committed := Wrap(e.committed + r.units))
              else e.(reserved := Wrap(e.reserved + r.units));
    if r.reclaimClass.Pinned? then e1.(pinned := Wrap(e1.pinned + r.units))
    else e1.(reclaimable := Wrap(e1.reclaimable + r.units))
  }

  /** The scratch entry on which the plan is verified before anything is journaled. */
  function PlannedEntry(e: PoolEntry, r: Allocation): PoolEntry {
    CreditOwner(e, r).(ownUsage := Wrap(e.ownUsage + r.units - r.borrow),
                       borrowedIn := Wrap(e.borrowedIn + r.borrow), members := e.members + {r.id})
  }

  /** The bookkeeping that follows a successful charge. */
  function EnterRecord(b: Books, pools: Pools, r: Allocation): Books
    requires r.pool in pools
  {
    var e := AdjustQueue(CreditOwner(pools[r.pool], r), r.queue, r.units, r.state.Reserved?);
    b.(pools := pools[r.pool := e.(members := e.members + {r.id})],
       nextAllocation := Wrap(b.nextAllocation + 1),
       allocations := b.allocations[r.id := r])
  }

  /** Journal, then apply: the order of the source. */
  function StoreRecord(b: Books, r: Allocation): (Books, Code)
    requires r.pool in b.pools
  {
    var logged := Log(b, AllocationUpsert(OpFor(r.state), r));
    var (pools, code) := CommitUnits(b.pools, r.pool, r.units, r.borrow, r.lender);
    if code != OK then (logged.(pools := pools), code) else (EnterRecord(logged, pools, r), OK)
  }

  function GrantAndStore(s: Fabric, q: AllocateRequest, grant: u64, now: u64): (Fabric, Outcome)
    requires q.pool in s.books.pools && q.queue in s.queues && s.books.pools[q.pool].descriptor.policy in s.policies
  {
    var e := s.books.pools[q.pool];
    var policy := s.policies[e.descriptor.policy];
    match DraftRecord(s, q, grant, now)
    case Rejected(code) => (s, Failed(code))
    case Drafted(r) =>
      if !Closes(AccountingOf(PlannedEntry(e, r), policy.Allowance()), policy.overcommit.mode, policy.overcommit.limit)
      then (s, Failed(INVARIANT_VIOLATION))
      else if r.pool !in s.books.pools then (s, Failed(UNKNOWN_POOL))
      else
        var (b, code) := StoreRecord(s.books, r);
        var s1 := s.(books := b);
        if code != OK then (s1, Failed(code))
        else if q.pool in b.pools && !PoolCloses(s.policies, b.pools[q.pool])
        then (s1.(shuttingDown := true), Failed(ACCOUNTING_VIOLATION))
        else
          (Remember(s1, AllocateAttempt, q.attempt, q.digest, OK, r.id, grant, now),
           Decided(if grant == q.units then Granted else GrantedPartial, OK, grant, r.id))
  }

  /** allocate_locked. */
  function Allocate(s: Fabric, q: AllocateRequest, now: u64): (Fabric, Outcome) {
    var admission := AllocateAdmission(s, q);
    if admission != OK then (s, Failed(admission))
    else
      var seen := Find(s.attempts, q.attempt, q.digest);
      if seen.Replay?
      then (s, Decided(IdempotentReplay, seen.previous.outcome, seen.previous.granted, seen.previous.allocation))
      else
        var bindings := AllocateBindings(s, q);
        if bindings != OK then (s, Failed(bindings))
        else
          match Decide(s, q, now)
          case Deny(kind, status) =>
            (Remember(s, AllocateAttempt, q.attempt, q.digest, status, 0, 0, now), Decided(kind, status, 0, 0))
          case Give(grant) => GrantAndStore(s, q, grant, now)
  }

  /** evaluate: the units a request would be given, or why not. Reads only. */
  function Evaluate(s: Fabric, p: u64, queueId: u64, units: u64, expectedEpoch: u64, now: u64): Outcome {
    if units > MAX_UNITS then Failed(OVERFLOW)
    else if p == 0 then Failed(INVALID_ARGUMENT)
    else if p !in s.books.pools then Failed(UNKNOWN_POOL)
    else if queueId == 0 then Failed(INVALID_ARGUMENT)
    else if queueId !in s.queues then Failed(UNKNOWN_QUEUE)
    else if s.queues[queueId].pool != s.books.pools[p].descriptor.id then Failed(INVALID_ARGUMENT)
    else if s.books.pools[p].descriptor.policy !in s.policies then Failed(UNKNOWN_POLICY)
    else
      var e, queue := s.books.pools[p], s.queues[queueId];
      var policy := s.policies[e.descriptor.policy];
      var evidence := ResolveEvidence(s.pressure, s.policies, s.epoch, e, now);
      if Mismatch(expectedEpoch, s.epoch) then Decided(RevalidateRequired, STALE_EPOCH, 0, 0)
      else if e.descriptor.retired then Decided(Refused, WRONG_STATE, 0, 0)
      else if queue.retired then Decided(Refused, WRONG_STATE, 0, 0)
      else if units == 0 then Decided(NoOp, OK, 0, 0)
      else if !evidence.state.Known() && policy.pressure.refuseOnUnknown
      then Decided(RevalidateRequired, evidence.reason, 0, 0)
      else if evidence.state.Known() && !policy.refuseAt.Unknown? && evidence.state.AtLeast(policy.refuseAt)
      then Decided(ReduceUsage, POLICY_FORBIDS, 0, 0)
      else
        var grant := EvaluateUnits(s.books.pools, e, queue, policy, units);
        if grant == 0 then Decided(Refused, CAPACITY_EXCEEDED, 0, 0)
        else Decided(if grant == units then Granted else GrantedPartial, OK, grant, 0)
  }

  // ----- Commit, release, revalidate -----

  /** Admission shared by the operations on an existing allocation. */
  function ExistingAdmission(s: Fabric, attempt: u64, digest: Digest, id: u64): Code {
    if attempt == 0 then INVALID_ARGUMENT
    else if Find(s.attempts, attempt, digest).Conflict? then ATTEMPT_CONFLICT
    else if id !in s.books.allocations then UNKNOWN_ALLOCATION
    else
      var r := s.books.allocations[id];
      if r.pool == 0 then INVALID_ARGUMENT
      else if r.pool !in s.books.pools then UNKNOWN_POOL
      else if s.books.pools[r.pool].descriptor.policy !in s.policies then UNKNOWN_POLICY
      else if r.queue == 0 then INVALID_ARGUMENT
      else if r.queue !in s.queues then UNKNOWN_QUEUE
      else OK
  }

  datatype CommitRequest = CommitRequest(attempt: u64, digest: Digest, allocation: u64,
                                         expectedPool: u64, expectedEpoch: u64)

  function CommitEntry(e: PoolEntry, r: Allocation): PoolEntry {
    var moved := e.(reserved := Wrap(e.reserved - r.units), committed := Wrap(e.committed + r.units));
    AdjustQueue(AdjustQueue(moved, r.queue, 0 - r.units, true), r.queue, r.units, false)
  }

  /** The closing half of commit and release: verify closure, then remember the attempt. */
  function Settle(s: Fabric, p: u64, kind: AttemptKind, attempt: u64, digest: Digest, allocation: u64,
                  units: u64, now: u64): (Fabric, Outcome) {
    if p in s.books.pools && !PoolCloses(s.policies, s.books.pools[p])
    then (s.(shuttingDown := true), Failed(ACCOUNTING_VIOLATION))
    else (Remember(s, kind, attempt, digest, OK, allocation, units, now), Decided(NoOp, OK, units, allocation))
  }

  /** A reservation promoted to a commitment. */
  function Promoted(b: Books, id: u64, now: u64): Books
    requires id in b.allocations && b.allocations[id].pool in b.pools
  {
    var r := b.allocations[id];
    var r' := Marked(r, Committed, now);
    Log(b, AllocationUpsert(OpCommitted, r')).(
      pools := b.pools[r.pool := CommitEntry(b.pools[r.pool], r)], allocations := b.allocations[id := r'])
  }

  /** Why a commit that is not a replay is refused, or OK. */
  function CommitGuard(s: Fabric, q: CommitRequest): Code
    requires ExistingAdmission(s, q.attempt, q.digest, q.allocation) == OK
  {
    var r := s.books.allocations[q.allocation];
    var e := s.books.pools[r.pool];
    if Mismatch(q.expectedEpoch, s.epoch) then STALE_EPOCH
    else if Mismatch(q.expectedPool, e.descriptor.generation) then STALE_GENERATION
    else if !r.state.Reserved? then WRONG_STATE
    else if StaleBinding(r, CurrentFor(e, s.policies[e.descriptor.policy], s.epoch)) then STALE_GENERATION
    else OK
  }

  /** commit_locked. */
  function Commit(s: Fabric, q: CommitRequest, now: u64): (Fabric, Outcome) {
    var admission := ExistingAdmission(s, q.attempt, q.digest, q.allocation);
    if admission != OK then (s, Failed(admission))
    else
      var r := s.books.allocations[q.allocation];
      var seen := Find(s.attempts, q.attempt, q.digest);
      if seen.Replay? then (s, Decided(IdempotentReplay, seen.previous.outcome, seen.previous.granted, r.id))
      else if CommitGuard(s, q) != OK then (s, Failed(CommitGuard(s, q)))
      else Settle(s.(books := Promoted(s.books, q.allocation, now)), r.pool, CommitAttempt, q.attempt, q.digest, r.id, r.units, now)
  }

  datatype ReleaseRequest = ReleaseRequest(attempt: u64, digest: Digest, allocation: u64, units: u64,
                                           releaseAll: bool, expectedEpoch: u64)

  /** Borrowed units returned with a release: proportional, in plain 64-bit arithmetic. */
  function ReturnedBorrow(r: Allocation, release: u64): u64
    requires r.units != 0
  {
    if release == r.units then r.Borrowed() else Wrap(r.Borrowed() * release) / r.units
  }

  /** The released half, as handed to apply_release_units. */
  function ReleasedHalf(r: Allocation, release: u64, now: u64): Allocation
    requires r.units != 0
  {
    r.(units := release, borrow := ReturnedBorrow(r, release), revision := Wrap(r.revision + 1), lastTouched := now)
  }

  /** What remains: the surviving commitment, or a released record when nothing does. */
  function RemainingHalf(r: Allocation, release: u64, now: u64): Allocation
    requires r.units != 0
  {
    var left := r.(units := Wrap(r.units - release), borrow := Wrap(r.Borrowed() - ReturnedBorrow(r, release)),
                   lastTouched := now, revision := Wrap(r.revision + 1));
    if left.units == 0 then left.(state := Released, borrow := 0, lender := 0) else left
  }

  /** The books once `release` units are returned, and the status of returning them. */
  function Returning(b: Books, id: u64, release: u64, now: u64): (Books, Code)
    requires id in b.allocations && b.allocations[id].pool in b.pools && b.allocations[id].units != 0
  {
    var r := b.allocations[id];
    var (pools, code) := ReleaseUnits(b.pools, ReleasedHalf(r, release, now));
    if code != OK then (b.(pools := pools), code)
    else
      var left := RemainingHalf(r, release, now);
      (Log(b, AllocationUpsert(OpReleased, left)).(pools := pools, allocations := b.allocations[id := left]), OK)
  }

  /** release_locked. A record that holds units has a non-zero size in every state the
      ledger reaches; the division by it is guarded accordingly. */
  function Release(s: Fabric, q: ReleaseRequest, now: u64): (Fabric, Outcome) {
    var admission := ExistingAdmission(s, q.attempt, q.digest, q.allocation);
    if admission != OK then (s, Failed(admission))
    else
      var r := s.books.allocations[q.allocation];
      var seen := Find(s.attempts, q.attempt, q.digest);
      if seen.Replay? then (s, Decided(IdempotentReplay, seen.previous.outcome, seen.previous.granted, r.id))
      else if Mismatch(q.expectedEpoch, s.epoch) then (s, Failed(STALE_EPOCH))
      else if !r.Holds()
      then (Remember(s, ReleaseAttempt, q.attempt, q.digest, OK, r.id, 0, now), Decided(NoOp, OK, 0, r.id))
      else if !q.releaseAll && (q.units == 0 || q.units > r.units) then (s, Failed(INVALID_ARGUMENT))
      else if r.units == 0 then (s, Failed(INVARIANT_VIOLATION))
      else
        var release := if q.releaseAll then r.units else q.units;
        var (b, code) := Returning(s.books, q.allocation, release, now);
        if code != OK then (s.(books := b), Failed(code))
        else Settle(s.(books := b), r.pool, ReleaseAttempt, q.attempt, q.digest, r.id, release, now)
  }

  datatype RevalidateRequest = RevalidateRequest(attempt: u64, digest: Digest, allocation: u64, expectedEpoch: u64)

  /** A binding renewed to the current generations and epoch. */
  function Renewed(bound: Bound, c: Current, queueGeneration: u64, boot: Boot): Bound {
    bound.(poolGeneration := c.pool, queueGeneration := queueGeneration, policyGeneration := c.policy,
           capacityGeneration := c.capacity, epoch := c.epoch, boot := boot)
  }

  function Rebound(b: Books, id: u64, bound: Bound, now: u64): Books
    requires id in b.allocations
  {
    var r' := b.allocations[id].(bound := bound, lastTouched := now, revision := Wrap(b.allocations[id].revision + 1));
    Log(b, AllocationUpsert(OpRevalidated, r')).(allocations := b.allocations[id := r'])
  }

  /** revalidate_locked. */
  function Revalidate(s: Fabric, q: RevalidateRequest, now: u64): (Fabric, Outcome) {
    var admission := ExistingAdmission(s, q.attempt, q.digest, q.allocation);
    if admission != OK then (s, Failed(admission))
    else
      var r := s.books.allocations[q.allocation];
      var e, queue := s.books.pools[r.pool], s.queues[r.queue];
      var current := CurrentFor(e, s.policies[e.descriptor.policy], s.epoch);
      var seen := Find(s.attempts, q.attempt, q.digest);
      if seen.Replay? then (s, Decided(IdempotentReplay, seen.previous.outcome, seen.previous.granted, r.id))
      else if Mismatch(q.expectedEpoch, s.epoch) then (s, Failed(STALE_EPOCH))
      else if !r.Holds() then (s, Failed(FENCED))
      else if queue.pool != e.descriptor.id then (s, Failed(STALE_GENERATION))
      else if StaleBinding(r, current) then (CountDecision(s), Decided(FenceRequired, STALE_GENERATION, 0, r.id))
      else
        var b := Rebound(s.books, q.allocation, Renewed(r.bound, current, queue.generation, s.boot), now);
        (Remember(s.(books := b), RevalidateAttempt, q.attempt, q.digest, OK, r.id, r.units, now),
         Decided(NoOp, OK, r.units, r.id))
  }

  // ----- Whole-pool fencing -----

  function PoolAdmission(s: Fabric, p: u64): Code {
    if s.Refusing() then SHUTTING_DOWN
    else if p == 0 then INVALID_ARGUMENT
    else if p !in s.books.pools then UNKNOWN_POOL
    else if s.books.pools[p].descriptor.policy !in s.policies then UNKNOWN_POLICY
    else OK
  }

  ghost function SweepPool(s: Fabric, p: u64, sel: Selector, to: AllocationState, now: u64): (Fabric, Code)
    requires p in s.books.pools
  {
    var (b, code) := FenceAll(s.books, Order.Ascending(s.books.pools[p].members), sel, to, now);
    (if code == OK then CountDecision(s.(books := b)) else s.(books := b), code)
  }

  /** fence_stale. */
  ghost function FenceStale(s: Fabric, p: u64, now: u64): (Fabric, Code) {
    var admission := PoolAdmission(s, p);
    if admission != OK then (s, admission)
    else
      var e := s.books.pools[p];
      SweepPool(s, p, StaleFor(CurrentFor(e, s.policies[e.descriptor.policy], s.epoch)), Fenced, now)
  }

  /** expire_reservations. */
  ghost function ExpireReservations(s: Fabric, p: u64, now: u64): (Fabric, Code) {
    var admission := PoolAdmission(s, p);
    if admission != OK then (s, admission)
    else
      var e := s.books.pools[p];
      SweepPool(s, p, LapsedBy(s.policies[e.descriptor.policy].reservationTtl, now), Expired, now)
  }
}
