/** Steps that change the topology: capacities, policies, pools, queues and evidence. */
module Topology {
  import opened Arithmetic
  import opened Sums
  import opened Model
  import opened Grants
  import opened Ledger
  import Order

  // ----- Partition of a resource -----

  ghost function RawShare(pools: Pools, resource: u64): u64 -> nat {
    (p: u64) => if p in pools && pools[p].descriptor.resource == resource then pools[p].descriptor.raw else 0
  }

  /** Raw units of a resource already partitioned into pools. */
  ghost function Partitioned(pools: Pools, resource: u64): nat {
    SumOver(pools.Keys, RawShare(pools, resource))
  }

  // ----- Capacity and backends -----

  function AttachBackend(s: Fabric, id: u64, generation: u64): (Fabric, Code) {
    if id == 0 then (s, INVALID_ARGUMENT) else (s.(backends := s.backends[id := generation]), OK)
  }

  ghost function CapacityGuard(s: Fabric, answer: Capacity, expectedRaw: u64, expectedGeneration: u64): Code {
    if s.Refusing() then SHUTTING_DOWN
    else if Mismatch(expectedRaw, answer.raw) then STALE_GENERATION
    else if Mismatch(expectedGeneration, answer.generation) then STALE_GENERATION
    else if Partitioned(s.books.pools, answer.resource) >= TWO64 then OVERFLOW
    else if Partitioned(s.books.pools, answer.resource) > answer.raw then CAPACITY_EXCEEDED
    else OK
  }

  /** The final locked section of set_capacity. The backend's answer was obtained earlier,
      with no lock held, so it is an arbitrary input here. */
  ghost function PublishCapacity(s: Fabric, answer: Capacity, expectedRaw: u64, expectedGeneration: u64,
                                 now: u64): (Fabric, Code) {
    var guard := CapacityGuard(s, answer, expectedRaw, expectedGeneration);
    if guard != OK then (s, guard)
    else
      var c := answer.(observedAt := now);
      (LogTo(s, CapacitySet(c)).(capacities := s.capacities[c.resource := c]), OK)
  }

  // ----- Policies -----

  /** Fences, pool by pool in the order given, the members bound to another generation
      of the policy. */
  ghost function FencePools(b: Books, order: seq<u64>, policy: u64, generation: u64, now: u64): (Books, Code)
    decreases |order|
  {
    if order == [] then (b, OK)
    else if order[0] !in b.pools || b.pools[order[0]].descriptor.policy != policy
    then FencePools(b, order[1..], policy, generation, now)
    else
      var (b', code) := FenceAll(b, Order.Ascending(b.pools[order[0]].members),
                                 OtherPolicyGeneration(generation), Fenced, now);
      if code != OK then (b', code) else FencePools(b', order[1..], policy, generation, now)
  }

  /** The id a request names, or the next one in line. */
  function ChosenId(requested: u64, next: u64): u64 { if requested != 0 then requested else next }

  /** The next id once `id` is taken. */
  function Advanced(id: u64, next: u64): u64 { if id >= next then Wrap(id + 1) else next }

  predicate IdExhausted(id: u64, next: u64) { id >= next && AddOverflows(id, 1) }

  function Proposed(s: Fabric, request: Policy): Policy {
    var id := ChosenId(request.id, s.counters.nextPolicy);
    request.(id := id, generation := if id in s.policies then Wrap(s.policies[id].generation + 1) else 1)
  }

  /** Why a publication stops after its id is taken, or OK; NO_CHANGE stands for content
      that is already published. Identical content is recognised by digest in the source
      and by equality here. */
  function PolicyGuard(s: Fabric, policy: Policy): Code {
    var id := policy.id;
    if policy.name != [] && policy.name in s.names.policies && s.names.policies[policy.name] != id then DUPLICATE_NAME
    else if id in s.policies && policy.(generation := s.policies[id].generation) == s.policies[id] then NO_CHANGE
    else if id in s.policies && AddOverflows(s.policies[id].generation, 1) then OVERFLOW
    else if id !in s.policies && |s.policies| >= MAX_POLICIES then EXHAUSTED
    else if !policy.Valid() then INVALID_ARGUMENT
    else OK
  }

  /** publish_policy. `order` is the iteration order of the pool table, which the source
      leaves to its hash map. */
  ghost function PublishPolicy(s: Fabric, request: Policy, order: seq<u64>, now: u64): (Fabric, Code) {
    var policy := Proposed(s, request);
    if s.Refusing() then (s, SHUTTING_DOWN)
    else if IdExhausted(policy.id, s.counters.nextPolicy) then (s, OVERFLOW)
    else
      var s0 := s.(counters := s.counters.(nextPolicy := Advanced(policy.id, s.counters.nextPolicy)));
      var guard := PolicyGuard(s, policy);
      if guard != OK then (s0, if guard == NO_CHANGE then OK else guard)
      else
        var logged := Log(s.books, PolicyUpsert(policy));
        var (b, code) := if policy.fenceOnChange then FencePools(logged, order, policy.id, policy.generation, now)
                         else (logged, OK);
        (s0.(names := s.names.(policies := s.names.policies[policy.name := policy.id]),
             policies := s.policies[policy.id := policy], books := b), code)
  }

  // ----- Pools -----

  /** The ancestry walk of register_pool: every ancestor exists and there are at most
      MAX_DEPTH of them. */
  function WalkAncestry(pools: Pools, cursor: u64, depth: nat): Code
    requires cursor in pools && depth <= MAX_DEPTH
    decreases MAX_DEPTH - depth
  {
    var parent := pools[cursor].descriptor.parent;
    if parent == 0 then OK
    else if depth + 1 > MAX_DEPTH then DEPTH_EXCEEDED
    else if parent !in pools then UNKNOWN_POOL
    else WalkAncestry(pools, parent, depth + 1)
  }

  function NewPool(s: Fabric, request: PoolDescriptor, now: u64): PoolDescriptor {
    request.(id := ChosenId(request.id, s.counters.nextPool), createdAt := now, generation := 1, retired := false)
  }

  ghost function PoolGuard(s: Fabric, d: PoolDescriptor): Code {
    if d.Validate() != OK then d.Validate()
    else if d.id in s.books.pools then DUPLICATE_POOL
    else if d.name in s.names.pools then DUPLICATE_NAME
    else if d.backend !in s.backends then UNKNOWN_BACKEND
    else if d.policy !in s.policies then UNKNOWN_POLICY
    else if d.parent != 0 && d.parent !in s.books.pools then UNKNOWN_POOL
    else if d.parent != 0 && WalkAncestry(s.books.pools, d.parent, 1) != OK then WalkAncestry(s.books.pools, d.parent, 1)
    else if d.resource !in s.capacities then UNKNOWN_RESOURCE
    else if Partitioned(s.books.pools, d.resource) + d.raw >= TWO64 then OVERFLOW
    else if Partitioned(s.books.pools, d.resource) + d.raw > s.capacities[d.resource].raw then CAPACITY_EXCEEDED
    else OK
  }

  /** register_pool. */
  ghost function RegisterPool(s: Fabric, request: PoolDescriptor, now: u64): (Fabric, Code) {
    var d := NewPool(s, request, now);
    if s.Refusing() then (s, SHUTTING_DOWN)
    else if |s.books.pools| >= MAX_POOLS then (s, EXHAUSTED)
    else if IdExhausted(d.id, s.counters.nextPool) then (s, OVERFLOW)
    else
      var s0 := s.(counters := s.counters.(nextPool := Advanced(d.id, s.counters.nextPool)));
      var guard := PoolGuard(s, d);
      if guard != OK then (s0, guard)
      else (s0.(names := s.names.(pools := s.names.pools[d.name := d.id]),
                books := Log(s.books, PoolUpsert(d, 1)).(pools := s.books.pools[d.id := EmptyEntry(d, 1)])), OK)
  }

  function QueuesOn(queues: map<u64, Queue>, p: u64): set<u64> { set q | q in queues && queues[q].pool == p }

  ghost function RemovalGuard(s: Fabric, p: u64, expected: u64): Code {
    if p == 0 then INVALID_ARGUMENT
    else if p !in s.books.pools then UNKNOWN_POOL
    else if Mismatch(expected, s.books.pools[p].descriptor.generation) then STALE_GENERATION
    else if exists c :: c in s.books.pools && s.books.pools[c].descriptor.parent == p then LIFECYCLE_VIOLATION
    else if exists q :: q in s.queues && s.queues[q].pool == p && !s.queues[q].retired then LIFECYCLE_VIOLATION
    else if s.books.pools[p].lentOut != 0 then LIFECYCLE_VIOLATION
    else if s.books.pools[p].Allocated() != 0 then LIFECYCLE_VIOLATION
    else OK
  }

  /** remove_pool: the pool goes together with its retired queues and its evidence. */
  ghost function RemovePool(s: Fabric, p: u64, expected: u64): (Fabric, Code) {
    var guard := RemovalGuard(s, p, expected);
    if guard != OK then (s, guard)
    else
      var gone := QueuesOn(s.queues, p);
      (s.(names := s.names.(pools := s.names.pools - {s.books.pools[p].descriptor.name},
                            queues := s.names.queues - (set q | q in gone :: s.queues[q].name)),
          books := Log(s.books, PoolRemoved(p)).(pools := s.books.pools - {p}),
          pressure := s.pressure - {p}, queues := s.queues - gone), OK)
  }

  // ----- Shrinking a pool -----

  /** Victim order of enforce_capacity: reclaimable before pinned, then priority, then id. */
  function ShrinkRank(allocations: map<u64, Allocation>): u64 -> Order.Rank {
    (id: u64) =>
      if id in allocations
      then Order.Rank(if allocations[id].reclaimClass.Reclaimable? then 0 else 1, allocations[id].priority, id)
      else Order.Rank(2, 0, id)
  }

  function ShrinkAllowance(e: PoolEntry, policies: map<u64, Policy>): u64 {
    SatAdd(e.Usable(), if e.descriptor.policy in policies then policies[e.descriptor.policy].Allowance() else 0)
  }

  /** A shrink loop: stops once usage fits, unless everything is to be fenced. */
  function ShrinkAll(b: Books, p: u64, ids: seq<u64>, allowance: u64, everything: bool, now: u64): (Books, Code)
    decreases |ids|
  {
    if ids == [] || p !in b.pools then (b, OK)
    else if !everything && b.pools[p].ownUsage <= allowance then (b, OK)
    else if ids[0] !in b.allocations || !b.allocations[ids[0]].Holds()
    then ShrinkAll(b, p, ids[1..], allowance, everything, now)
    else
      var (b', code) := FenceOne(b, ids[0], Fenced, now);
      if code != OK then (b', code) else ShrinkAll(b', p, ids[1..], allowance, everything, now)
  }

  /** Allocations elsewhere that draw on pool p. */
  function BorrowersOf(b: Books, p: u64): set<u64> {
    set id | id in b.allocations && b.allocations[id].Holds() && b.allocations[id].lender == p
             && b.allocations[id].borrow != 0
  }

  /** enforce_capacity. */
  ghost function EnforceCapacity(b: Books, p: u64, allowance: u64, everything: bool, now: u64): (Books, Code)
    requires p in b.pools
  {
    var victims := Order.Ranked(b.pools[p].members, ShrinkRank(b.allocations));
    var (b1, code) := ShrinkAll(b, p, victims, allowance, everything, now);
    if code != OK then (b1, code)
    else if p !in b1.pools || b1.pools[p].ownUsage <= allowance then (b1, OK)
    else ShrinkAll(b1, p, Order.Ascending(BorrowersOf(b1, p)), allowance, false, now)
  }

  function ResizeAdmission(s: Fabric, p: u64, raw: u64, protected: u64, expected: u64): Code {
    if s.Refusing() then SHUTTING_DOWN
    else if p == 0 then INVALID_ARGUMENT
    else if p !in s.books.pools then UNKNOWN_POOL
    else
      var e := s.books.pools[p];
      if Mismatch(expected, e.descriptor.generation) then STALE_GENERATION
      else if raw == 0 || raw > MAX_UNITS then INVALID_ARGUMENT
      else if protected >= raw then HEADROOM_VIOLATION
      else if e.descriptor.policy !in s.policies then UNKNOWN_POLICY
      else if raw - protected < s.policies[e.descriptor.policy].usableFloor then POLICY_FORBIDS
      else if e.descriptor.resource !in s.capacities then UNKNOWN_RESOURCE
      else OK
  }

  /** The pool with its new size and advanced generations, before anything is fenced. */
  function Resized(e: PoolEntry, raw: u64, protected: u64): PoolEntry {
    e.(descriptor := e.descriptor.(raw := raw, protected := protected,
                                   generation := Wrap(e.descriptor.generation + 1)),
       capacityGeneration := Wrap(e.capacityGeneration + 1))
  }

  ghost function ResizeGuard(s: Fabric, p: u64, raw: u64, protected: u64, expected: u64): Code {
    var admission := ResizeAdmission(s, p, raw, protected, expected);
    if admission != OK then admission
    else
      var e := s.books.pools[p];
      var others := SumOver(s.books.pools.Keys - {p}, RawShare(s.books.pools, e.descriptor.resource));
      if others + raw >= TWO64 then OVERFLOW
      else if others + raw > s.capacities[e.descriptor.resource].raw then CAPACITY_EXCEEDED
      else if AddOverflows(e.descriptor.generation, 1) || AddOverflows(e.capacityGeneration, 1) then OVERFLOW
      else OK
  }

  /** The books with the pool resized, journaled, and nothing fenced yet. */
  function ResizedBooks(b: Books, p: u64, raw: u64, protected: u64): Books
    requires p in b.pools
  {
    var e' := Resized(b.pools[p], raw, protected);
    Log(b.(pools := b.pools[p := e']), PoolUpsert(e'.descriptor, e'.capacityGeneration))
  }

  /** resize_pool. */
  ghost function ResizePool(s: Fabric, p: u64, raw: u64, protected: u64, expected: u64, now: u64): (Fabric, Code) {
    var guard := ResizeGuard(s, p, raw, protected, expected);
    if guard != OK then (s, guard)
    else
      var e := s.books.pools[p];
      var (b, code) := EnforceCapacity(ResizedBooks(s.books, p, raw, protected), p,
                                       ShrinkAllowance(Resized(e, raw, protected), s.policies),
                                       s.policies[e.descriptor.policy].fenceOnChange, now);
      if code != OK then (s.(books := b), code)
      else if p in b.pools && !PoolCloses(s.policies, b.pools[p])
      then (s.(books := b, shuttingDown := true), ACCOUNTING_VIOLATION)
      else (s.(books := b), OK)
  }

  // ----- Queues -----

  function NewQueue(s: Fabric, request: Queue, now: u64): Queue {
    request.(id := ChosenId(request.id, s.counters.nextQueue), registeredAt := now, demandUpdatedAt := now,
             generation := 1, retired := false)
  }

  function QueueGuard(s: Fabric, q: Queue): Code {
    if !ValidName(q.name) then NAME_TOO_LONG
    else if q.pool == 0 then INVALID_ARGUMENT
    else if q.demand > MAX_UNITS || q.maxCommitted > MAX_UNITS then OVERFLOW
    else if q.id in s.queues then DUPLICATE_QUEUE
    else if q.name in s.names.queues then DUPLICATE_NAME
    else if q.pool !in s.books.pools then UNKNOWN_POOL
    else OK
  }

  /** register_queue. */
  function RegisterQueue(s: Fabric, request: Queue, now: u64): (Fabric, Code) {
    var q := NewQueue(s, request, now);
    if s.Refusing() then (s, SHUTTING_DOWN)
    else if |s.queues| >= MAX_QUEUES then (s, EXHAUSTED)
    else if IdExhausted(q.id, s.counters.nextQueue) then (s, OVERFLOW)
    else
      var s0 := s.(counters := s.counters.(nextQueue := Advanced(q.id, s.counters.nextQueue)));
      var guard := QueueGuard(s, q);
      if guard != OK then (s0, guard)
      else (LogTo(s0, QueueUpsert(q)).(names := s.names.(queues := s.names.queues[q.name := q.id]),
                                       queues := s.queues[q.id := q]), OK)
  }

  function DemandGuard(s: Fabric, id: u64, demand: u64, expected: u64): Code {
    if id == 0 then INVALID_ARGUMENT
    else if id !in s.queues then UNKNOWN_QUEUE
    else if Mismatch(expected, s.queues[id].generation) then STALE_GENERATION
    else if s.queues[id].retired then WRONG_STATE
    else if demand > MAX_UNITS then OVERFLOW
    else OK
  }

  function WithQueue(s: Fabric, q: Queue): Fabric { LogTo(s, QueueUpsert(q)).(queues := s.queues[q.id := q]) }

  /** update_queue_demand. */
  function UpdateDemand(s: Fabric, id: u64, demand: u64, expected: u64, now: u64): (Fabric, Code) {
    var guard := DemandGuard(s, id, demand, expected);
    if guard != OK then (s, guard)
    else (WithQueue(s, s.queues[id].(demand := demand, demandUpdatedAt := now)), OK)
  }

  /** Allocations of a queue that hold units, found by scanning every record. */
  function HeldBy(b: Books, queue: u64): set<u64> {
    set id | id in b.allocations && b.allocations[id].queue == queue && b.allocations[id].Holds()
  }

  ghost function FenceQueue(s: Fabric, id: u64, now: u64): (Books, Code) {
    FenceAll(s.books, Order.Ascending(HeldBy(s.books, id)), AnyHolding, Fenced, now)
  }

  function RetireGuard(s: Fabric, id: u64, expected: u64): Code {
    if id == 0 then INVALID_ARGUMENT
    else if id !in s.queues then UNKNOWN_QUEUE
    else if Mismatch(expected, s.queues[id].generation) then STALE_GENERATION
    else if s.queues[id].retired then NO_CHANGE
    else if AddOverflows(s.queues[id].generation, 1) then OVERFLOW
    else OK
  }

  function RetiredQueue(q: Queue): Queue { q.(retired := true, generation := Wrap(q.generation + 1)) }

  /** retire_queue. */
  ghost function RetireQueue(s: Fabric, id: u64, expected: u64, now: u64): (Fabric, Code) {
    var guard := RetireGuard(s, id, expected);
    if guard != OK then (s, if guard == NO_CHANGE then OK else guard)
    else
      var s1 := WithQueue(s, RetiredQueue(s.queues[id]));
      if !s.config.autoFenceOnRetirement then (s1, OK)
      else
        var (b, code) := FenceQueue(s1, id, now);
        (s1.(books := b), code)
  }

  function RetargetGuard(s: Fabric, id: u64, target: u64, expected: u64): Code {
    if id == 0 then INVALID_ARGUMENT
    else if id !in s.queues then UNKNOWN_QUEUE
    else if Mismatch(expected, s.queues[id].generation) then STALE_GENERATION
    else if s.queues[id].retired then WRONG_STATE
    else if target !in s.books.pools then UNKNOWN_POOL
    else if s.queues[id].pool == target then NO_CHANGE
    else if AddOverflows(s.queues[id].generation, 1) then OVERFLOW
    else OK
  }

  function Retargeted(q: Queue, target: u64): Queue { q.(pool := target, generation := Wrap(q.generation + 1)) }

  /** retarget_queue: everything held under the old binding is fenced before the new one
      is published. */
  ghost function RetargetQueue(s: Fabric, id: u64, target: u64, expected: u64, now: u64): (Fabric, Code) {
    var guard := RetargetGuard(s, id, target, expected);
    if guard != OK then (s, if guard == NO_CHANGE then OK else guard)
    else
      var (b, code) := FenceQueue(s, id, now);
      if code != OK then (s.(books := b), code)
      else (WithQueue(s.(books := b), Retargeted(s.queues[id], target)), OK)
  }

  // ----- Evidence -----

  function Observed(s: Fabric, request: PressureSnapshot, now: u64): PressureSnapshot
    requires request.pool in s.books.pools
  {
    var e := s.books.pools[request.pool];
    request.(id := ChosenId(request.id, s.counters.nextSnapshot),
             observedAt := if request.observedAt == 0 then now else request.observedAt,
             ttl := if request.ttl == 0 && e.descriptor.policy in s.policies
                    then s.policies[e.descriptor.policy].pressure.evidenceTtl else request.ttl,
             boot := s.boot)
  }

  /** The checks made before an evidence id is taken. */
  function EvidenceAdmission(s: Fabric, request: PressureSnapshot): Code {
    if s.Refusing() then SHUTTING_DOWN
    else if request.pool == 0 then INVALID_ARGUMENT
    else if request.pool !in s.books.pools then UNKNOWN_POOL
    else if IdExhausted(ChosenId(request.id, s.counters.nextSnapshot), s.counters.nextSnapshot) then OVERFLOW
    else OK
  }

  function EvidenceGuard(s: Fabric, o: PressureSnapshot, now: u64): Code
    requires o.pool in s.books.pools
  {
    if o.epoch != s.epoch then STALE_EPOCH
    else if o.poolGeneration != s.books.pools[o.pool].descriptor.generation then STALE_GENERATION
    else if o.observedAt > now then INVALID_ARGUMENT
    else if o.demand > MAX_UNITS || o.committed > 2 * MAX_UNITS || o.reclaimable > MAX_UNITS then OVERFLOW
    else OK
  }

  function WithEvidence(s: Fabric, o: PressureSnapshot): Fabric {
    LogTo(s, PressureObserved(o)).(pressure := s.pressure[o.pool := o])
  }

  /** observe_pressure. */
  function ObservePressure(s: Fabric, request: PressureSnapshot, now: u64): (Fabric, Code) {
    var admission := EvidenceAdmission(s, request);
    if admission != OK then (s, admission)
    else
      var o := Observed(s, request, now);
      var guard := EvidenceGuard(s, o, now);
      var s0 := s.(counters := s.counters.(nextSnapshot := Advanced(o.id, s.counters.nextSnapshot)));
      (if guard == OK then WithEvidence(s0, o) else s0, guard)
  }
}
