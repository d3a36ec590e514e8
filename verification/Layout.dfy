/** When each operation on pools, queues, policies and capacities succeeds, and what the tables
    then hold: in terms of the request and the fields of the tables. */
module Layout {
  import opened Arithmetic
  import opened Sums
  import opened Pressure
  import opened Model
  import opened Grants
  import opened Ledger
  import opened Topology
  import opened Invariant
  import opened Transitions
  import opened TopologySteps
  import opened Handlers
  import opened Answers
  import opened Sweeps

  ghost predicate Closed(s: Fabric) { s.shuttingDown && s.config.refuseAfterShutdown }

  /** The id a registration takes: the one it names, or the next in line. */
  ghost function TakenId(requested: u64, next: u64): u64 { if requested != 0 then requested else next }

  /** The next id in line once an id is taken: beyond it, and never lower than before. */
  ghost function NextAfter(id: u64, next: u64): int { if id < next then next else id + 1 }

  lemma IdTaken(requested: u64, next: u64)
    ensures ChosenId(requested, next) == TakenId(requested, next)
    ensures IdExhausted(TakenId(requested, next), next) <==> TakenId(requested, next) == MAX_U64
    ensures TakenId(requested, next) != MAX_U64 ==>
              Advanced(TakenId(requested, next), next) == NextAfter(TakenId(requested, next), next)
  {
    AddOverflowIsExact(TakenId(requested, next), 1);
  }

  // ----- Publishing a policy -----

  /** What a policy must satisfy to be published. */
  ghost predicate Acceptable(p: Policy) {
    var t := p.pressure.thresholds;
    && p.id != 0 && (p.name == [] || ValidName(p.name))
    && 0 < t.elevated < t.high < t.critical <= 10000
    && (p.overcommit.mode.ForbidOvercommit? <==> p.overcommit.limit == 0) && p.overcommit.limit <= TWO60
    && (p.borrow.mode.ForbidBorrow? <==> p.borrow.limit == 0) && p.borrow.limit <= TWO60
    && p.maxSingleAllocation <= TWO60 && p.maxSingleRequest <= TWO60 && p.usableFloor <= TWO60
    && p.reclaim.maxUnits <= TWO60 && p.reclaim.reserve <= TWO60
    && p.softLimit <= 10000 && p.maxPending <= 0x10_0000
    && (p.pressure.refuseOnUnknown ==> !p.refuseAt.Clear?)
    && !p.reduceAt.Unknown? && !p.reduceAt.Stale?
  }

  lemma ValidIsAcceptable(p: Policy)
    ensures p.Valid() <==> Acceptable(p)
  {
  }

  /** The policy under the id is the one asked for, in its next generation; exactly the holders
      that it makes outdated are fenced if it says so; the other tables stay. */
  ghost predicate PolicyInstalled(s: Fabric, s': Fabric, request: Policy, id: u64, order: seq<u64>, now: u64) {
    && s' == s.(policies := s'.policies, names := s'.names, books := s'.books,
                counters := s.counters.(nextPolicy := s'.counters.nextPolicy))
    && s'.books.nextAllocation == s.books.nextAllocation
    && id in s'.policies && s'.policies == s.policies[id := s'.policies[id]]
    && var generation := s'.policies[id].generation;
       && generation == (if id in s.policies then s.policies[id].generation + 1 else 1)
       && s'.policies[id] == request.(id := id, generation := generation)
       && s'.names == s.names.(policies := s.names.policies[request.name := id])
       && s'.counters.nextPolicy == NextAfter(id, s.counters.nextPolicy)
       && RecordsStamped(s.books.allocations, s'.books.allocations,
                         if request.fenceOnChange then Outdated(s.books, order, id, generation) else {}, Fenced, now)
  }

  /** Everything is as it was, but for ids used up. */
  ghost predicate Unmoved(s: Fabric, s': Fabric) { s' == s.(counters := s'.counters) }

  ghost predicate NameTaken(s: Fabric, name: Name, id: u64) {
    name != [] && name in s.names.policies && s.names.policies[name] != id
  }

  /** The content is published already. */
  ghost predicate SameContent(s: Fabric, request: Policy, id: u64) {
    id in s.policies && request.(id := id, generation := s.policies[id].generation) == s.policies[id]
  }

  ghost predicate PublishAnswer(s: Fabric, s': Fabric, request: Policy, order: seq<u64>, code: Code, now: u64) {
    var id := TakenId(request.id, s.counters.nextPolicy);
    && (if Closed(s) || id == MAX_U64 then s' == s else s'.counters.nextPolicy == NextAfter(id, s.counters.nextPolicy))
    && if Closed(s) then code == SHUTTING_DOWN
       else if id == MAX_U64 then code == OVERFLOW
       else if NameTaken(s, request.name, id) then code == DUPLICATE_NAME && Unmoved(s, s')
       else if SameContent(s, request, id) then code == OK && Unmoved(s, s')
       else if id in s.policies && s.policies[id].generation == MAX_U64 then code == OVERFLOW && Unmoved(s, s')
       else if id !in s.policies && |s.policies| >= 4096 then code == EXHAUSTED && Unmoved(s, s')
       else if !Acceptable(request.(id := id)) then code == INVALID_ARGUMENT && Unmoved(s, s')
       else code == OK && PolicyInstalled(s, s', request, id, order, now)
  }

  lemma ProposedIs(s: Fabric, request: Policy)
    ensures var id := TakenId(request.id, s.counters.nextPolicy);
            && Proposed(s, request).id == id
            && (id in s.policies && s.policies[id].generation != MAX_U64 ==>
                  Proposed(s, request) == request.(id := id, generation := s.policies[id].generation + 1))
            && (id !in s.policies ==> Proposed(s, request) == request.(id := id, generation := 1))
            && (Proposed(s, request).Valid() <==> Acceptable(request.(id := id)))
            && Proposed(s, request).name == request.name && Proposed(s, request).fenceOnChange == request.fenceOnChange
            && (id in s.policies ==>
                  (Proposed(s, request).(generation := s.policies[id].generation) == s.policies[id] <==> SameContent(s, request, id)))
  {
    ValidIsAcceptable(Proposed(s, request));
    var id := TakenId(request.id, s.counters.nextPolicy);
    assert Acceptable(Proposed(s, request)) <==> Acceptable(request.(id := id));
  }

  lemma GuardOfPolicy(s: Fabric, request: Policy)
    ensures var id := TakenId(request.id, s.counters.nextPolicy);
            PolicyGuard(s, Proposed(s, request))
            == (if NameTaken(s, request.name, id) then DUPLICATE_NAME
                else if SameContent(s, request, id) then NO_CHANGE
                else if id in s.policies && s.policies[id].generation == MAX_U64 then OVERFLOW
                else if id !in s.policies && |s.policies| >= 4096 then EXHAUSTED
                else if !Acceptable(request.(id := id)) then INVALID_ARGUMENT
                else OK)
  {
    hide Proposed, Acceptable, Policy.Valid;
    ProposedIs(s, request);
    var id := TakenId(request.id, s.counters.nextPolicy);
    if id in s.policies { AddOverflowIsExact(s.policies[id].generation, 1); }
  }

  /** publish_policy, for every request and pool order: the policy installed is the one asked
      for, apart from its id and generation, or nothing moves, with the status of the first
      objection. */
  lemma PublishAnswers(s: Fabric, request: Policy, order: seq<u64>, now: u64)
    requires Inv(s)
    ensures PublishAnswer(s, PublishPolicy(s, request, order, now).0, request, order, PublishPolicy(s, request, order, now).1, now)
  {
    hide Inv, Proposed, PolicyGuard, Acceptable, SameContent, NameTaken, FencePools, RecordsStamped, Outdated;
    IdTaken(request.id, s.counters.nextPolicy);
    ProposedIs(s, request);
    GuardOfPolicy(s, request);
    if !s.Refusing() && PolicyGuard(s, Proposed(s, request)) == OK { InstalledBooks(s, Proposed(s, request), order, now); }
  }

  lemma InstalledBooks(s: Fabric, policy: Policy, order: seq<u64>, now: u64)
    requires Inv(s)
    ensures var logged := Log(s.books, PolicyUpsert(policy));
            var (b, code) := if policy.fenceOnChange then FencePools(logged, order, policy.id, policy.generation, now)
                             else (logged, OK);
            && code == OK && b.nextAllocation == s.books.nextAllocation
            && RecordsStamped(s.books.allocations, b.allocations,
                              if policy.fenceOnChange then Outdated(s.books, order, policy.id, policy.generation) else {}, Fenced, now)
  {
    hide BooksOk, FencePools, RecordsStamped, Outdated;
    var logged := Log(s.books, PolicyUpsert(policy));
    SameBooksKeep(s.books, logged, s.queues);
    NoneStamped(s.books.allocations, now);
    FencePoolsStamps(logged, s.queues, order, policy.id, policy.generation, now);
    OutdatedSame(s.books, logged, order, policy.id, policy.generation);
  }

  lemma OutdatedSame(b: Books, b': Books, order: seq<u64>, policy: u64, generation: u64)
    requires SameBooks(b, b')
    ensures Outdated(b', order, policy, generation) == Outdated(b, order, policy, generation)
  {
    forall id | id in b.allocations ensures Lags(b', order, policy, generation, id) <==> Lags(b, order, policy, generation, id) {}
  }

  // ----- Registering a pool -----

  /** Raw units of a resource held by its pools. */
  ghost function RawOn(pools: Pools, resource: u64): nat { SumOver(pools.Keys, RawIn(pools, resource)) }

  ghost function RawIn(pools: Pools, resource: u64): u64 -> nat {
    (p: u64) => if p in pools && pools[p].descriptor.resource == resource then pools[p].descriptor.raw else 0
  }

  lemma PartitionIsRaw(pools: Pools, resource: u64)
    ensures Partitioned(pools, resource) == RawOn(pools, resource)
  {
    SumCongruent(pools.Keys, RawShare(pools, resource), RawIn(pools, resource));
  }

  /** The parent, if there is one, exists and has at most 15 ancestors. */
  ghost predicate ParentFits(pools: Pools, parent: u64) {
    parent == 0 || (parent in pools && RootedWithin(pools, parent, 15))
  }

  /** A pool as requested may be registered under the id. */
  ghost predicate Registrable(s: Fabric, request: PoolDescriptor, id: u64) {
    && !Closed(s) && |s.books.pools| < 4096 && id != 0 && id != MAX_U64 && id !in s.books.pools
    && ValidName(request.name) && request.name !in s.names.pools
    && 0 < request.raw <= TWO60 && request.protected < request.raw
    && request.backend != 0 && request.backend in s.backends && request.policy != 0 && request.policy in s.policies
    && request.parent != id && ParentFits(s.books.pools, request.parent)
    && request.resource in s.capacities
    && RawOn(s.books.pools, request.resource) + request.raw <= s.capacities[request.resource].raw
  }

  /** What each status of a refused registration says. */
  ghost predicate PoolObjection(s: Fabric, request: PoolDescriptor, id: u64, code: Code) {
    || (code == SHUTTING_DOWN && Closed(s)) || (code == EXHAUSTED && |s.books.pools| >= 4096)
    || (code == INVALID_ARGUMENT && (id == 0 || request.raw == 0))
    || (code == DUPLICATE_POOL && id in s.books.pools)
    || (code == NAME_TOO_LONG && !ValidName(request.name)) || (code == DUPLICATE_NAME && request.name in s.names.pools)
    || (code == HEADROOM_VIOLATION && request.protected >= request.raw)
    || (code == UNKNOWN_BACKEND && (request.backend == 0 || request.backend !in s.backends))
    || (code == UNKNOWN_POLICY && (request.policy == 0 || request.policy !in s.policies))
    || (code == POOL_CYCLE && request.parent == id) || (code == UNKNOWN_POOL && request.parent !in s.books.pools)
    || (code == DEPTH_EXCEEDED && !ParentFits(s.books.pools, request.parent))
    || (code == UNKNOWN_RESOURCE && request.resource !in s.capacities)
    || (code == CAPACITY_EXCEEDED && request.resource in s.capacities
        && RawOn(s.books.pools, request.resource) + request.raw > s.capacities[request.resource].raw)
    || (code == OVERFLOW && (id == MAX_U64 || request.raw > TWO60
                             || RawOn(s.books.pools, request.resource) + request.raw > MAX_U64))
  }

  /** The entry holds nothing. */
  predicate HoldsNothing(e: PoolEntry) {
    && e.reserved == e.committed == e.pinned == e.reclaimable == e.ownUsage == e.borrowedIn == e.lentOut == 0
    && e.queueCommitted == map[] && e.queueReserved == map[] && e.members == {}
  }

  /** The entry has the request's fields, its first generations and nothing in it, and all of its
      raw units but the headroom are usable. */
  ghost predicate EntryAsRequested(e: PoolEntry, request: PoolDescriptor, id: u64, now: u64) {
    && e.descriptor == PoolDescriptor(id, 1, request.name, request.resource, request.backend, request.raw,
                                      request.protected, request.parent, request.policy, request.tenant,
                                      request.provenance, now, false)
    && e.capacityGeneration == 1 && HoldsNothing(e)
    && request.protected < request.raw && e.Usable() == e.Free() == request.raw - request.protected
  }

  /** Exactly one pool joins: as requested, under an id not taken before, in its first generation,
      empty. */
  ghost predicate PoolJoins(s: Fabric, s': Fabric, request: PoolDescriptor, id: u64, now: u64) {
    && id !in s.books.pools && id in s'.books.pools && s'.books.pools == s.books.pools[id := s'.books.pools[id]]
    && EntryAsRequested(s'.books.pools[id], request, id, now)
    && s' == s.(names := s.names.(pools := s.names.pools[request.name := id]), books := s'.books,
                counters := s.counters.(nextPool := s'.counters.nextPool))
    && s'.books.allocations == s.books.allocations && s'.books.nextAllocation == s.books.nextAllocation
    && s'.counters.nextPool == NextAfter(id, s.counters.nextPool)
  }

  /** What register_pool answers. */
  ghost predicate RegisterPoolAnswer(s: Fabric, s': Fabric, request: PoolDescriptor, code: Code, now: u64) {
    var id := TakenId(request.id, s.counters.nextPool);
    && (code == OK <==> Registrable(s, request, id))
    && (code == OK ==> PoolJoins(s, s', request, id, now))
    && (code != OK ==> Unmoved(s, s') && PoolObjection(s, request, id, code))
    && (if Closed(s) || |s.books.pools| >= 4096 || id == MAX_U64 then s' == s
        else s'.counters.nextPool == NextAfter(id, s.counters.nextPool))
  }

  lemma {:induction false} RootedWalks(pools: Pools, cursor: u64, depth: nat)
    requires depth <= MAX_DEPTH && RootedWithin(pools, cursor, MAX_DEPTH - depth)
    ensures WalkAncestry(pools, cursor, depth) == OK
    decreases MAX_DEPTH - depth
  {
    var parent := pools[cursor].descriptor.parent;
    if parent != 0 { RootedWalks(pools, parent, depth + 1); }
  }

  /** In a forest the walk fails for depth alone. */
  lemma {:induction false} WalkFails(pools: Pools, cursor: u64, depth: nat, n: nat)
    requires cursor in pools && depth <= MAX_DEPTH && RootedWithin(pools, cursor, n)
    ensures WalkAncestry(pools, cursor, depth) == OK || WalkAncestry(pools, cursor, depth) == DEPTH_EXCEEDED
    decreases MAX_DEPTH - depth
  {
    var parent := pools[cursor].descriptor.parent;
    if parent != 0 && depth + 1 <= MAX_DEPTH { WalkFails(pools, parent, depth + 1, n - 1); }
  }

  lemma WalkIffFits(pools: Pools, parent: u64)
    requires Forest(pools) && parent in pools
    ensures WalkAncestry(pools, parent, 1) == OK <==> RootedWithin(pools, parent, 15)
    ensures WalkAncestry(pools, parent, 1) != OK ==> WalkAncestry(pools, parent, 1) == DEPTH_EXCEEDED
  {
    hide WalkAncestry;
    if WalkAncestry(pools, parent, 1) == OK { WalkMeansRooted(pools, parent, 1); }
    if RootedWithin(pools, parent, 15) { RootedWalks(pools, parent, 1); }
    assert RootedWithin(pools, parent, MAX_DEPTH);
    WalkFails(pools, parent, 1, MAX_DEPTH);
  }

  /** The descriptor a registration stores. */
  ghost function Entry(request: PoolDescriptor, id: u64, now: u64): PoolDescriptor {
    PoolDescriptor(id, 1, request.name, request.resource, request.backend, request.raw, request.protected, request.parent,
                   request.policy, request.tenant, request.provenance, now, false)
  }

  lemma GuardOfPool(s: Fabric, request: PoolDescriptor, id: u64, now: u64)
    requires Forest(s.books.pools) && !Closed(s) && |s.books.pools| < 4096 && id != MAX_U64
    ensures PoolGuard(s, Entry(request, id, now)) == OK <==> Registrable(s, request, id)
    ensures PoolGuard(s, Entry(request, id, now)) != OK ==> PoolObjection(s, request, id, PoolGuard(s, Entry(request, id, now)))
  {
    hide Partitioned, RawOn, WalkAncestry, RootedWithin, ValidName;
    PartitionIsRaw(s.books.pools, request.resource);
    if request.parent in s.books.pools { WalkIffFits(s.books.pools, request.parent); }
  }

  /** register_pool, for every request: a pool that may be registered joins as requested, and
      nothing else happens; any other request leaves tables and books alone, with a status that
      says why. */
  lemma RegisterPoolAnswers(s: Fabric, request: PoolDescriptor, now: u64)
    requires Inv(s)
    ensures RegisterPoolAnswer(s, RegisterPool(s, request, now).0, request, RegisterPool(s, request, now).1, now)
  {
    hide PoolGuard, Registrable, PoolObjection, Inv, EmptyEntry, EntryAsRequested;
    var id := TakenId(request.id, s.counters.nextPool);
    InvForest(s);
    EntryEmpty(request, id, now);
    IdTaken(request.id, s.counters.nextPool);
    assert NewPool(s, request, now) == Entry(request, id, now);
    if Closed(s) || |s.books.pools| >= 4096 || id == MAX_U64 {
      NotRegistrable(s, request, id);
    } else {
      GuardOfPool(s, request, id, now);
      RegistrableFacts(s, request, id);
    }
  }

  lemma InvForest(s: Fabric)
    requires Inv(s)
    ensures Forest(s.books.pools) && PoolsOk(s.books.pools)
  {
  }

  lemma EntryEmpty(request: PoolDescriptor, id: u64, now: u64)
    ensures request.protected < request.raw ==> EntryAsRequested(EmptyEntry(Entry(request, id, now), 1), request, id, now)
  {
  }

  lemma NotRegistrable(s: Fabric, request: PoolDescriptor, id: u64)
    requires Closed(s) || |s.books.pools| >= 4096 || id == MAX_U64
    ensures !Registrable(s, request, id)
    ensures Closed(s) ==> PoolObjection(s, request, id, SHUTTING_DOWN)
    ensures |s.books.pools| >= 4096 ==> PoolObjection(s, request, id, EXHAUSTED)
    ensures id == MAX_U64 ==> PoolObjection(s, request, id, OVERFLOW)
  {
    hide RawOn, ParentFits, ValidName;
  }

  lemma RegistrableFacts(s: Fabric, request: PoolDescriptor, id: u64)
    ensures Registrable(s, request, id) ==> id !in s.books.pools && request.protected < request.raw
  {
    hide RawOn, ParentFits, ValidName;
  }

  // ----- Removing a pool -----

  /** What each status of a refused removal says. */
  ghost predicate RemovalObjection(s: Fabric, p: u64, expected: u64, code: Code) {
    || (code == INVALID_ARGUMENT && p == 0) || (code == UNKNOWN_POOL && p !in s.books.pools)
    || (code == STALE_GENERATION && p in s.books.pools && !Asserted(expected, s.books.pools[p].descriptor.generation))
    || (code == LIFECYCLE_VIOLATION && p in s.books.pools && Asserted(expected, s.books.pools[p].descriptor.generation)
        && (|| !Unused(s, p) || (exists c :: c in s.books.pools && s.books.pools[c].descriptor.parent == p)
            || (exists q :: q in s.queues && s.queues[q].pool == p && !s.queues[q].retired)))
  }

  /** A refused removal says why. */
  lemma RemovalExplained(s: Fabric, p: u64, expected: u64)
    requires Inv(s) && RemovePool(s, p, expected).1 != OK
    ensures RemovalObjection(s, p, expected, RemovePool(s, p, expected).1)
  {
    hide Inv, Unused, PoolEntry.Allocated;
    if p in s.books.pools { IdleIff(s, p); }
  }

  // ----- Publishing a capacity -----

  /** A capacity answer is published under the assertions made, if the pools on the resource fit
      it: exactly that entry of the table is replaced. */
  ghost predicate CapacityAnswer(s: Fabric, s': Fabric, answer: Capacity, expectedRaw: u64, expectedGeneration: u64,
                                 code: Code, now: u64) {
    var used := RawOn(s.books.pools, answer.resource);
    if Closed(s) then code == SHUTTING_DOWN && s' == s
    else if !(Asserted(expectedRaw, answer.raw) && Asserted(expectedGeneration, answer.generation)) then
      code == STALE_GENERATION && s' == s
    else if used > answer.raw then code == (if used > MAX_U64 then OVERFLOW else CAPACITY_EXCEEDED) && s' == s
    else
      && code == OK && SameBooks(s.books, s'.books) && s' == s.(capacities := s'.capacities, books := s'.books)
      && s'.capacities
         == s.capacities[answer.resource := Capacity(answer.resource, answer.backend, answer.generation, answer.raw, now)]
  }

  lemma CapacityAnswers(s: Fabric, answer: Capacity, expectedRaw: u64, expectedGeneration: u64, now: u64)
    ensures CapacityAnswer(s, PublishCapacity(s, answer, expectedRaw, expectedGeneration, now).0, answer, expectedRaw,
                           expectedGeneration, PublishCapacity(s, answer, expectedRaw, expectedGeneration, now).1, now)
  {
    hide Partitioned, RawOn;
    PartitionIsRaw(s.books.pools, answer.resource);
  }

  // ----- Registering a queue -----

  ghost predicate QueueFits(s: Fabric, request: Queue, id: u64) {
    && !Closed(s) && |s.queues| < 0x10_0000 && id != MAX_U64 && id !in s.queues
    && ValidName(request.name) && request.name !in s.names.queues
    && request.pool != 0 && request.pool in s.books.pools && request.demand <= TWO60 && request.maxCommitted <= TWO60
  }

  ghost predicate QueueObjection(s: Fabric, request: Queue, id: u64, code: Code) {
    || (code == SHUTTING_DOWN && Closed(s)) || (code == EXHAUSTED && |s.queues| >= 0x10_0000)
    || (code == NAME_TOO_LONG && !ValidName(request.name)) || (code == DUPLICATE_NAME && request.name in s.names.queues)
    || (code == INVALID_ARGUMENT && request.pool == 0) || (code == UNKNOWN_POOL && request.pool !in s.books.pools)
    || (code == DUPLICATE_QUEUE && id in s.queues)
    || (code == OVERFLOW && (id == MAX_U64 || request.demand > TWO60 || request.maxCommitted > TWO60))
  }

  /** The queue under the id is the request in its first generation. */
  ghost predicate QueueAsRequested(s: Fabric, s': Fabric, request: Queue, id: u64, now: u64) {
    && s' == s.(queues := s'.queues, names := s.names.(queues := s.names.queues[request.name := id]), books := s'.books,
                counters := s.counters.(nextQueue := s'.counters.nextQueue))
    && id in s'.queues
    && s'.queues[id] == Queue(id, 1, request.name, request.pool, request.tenant, request.trafficClass, request.demand,
                              request.weight, request.maxCommitted, now, now, false)
  }

  /** What register_queue answers. */
  ghost predicate RegisterQueueAnswer(s: Fabric, s': Fabric, request: Queue, code: Code, now: u64) {
    var id := TakenId(request.id, s.counters.nextQueue);
    && (code == OK <==> QueueFits(s, request, id))
    && (code == OK ==> QueueJoins(s, s', request, id) && QueueAsRequested(s, s', request, id, now))
    && (code != OK ==> Unmoved(s, s') && QueueObjection(s, request, id, code))
    && (if Closed(s) || |s.queues| >= 0x10_0000 || id == MAX_U64 then s' == s
        else s'.counters.nextQueue == NextAfter(id, s.counters.nextQueue))
  }

  /** register_queue, for every request: a queue that fits joins as requested; any other request
      leaves tables and books alone, with a status that says why. */
  lemma RegisterQueueAnswers(s: Fabric, request: Queue, now: u64)
    requires Inv(s)
    ensures RegisterQueueAnswer(s, RegisterQueue(s, request, now).0, request, RegisterQueue(s, request, now).1, now)
  {
    hide Inv, ValidName, QueueJoins;
    IdTaken(request.id, s.counters.nextQueue);
    RegisterQueueMeans(s, request, now);
  }

  // ----- Declaring a demand -----

  /** The demand of a live queue known under the asserted generation is set, up to the largest. */
  ghost predicate DemandAnswer(s: Fabric, id: u64, demand: u64, expected: u64, code: Code) {
    if id == 0 then code == INVALID_ARGUMENT
    else if id !in s.queues then code == UNKNOWN_QUEUE
    else
      && (code == OK <==> Asserted(expected, s.queues[id].generation) && !s.queues[id].retired && demand <= TWO60)
      && (!Asserted(expected, s.queues[id].generation) ==> code == STALE_GENERATION)
      && (Asserted(expected, s.queues[id].generation) && s.queues[id].retired ==> code == WRONG_STATE)
      && (Asserted(expected, s.queues[id].generation) && !s.queues[id].retired && demand > TWO60 ==> code == OVERFLOW)
  }

  lemma DemandAnswers(s: Fabric, id: u64, demand: u64, expected: u64, now: u64)
    ensures DemandAnswer(s, id, demand, expected, UpdateDemand(s, id, demand, expected, now).1)
  {
  }
}
