/** Operations on the topology, sweeps and reclamation keep the invariant. */
module TopologySteps {
  import opened Arithmetic
  import opened Sums
  import opened Model
  import opened Grants
  import opened Ledger
  import opened Topology
  import opened Reclaim
  import opened Aggregates
  import opened Invariant
  import opened Transitions
  import Order

  // ----- Sweeps and reclamation -----

  lemma FenceAllKeepsInv(s: Fabric, ids: seq<u64>, sel: Selector, to: AllocationState, now: u64)
    requires Inv(s) && !to.Holds()
    ensures var (b, code) := FenceAll(s.books, ids, sel, to, now);
            code == OK && Inv(s.(books := b)) && Shrunk(s.books, b)
  {
    FenceAllKeepsBooks(s.books, s.queues, ids, sel, to, now);
  }

  ghost function Victims(s: Fabric, q: ReclaimRequest, now: u64): seq<u64>
    requires PlanAdmission(s, q) == OK
  {
    BuildPlan(s.books, q.pool, s.policies[s.books.pools[q.pool].descriptor.policy], q.target, now).victims
  }

  /** The books reclamation leaves, before its closing check. */
  ghost function Revoked(s: Fabric, q: ReclaimRequest, now: u64): (Books, Code)
    requires PlanAdmission(s, q) == OK
  {
    FenceAll(s.books, Victims(s, q, now), AnyHolding, AllocationState.Reclaimed, now)
  }

  lemma ReclaimShape(s: Fabric, q: ReclaimRequest, now: u64)
    requires !s.Refusing() && PlanAdmission(s, q) == OK && Revoked(s, q, now).1 == OK
    ensures var (s', code) := ApplyReclaim(s, q, now);
            var b := Revoked(s, q, now).0;
            var closes := q.pool in b.pools ==> PoolCloses(s.policies, b.pools[q.pool]);
            && Still(s.(books := b), s') && code == (if closes then OK else ACCOUNTING_VIOLATION)
            && s'.shuttingDown == (s.shuttingDown || !closes)
  {
  }

  lemma RevokedKeepsInv(s: Fabric, q: ReclaimRequest, now: u64)
    requires Inv(s) && PlanAdmission(s, q) == OK
    ensures Revoked(s, q, now).1 == OK && Shrunk(s.books, Revoked(s, q, now).0)
    ensures Inv(s.(books := Revoked(s, q, now).0))
  {
    hide BuildPlan;
    FenceAllKeepsInv(s, Victims(s, q, now), AnyHolding, AllocationState.Reclaimed, now);
  }

  /** Its closing check fails, and forces a shutdown, exactly when the pool is still
      beyond its allowance. */
  lemma ReclaimCloses(s: Fabric, q: ReclaimRequest, now: u64)
    requires Inv(s) && !s.Refusing() && PlanAdmission(s, q) == OK
    ensures var b := Revoked(s, q, now).0;
            var (s', code) := ApplyReclaim(s, q, now);
            && q.pool in b.pools && b.pools[q.pool].descriptor.policy in s.policies
            && var within := WithinAllowance(b.pools[q.pool], s.policies[b.pools[q.pool].descriptor.policy]);
               code == (if within then OK else ACCOUNTING_VIOLATION) && s'.shuttingDown == (s.shuttingDown || !within)
  {
    RevokedKeepsInv(s, q, now);
    ClosureIff(s.(books := Revoked(s, q, now).0), q.pool);
    ReclaimShape(s, q, now);
  }

  // ----- Policies -----

  lemma {:induction false} FencePoolsKeepsBooks(b: Books, queues: map<u64, Queue>, order: seq<u64>, policy: u64,
                                                generation: u64, now: u64)
    requires BooksOk(b, queues)
    ensures FencePools(b, order, policy, generation, now).1 == OK
    ensures var b' := FencePools(b, order, policy, generation, now).0; BooksOk(b', queues) && Shrunk(b, b')
    decreases |order|
  {
    if order == [] {
      ShrunkRefl(b);
    } else if order[0] !in b.pools || b.pools[order[0]].descriptor.policy != policy {
      FencePoolsKeepsBooks(b, queues, order[1..], policy, generation, now);
    } else {
      var ids := Order.Ascending(b.pools[order[0]].members);
      var b1 := FenceAll(b, ids, OtherPolicyGeneration(generation), Fenced, now).0;
      FenceAllKeepsBooks(b, queues, ids, OtherPolicyGeneration(generation), Fenced, now);
      FencePoolsKeepsBooks(b1, queues, order[1..], policy, generation, now);
      ShrunkTransitive(b, b1, FencePools(b1, order[1..], policy, generation, now).0);
    }
  }

  /** A publication is refused, changes nothing, or installs a valid policy, fencing when
      the policy says so. */
  ghost predicate Published(s: Fabric, s': Fabric, policy: Policy, order: seq<u64>, now: u64) {
    && policy.Valid() && (policy.id in s.policies || |s.policies| < MAX_POLICIES)
    && policy.generation == (if policy.id in s.policies then s.policies[policy.id].generation + 1 else 1)
    && s'.config == s.config && s'.epoch == s.epoch && s'.boot == s.boot
    && s'.queues == s.queues && s'.capacities == s.capacities && s'.shuttingDown == s.shuttingDown
    && s'.policies == s.policies[policy.id := policy]
    && var logged := Log(s.books, PolicyUpsert(policy));
       s'.books == if policy.fenceOnChange then FencePools(logged, order, policy.id, policy.generation, now).0 else logged
  }

  lemma PublishShape(s: Fabric, request: Policy, order: seq<u64>, now: u64)
    ensures var s' := PublishPolicy(s, request, order, now).0;
            || (Still(s, s') && s'.shuttingDown == s.shuttingDown)
            || Published(s, s', Proposed(s, request), order, now)
  {
    var s', policy := PublishPolicy(s, request, order, now).0, Proposed(s, request);
    if policy.id in s.policies { AddOverflowIsExact(s.policies[policy.id].generation, 1); }
    hide Policy.Valid, FencePools;
  }

  lemma PublishedBooks(s: Fabric, s': Fabric, policy: Policy, order: seq<u64>, now: u64)
    requires BooksOk(s.books, s.queues) && Published(s, s', policy, order, now)
    ensures BooksOk(s'.books, s.queues) && Shrunk(s.books, s'.books)
  {
    var logged := Log(s.books, PolicyUpsert(policy));
    SameBooksKeep(s.books, logged, s.queues);
    ShrunkRefl(s.books);
    if policy.fenceOnChange {
      FencePoolsKeepsBooks(logged, s.queues, order, policy.id, policy.generation, now);
      ShrunkTransitive(s.books, logged, s'.books);
    }
  }

  lemma PublishedKeepsInv(s: Fabric, s': Fabric, policy: Policy, order: seq<u64>, now: u64)
    requires Inv(s) && Published(s, s', policy, order, now)
    ensures Inv(s') && Shrunk(s.books, s'.books)
  {
    PublishedBooks(s, s', policy, order, now);
  }

  // ----- Capacity, backends and evidence -----

  /** Neither the books, apart from the journal, nor policies and queues change. */
  ghost predicate Aside(s: Fabric, s': Fabric) {
    SameBooks(s.books, s'.books) && s'.policies == s.policies && s'.queues == s.queues && s'.config == s.config
    && s'.epoch == s.epoch && s'.boot == s.boot && s'.shuttingDown == s.shuttingDown
  }

  lemma EvidenceAside(s: Fabric, o: PressureSnapshot)
    ensures Aside(s, WithEvidence(s, o))
  {
  }

  lemma PressureAside(s: Fabric, request: PressureSnapshot, now: u64)
    ensures Aside(s, ObservePressure(s, request, now).0)
  {
    if EvidenceAdmission(s, request) == OK {
      var o := Observed(s, request, now);
      EvidenceAside(s.(counters := s.counters.(nextSnapshot := Advanced(o.id, s.counters.nextSnapshot))), o);
    }
  }

  // ----- Registering and removing pools -----

  lemma NobodyCharges(records: Records, pools: Pools, queues: map<u64, Queue>, p: u64, a: Aggregate)
    requires RecordsOk(records, pools, queues) && p !in pools
    ensures Total(records, a, p) == 0
  {
    forall id | id in records ensures Share(records, a, p)(id) == 0 {
      assert records[id].Holds() ==> HolderOk(records[id], pools, queues);
    }
    SumZero(records.Keys, Share(records, a, p));
  }

  /** The ancestry walk succeeds only below the depth limit. */
  lemma {:induction false} WalkMeansRooted(pools: Pools, cursor: u64, depth: nat)
    requires cursor in pools && depth <= MAX_DEPTH && WalkAncestry(pools, cursor, depth) == OK
    ensures RootedWithin(pools, cursor, MAX_DEPTH - depth)
    decreases MAX_DEPTH - depth
  {
    var parent := pools[cursor].descriptor.parent;
    if parent != 0 { WalkMeansRooted(pools, parent, depth + 1); }
  }

  lemma {:induction false} RootedWhenAdded(pools: Pools, e: PoolEntry, k: u64, p: u64, n: nat)
    requires k !in pools && RootedWithin(pools, p, n)
    ensures RootedWithin(pools[k := e], p, n)
    decreases n
  {
    if pools[p].descriptor.parent != 0 { RootedWhenAdded(pools, e, k, pools[p].descriptor.parent, n - 1); }
  }

  lemma ForestGrows(pools: Pools, k: u64, e: PoolEntry)
    requires Forest(pools) && k !in pools
    requires e.descriptor.parent != 0 ==> e.descriptor.parent in pools && WalkAncestry(pools, e.descriptor.parent, 1) == OK
    ensures Forest(pools[k := e])
  {
    var pools' := pools[k := e];
    forall p | p in pools' ensures RootedWithin(pools', p, MAX_DEPTH) {
      if p != k {
        RootedWhenAdded(pools, e, k, p, MAX_DEPTH);
      } else if e.descriptor.parent != 0 {
        WalkMeansRooted(pools, e.descriptor.parent, 1);
        RootedWhenAdded(pools, e, k, e.descriptor.parent, MAX_DEPTH - 1);
      }
    }
  }

  lemma AgreesGrows(pools: Pools, records: Records, queues: map<u64, Queue>, d: PoolDescriptor, g: u64)
    requires Agrees(pools, records) && RecordsOk(records, pools, queues) && d.id !in pools
    ensures Agrees(pools[d.id := EmptyEntry(d, g)], records)
  {
    var pools' := pools[d.id := EmptyEntry(d, g)];
    forall p, a | p in pools' ensures Field(pools'[p], a) == Total(records, a, p) {
      if p == d.id { NobodyCharges(records, pools, queues, p, a); }
    }
  }

  lemma PoolAddedBooks(b: Books, queues: map<u64, Queue>, d: PoolDescriptor)
    requires BooksOk(b, queues) && d.id !in b.pools && d.Validate() == OK
    requires d.parent != 0 ==> d.parent in b.pools && WalkAncestry(b.pools, d.parent, 1) == OK
    ensures BooksOk(Log(b, PoolUpsert(d, 1)).(pools := b.pools[d.id := EmptyEntry(d, 1)]), queues)
  {
    hide RootedWithin, WalkAncestry;
    ForestGrows(b.pools, d.id, EmptyEntry(d, 1));
    AgreesGrows(b.pools, b.allocations, queues, d, 1);
  }

  /** A registration is refused, or adds one empty pool whose ancestry is in order and
      whose raw units fit the published capacity of its resource. */
  ghost predicate PoolAdded(s: Fabric, s': Fabric, d: PoolDescriptor) {
    && SameTables(s, s') && s'.shuttingDown == s.shuttingDown
    && PoolGuard(s, d) == OK && |s.books.pools| < MAX_POOLS
    && s'.books == Log(s.books, PoolUpsert(d, 1)).(pools := s.books.pools[d.id := EmptyEntry(d, 1)])
  }

  lemma RegisterPoolShape(s: Fabric, request: PoolDescriptor, now: u64)
    ensures var s' := RegisterPool(s, request, now).0;
            || (Still(s, s') && s'.shuttingDown == s.shuttingDown)
            || PoolAdded(s, s', NewPool(s, request, now))
  {
    hide PoolGuard;
  }

  lemma PoolGuardFacts(s: Fabric, d: PoolDescriptor)
    requires PoolGuard(s, d) == OK
    ensures d.Validate() == OK && d.id !in s.books.pools && d.policy in s.policies && d.resource in s.capacities
    ensures d.parent != 0 ==> d.parent in s.books.pools && WalkAncestry(s.books.pools, d.parent, 1) == OK
    ensures Partitioned(s.books.pools, d.resource) + d.raw <= s.capacities[d.resource].raw
  {
    hide WalkAncestry, Partitioned;
  }

  lemma TablesGrow(pools: Pools, policies: map<u64, Policy>, d: PoolDescriptor)
    requires Governed(pools, policies) && d.policy in policies
    ensures Governed(pools[d.id := EmptyEntry(d, 1)], policies)
  {
  }

  lemma PoolAddedKeepsInv(s: Fabric, s': Fabric, d: PoolDescriptor)
    requires Inv(s) && PoolAdded(s, s', d)
    ensures Inv(s')
  {
    hide BooksOk, PoolGuard, WalkAncestry, Governed;
    PoolGuardFacts(s, d);
    TablesGrow(s.books.pools, s.policies, d);
    PoolAddedBooks(s.books, s.queues, d);
  }

  /** With nothing allocated and nothing lent, no record charges the pool at all. */
  lemma IdlePool(pools: Pools, records: Records, p: u64, id: u64)
    requires Agrees(pools, records) && InRange(pools) && p in pools && pools[p].lentOut == 0 && pools[p].Allocated() == 0
    requires id in records && records[id].Holds() && records[id].units > 0
    ensures records[id].pool != p && (records[id].Borrowed() != 0 && records[id].lender != 0 ==> records[id].lender != p)
  {
    EntryFacts(pools, records, p);
    TotalCovers(records, id, InReserved, p);
    TotalCovers(records, id, InCommitted, p);
    TotalCovers(records, id, InLent, p);
    assert Field(pools[p], InReserved) == Total(records, InReserved, p);
    assert Field(pools[p], InCommitted) == Total(records, InCommitted, p);
    assert Field(pools[p], InLent) == Total(records, InLent, p);
  }

  lemma RecordsOkWithout(records: Records, pools: Pools, queues: map<u64, Queue>, p: u64)
    requires RecordsOk(records, pools, queues) && Agrees(pools, records) && InRange(pools)
    requires p in pools && pools[p].lentOut == 0 && pools[p].Allocated() == 0
    ensures RecordsOk(records, pools - {p}, queues - QueuesOn(queues, p))
  {
    hide Agrees;
    forall id | id in records && records[id].Holds() ensures HolderOk(records[id], pools - {p}, queues - QueuesOn(queues, p)) {
      assert HolderOk(records[id], pools, queues);
      IdlePool(pools, records, p, id);
    }
  }

  lemma {:induction false} RootedWithout(pools: Pools, k: u64, p: u64, n: nat)
    requires RootedWithin(pools, p, n) && p != k
    requires forall c :: c in pools ==> pools[c].descriptor.parent != k
    ensures RootedWithin(pools - {k}, p, n)
    decreases n
  {
    if pools[p].descriptor.parent != 0 { RootedWithout(pools, k, pools[p].descriptor.parent, n - 1); }
  }

  lemma ForestShrinks(pools: Pools, k: u64)
    requires Forest(pools) && forall c :: c in pools ==> pools[c].descriptor.parent != k
    ensures Forest(pools - {k})
  {
    forall p | p in pools - {k} ensures RootedWithin(pools - {k}, p, MAX_DEPTH) {
      assert RootedWithin(pools, p, MAX_DEPTH);
      RootedWithout(pools, k, p, MAX_DEPTH);
    }
  }

  ghost predicate PoolDropped(s: Fabric, s': Fabric, p: u64) {
    && s'.config == s.config && s'.epoch == s.epoch && s'.boot == s.boot
    && s'.policies == s.policies && s'.capacities == s.capacities && s'.shuttingDown == s.shuttingDown
    && RemovalGuard(s, p, 0) == OK
    && s'.books == Log(s.books, PoolRemoved(p)).(pools := s.books.pools - {p})
    && s'.queues == s.queues - QueuesOn(s.queues, p)
  }

  lemma RemovePoolShape(s: Fabric, p: u64, expected: u64)
    ensures var s' := RemovePool(s, p, expected).0;
            s' == s || PoolDropped(s, s', p)
  {
  }

  lemma RemovalGuardFacts(s: Fabric, p: u64, expected: u64)
    requires RemovalGuard(s, p, expected) == OK
    ensures p in s.books.pools && s.books.pools[p].lentOut == 0 && s.books.pools[p].Allocated() == 0
    ensures forall c :: c in s.books.pools ==> s.books.pools[c].descriptor.parent != p
    ensures forall q :: q in s.queues && s.queues[q].pool == p ==> s.queues[q].retired
  {
  }

  lemma PoolDroppedBooks(b: Books, b': Books, queues: map<u64, Queue>, p: u64)
    requires BooksOk(b, queues) && p in b.pools && b.pools[p].lentOut == 0 && b.pools[p].Allocated() == 0
    requires forall c :: c in b.pools ==> b.pools[c].descriptor.parent != p
    requires b'.pools == b.pools - {p} && b'.allocations == b.allocations && b'.nextAllocation == b.nextAllocation
    ensures BooksOk(b', queues - QueuesOn(queues, p))
  {
    hide RootedWithin;
    RecordsOkWithout(b.allocations, b.pools, queues, p);
    ForestShrinks(b.pools, p);
  }

  lemma PoolDroppedKeepsInv(s: Fabric, s': Fabric, p: u64)
    requires Inv(s) && PoolDropped(s, s', p)
    ensures Inv(s')
  {
    hide BooksOk, RemovalGuard;
    RemovalGuardFacts(s, p, 0);
    PoolDroppedBooks(s.books, s'.books, s.queues, p);
  }

  // ----- Resizing -----

  lemma {:induction false} ShrinkAllKeepsBooks(b: Books, queues: map<u64, Queue>, p: u64, ids: seq<u64>,
                                               allowance: u64, everything: bool, now: u64)
    requires BooksOk(b, queues)
    ensures var (b', code) := ShrinkAll(b, p, ids, allowance, everything, now);
            code == OK && BooksOk(b', queues) && Shrunk(b, b')
    decreases |ids|
  {
    hide BooksOk, Shrunk;
    if ids == [] || p !in b.pools || (!everything && b.pools[p].ownUsage <= allowance) {
      ShrunkRefl(b);
    } else if ids[0] !in b.allocations || !b.allocations[ids[0]].Holds() {
      ShrinkAllKeepsBooks(b, queues, p, ids[1..], allowance, everything, now);
    } else {
      var b1 := FenceOne(b, ids[0], Fenced, now).0;
      FenceOneKeepsBooks(b, queues, ids[0], Fenced, now);
      ShrinkAllKeepsBooks(b1, queues, p, ids[1..], allowance, everything, now);
      ShrunkTransitive(b, b1, ShrinkAll(b1, p, ids[1..], allowance, everything, now).0);
    }
  }

  lemma EnforceKeepsBooks(b: Books, queues: map<u64, Queue>, p: u64, allowance: u64, everything: bool, now: u64)
    requires BooksOk(b, queues) && p in b.pools
    ensures var (b', code) := EnforceCapacity(b, p, allowance, everything, now);
            code == OK && BooksOk(b', queues) && Shrunk(b, b')
  {
    hide BooksOk, Shrunk, ShrinkAll;
    var victims := Order.Ranked(b.pools[p].members, ShrinkRank(b.allocations));
    ShrinkAllKeepsBooks(b, queues, p, victims, allowance, everything, now);
    var b1 := ShrinkAll(b, p, victims, allowance, everything, now).0;
    var borrowers := Order.Ascending(BorrowersOf(b1, p));
    ShrinkAllKeepsBooks(b1, queues, p, borrowers, allowance, false, now);
    ShrunkTransitive(b, b1, ShrinkAll(b1, p, borrowers, allowance, false, now).0);
  }

  lemma {:induction false} RootedWhenResized(pools: Pools, p: u64, e: PoolEntry, k: u64, n: nat)
    requires p in pools && e.descriptor.parent == pools[p].descriptor.parent && RootedWithin(pools, k, n)
    ensures RootedWithin(pools[p := e], k, n)
    decreases n
  {
    if pools[k].descriptor.parent != 0 { RootedWhenResized(pools, p, e, pools[k].descriptor.parent, n - 1); }
  }

  lemma ForestResized(pools: Pools, p: u64, e: PoolEntry)
    requires Forest(pools) && p in pools && e.descriptor.parent == pools[p].descriptor.parent
    ensures Forest(pools[p := e])
  {
    var pools' := pools[p := e];
    forall k | k in pools' ensures RootedWithin(pools', k, MAX_DEPTH) {
      assert RootedWithin(pools, k, MAX_DEPTH);
      RootedWhenResized(pools, p, e, k, MAX_DEPTH);
    }
  }

  lemma AgreesResized(pools: Pools, records: Records, p: u64, raw: u64, protected: u64)
    requires Agrees(pools, records) && Indexed(pools, records) && InRange(pools) && p in pools
    ensures var pools' := pools[p := Resized(pools[p], raw, protected)];
            Agrees(pools', records) && Indexed(pools', records) && InRange(pools')
  {
    var pools' := pools[p := Resized(pools[p], raw, protected)];
    forall k, a | k in pools' ensures Field(pools'[k], a) == Total(records, a, k) {
      assert Field(pools'[k], a) == Field(pools[k], a);
    }
  }

  lemma ResizedKeepsBooks(b: Books, queues: map<u64, Queue>, p: u64, raw: u64, protected: u64)
    requires BooksOk(b, queues) && p in b.pools && 0 < raw <= MAX_UNITS && protected < raw
    ensures BooksOk(ResizedBooks(b, p, raw, protected), queues)
  {
    hide RootedWithin, Agrees, Indexed;
    AgreesResized(b.pools, b.allocations, p, raw, protected);
    ForestResized(b.pools, p, Resized(b.pools[p], raw, protected));
  }

  lemma ResizeGuardFacts(s: Fabric, p: u64, raw: u64, protected: u64, expected: u64)
    requires ResizeGuard(s, p, raw, protected, expected) == OK
    ensures p in s.books.pools && 0 < raw <= MAX_UNITS && protected < raw
    ensures s.books.pools[p].descriptor.policy in s.policies && s.books.pools[p].descriptor.resource in s.capacities
    ensures var e := s.books.pools[p];
            && e.descriptor.generation + 1 < TWO64 && e.capacityGeneration + 1 < TWO64
            && SumOver(s.books.pools.Keys - {p}, RawShare(s.books.pools, e.descriptor.resource)) + raw
               <= s.capacities[e.descriptor.resource].raw
  {
    AddOverflowIsExact(s.books.pools[p].descriptor.generation, 1);
    AddOverflowIsExact(s.books.pools[p].capacityGeneration, 1);
  }

  /** The books a resize leaves, before its closing check. */
  ghost function Enforced(s: Fabric, p: u64, raw: u64, protected: u64, now: u64): (Books, Code)
    requires p in s.books.pools && s.books.pools[p].descriptor.policy in s.policies
  {
    var e := s.books.pools[p];
    EnforceCapacity(ResizedBooks(s.books, p, raw, protected), p, ShrinkAllowance(Resized(e, raw, protected), s.policies),
                    s.policies[e.descriptor.policy].fenceOnChange, now)
  }

  lemma ResizeShape(s: Fabric, p: u64, raw: u64, protected: u64, expected: u64, now: u64)
    requires ResizeGuard(s, p, raw, protected, expected) == OK
    requires p in s.books.pools && s.books.pools[p].descriptor.policy in s.policies
    requires Enforced(s, p, raw, protected, now).1 == OK && p in Enforced(s, p, raw, protected, now).0.pools
    ensures var (s', code) := ResizePool(s, p, raw, protected, expected, now);
            var b := Enforced(s, p, raw, protected, now).0;
            var closes := PoolCloses(s.policies, b.pools[p]);
            && Still(s.(books := b), s') && code == (if closes then OK else ACCOUNTING_VIOLATION)
            && s'.shuttingDown == (s.shuttingDown || !closes)
  {
    hide ResizeGuard, EnforceCapacity, PoolCloses;
  }

  lemma EnforcedKeepsInv(s: Fabric, p: u64, raw: u64, protected: u64, now: u64)
    requires Inv(s) && p in s.books.pools && 0 < raw <= MAX_UNITS && protected < raw
    ensures var (b, code) := Enforced(s, p, raw, protected, now);
            code == OK && Inv(s.(books := b)) && Shrunk(ResizedBooks(s.books, p, raw, protected), b)
  {
    hide BooksOk, EnforceCapacity, ShrinkAllowance;
    var e := s.books.pools[p];
    var b1, b := ResizedBooks(s.books, p, raw, protected), Enforced(s, p, raw, protected, now).0;
    ResizedKeepsBooks(s.books, s.queues, p, raw, protected);
    EnforceKeepsBooks(b1, s.queues, p, ShrinkAllowance(Resized(e, raw, protected), s.policies),
                      s.policies[e.descriptor.policy].fenceOnChange, now);
  }

  // ----- Queues -----

  lemma QueueAddedKeepsInv(s: Fabric, s': Fabric, q: Queue)
    requires Inv(s) && q.id !in s.queues && |q.name| <= MAX_NAME
    requires SameBooks(s.books, s'.books) && s'.policies == s.policies && s'.queues == s.queues[q.id := q]
    ensures Inv(s')
  {
    hide Agrees, RootedWithin, Indexed;
    var records := s.books.allocations;
    forall id | id in records && records[id].Holds() ensures HolderOk(records[id], s.books.pools, s'.queues) {
      assert HolderOk(records[id], s.books.pools, s.queues);
    }
  }

  lemma QueueKeptKeepsInv(s: Fabric, s': Fabric, q: Queue)
    requires Inv(s) && q.id in s.queues && q.pool == s.queues[q.id].pool && q.name == s.queues[q.id].name
    requires SameBooks(s.books, s'.books) && s'.policies == s.policies && s'.queues == s.queues[q.id := q]
    ensures Inv(s')
  {
    hide Agrees, RootedWithin, Indexed;
    var records := s.books.allocations;
    forall id | id in records && records[id].Holds() ensures HolderOk(records[id], s.books.pools, s'.queues) {
      assert HolderOk(records[id], s.books.pools, s.queues);
    }
  }

  lemma QueueMovedKeepsInv(s: Fabric, s': Fabric, q: Queue)
    requires Inv(s) && q.id in s.queues && q.name == s.queues[q.id].name
    requires forall id :: id in s.books.allocations && s.books.allocations[id].Holds() ==> s.books.allocations[id].queue != q.id
    requires SameBooks(s.books, s'.books) && s'.policies == s.policies && s'.queues == s.queues[q.id := q]
    ensures Inv(s')
  {
    hide Agrees, RootedWithin, Indexed;
    var records := s.books.allocations;
    forall id | id in records && records[id].Holds() ensures HolderOk(records[id], s.books.pools, s'.queues) {
      assert HolderOk(records[id], s.books.pools, s.queues);
    }
  }

  /** A registration is refused, or adds one queue in a registered pool. */
  ghost predicate QueueWritten(s: Fabric, s': Fabric, q: Queue) {
    && s'.config == s.config && s'.epoch == s.epoch && s'.boot == s.boot && s'.policies == s.policies
    && s'.capacities == s.capacities && s'.shuttingDown == s.shuttingDown
    && s'.books == Log(s.books, QueueUpsert(q)) && s'.queues == s.queues[q.id := q]
  }

  lemma RegisterQueueShape(s: Fabric, request: Queue, now: u64)
    ensures var s', q := RegisterQueue(s, request, now).0, NewQueue(s, request, now);
            || (Still(s, s') && s'.shuttingDown == s.shuttingDown)
            || (&& q.id !in s.queues && q.pool in s.books.pools && |q.name| <= MAX_NAME && |s.queues| < MAX_QUEUES
                && QueueWritten(s, s', q))
  {
  }

  lemma UpdateDemandShape(s: Fabric, id: u64, demand: u64, expected: u64, now: u64)
    requires QueuesOk(s.queues)
    ensures var s' := UpdateDemand(s, id, demand, expected, now).0;
            || s' == s
            || (id in s.queues && QueueWritten(s, s', s.queues[id].(demand := demand, demandUpdatedAt := now)))
  {
  }

  /** A retirement is refused, changes nothing, or marks the queue; with automatic fencing
      everything the queue holds is then fenced. */
  lemma RetireShape(s: Fabric, id: u64, expected: u64, now: u64)
    requires QueuesOk(s.queues)
    ensures var (s', code) := RetireQueue(s, id, expected, now);
            || s' == s
            || (&& RetireGuard(s, id, expected) == OK
                && var s1 := WithQueue(s, RetiredQueue(s.queues[id]));
                   && QueueWritten(s, s1, RetiredQueue(s.queues[id]))
                   && s' == s1.(books := if s.config.autoFenceOnRetirement then FenceQueue(s1, id, now).0 else s1.books))
  {
    hide FenceQueue;
  }

  // ----- A fencing loop leaves nothing it selects -----

  lemma {:induction false} FenceAllClears(b: Books, queues: map<u64, Queue>, ids: seq<u64>, sel: Selector,
                                          to: AllocationState, now: u64, id: u64)
    requires BooksOk(b, queues) && !to.Holds() && id in ids && id in b.allocations
    ensures var b' := FenceAll(b, ids, sel, to, now).0;
            id in b'.allocations && !Selects(b'.allocations[id], sel)
    decreases |ids|
  {
    hide BooksOk, IndexShrunk, FieldsShrunk;
    FenceAllKeepsBooks(b, queues, ids, sel, to, now);
    if !(ids[0] in b.allocations && Selects(b.allocations[ids[0]], sel)) {
      if id == ids[0] {
        FenceAllKeepsBooks(b, queues, ids[1..], sel, to, now);
      } else {
        FenceAllClears(b, queues, ids[1..], sel, to, now, id);
      }
    } else {
      HoldsWhenSelected(b.allocations[ids[0]], sel);
      FenceOneKeepsBooks(b, queues, ids[0], to, now);
      var b1 := FenceOne(b, ids[0], to, now).0;
      if id == ids[0] {
        FenceOneLetsGo(b, queues, id, to, now);
        FenceAllKeepsBooks(b1, queues, ids[1..], sel, to, now);
      } else {
        FenceAllClears(b1, queues, ids[1..], sel, to, now, id);
      }
    }
  }

  lemma FenceOneLetsGo(b: Books, queues: map<u64, Queue>, id: u64, to: AllocationState, now: u64)
    requires BooksOk(b, queues) && id in b.allocations && b.allocations[id].Holds() && !to.Holds()
    ensures id in FenceOne(b, id, to, now).0.allocations
    ensures !FenceOne(b, id, to, now).0.allocations[id].Holds()
    ensures forall sel :: !Selects(FenceOne(b, id, to, now).0.allocations[id], sel)
  {
    FenceOneShape(b, queues, id, to, now);
  }

  /** Once a queue is fenced no record of it holds units. */
  lemma FenceQueueEmpties(s: Fabric, id: u64, now: u64)
    requires Inv(s)
    ensures var (b, code) := FenceQueue(s, id, now);
            && code == OK && Inv(s.(books := b)) && Shrunk(s.books, b)
            && forall k :: k in b.allocations && b.allocations[k].Holds() ==> b.allocations[k].queue != id
  {
    hide BooksOk, FieldsShrunk, IndexShrunk;
    var ids := Order.Ascending(HeldBy(s.books, id));
    var b := FenceQueue(s, id, now).0;
    FenceAllKeepsInv(s, ids, AnyHolding, Fenced, now);
    forall k | k in b.allocations && b.allocations[k].queue == id ensures !b.allocations[k].Holds() {
      assert LetGo(s.books.allocations[k], b.allocations[k]);
      if s.books.allocations[k].Holds() {
        assert k in Order.Elements(ids);
        FenceAllClears(s.books, s.queues, ids, AnyHolding, Fenced, now, k);
      }
    }
  }

  lemma RetargetShape(s: Fabric, id: u64, target: u64, expected: u64, now: u64)
    requires QueuesOk(s.queues) && FenceQueue(s, id, now).1 == OK
    ensures var s' := RetargetQueue(s, id, target, expected, now).0;
            || s' == s
            || (&& RetargetGuard(s, id, target, expected) == OK
                && QueueWritten(s.(books := FenceQueue(s, id, now).0), s', Retargeted(s.queues[id], target)))
  {
    hide FenceQueue;
  }
}
