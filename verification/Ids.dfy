/** Which ids a ledger uses: allocation records are added only by a grant, under the next id,
    and the books survive a grant exactly if that id is free. */
module Ids {
  import opened Arithmetic
  import opened Model
  import opened Grants
  import opened Ledger
  import opened Aggregates
  import opened Invariant
  import opened Topology
  import opened Transitions
  import opened AllocationSteps
  import opened TopologySteps
  import opened Steps
  import opened Runs

  // ----- Tables keep their keys -----

  /** The keys of the tables a change leaves alone. */
  ghost predicate SameKeys(s: Fabric, s': Fabric) {
    && s'.books.allocations.Keys == s.books.allocations.Keys && s'.books.pools.Keys == s.books.pools.Keys
    && s'.books.nextAllocation == s.books.nextAllocation && s'.capacities == s.capacities
  }

  lemma ShrunkKeys(b: Books, b': Books)
    requires Shrunk(b, b')
    ensures b'.allocations.Keys == b.allocations.Keys && b'.pools.Keys == b.pools.Keys && b'.nextAllocation == b.nextAllocation
  {
    hide IndexShrunk;
  }

  lemma RewriteKeys(s: Fabric, s': Fabric, c: Change, now: u64)
    requires Inv(s) && Changes(s, s', c, now) && c.Rewrites()
    ensures SameKeys(s, s') && s'.policies == s.policies && s'.queues == s.queues
  {
    hide Inv, Changes, Eases, Moved;
    var id, r' := RewriteStep(s, s', c, now);
  }

  lemma ShedKeys(s: Fabric, s': Fabric, ids: seq<u64>, sel: Selector, to: AllocationState, now: u64)
    requires Inv(s) && Changes(s, s', Shed(ids, sel, to), now)
    ensures SameKeys(s, s') && s'.policies == s.policies && s'.queues == s.queues
  {
    hide Inv, FenceAll, Shrunk;
    SheddingKeepsInv(s, s', ids, sel, to, now);
    ShrunkKeys(s.books, s'.books);
  }

  lemma PublishKeys(s: Fabric, s': Fabric, policy: Policy, order: seq<u64>, now: u64)
    requires Inv(s) && Published(s, s', policy, order, now)
    ensures SameKeys(s, s') && s'.queues == s.queues && (|s.policies| <= MAX_POLICIES ==> |s'.policies| <= MAX_POLICIES)
  {
    hide Inv, FencePools, Shrunk, Policy.Valid;
    PublishedKeepsInv(s, s', policy, order, now);
    ShrunkKeys(s.books, s'.books);
    GrownCount(s.policies, policy.id, policy);
  }

  lemma GrownCount<T>(m: map<u64, T>, k: u64, v: T)
    ensures |m[k := v]| == if k in m then |m| else |m| + 1
  {
    assert m[k := v].Keys == m.Keys + {k};
    if k in m { assert m.Keys + {k} == m.Keys; }
  }

  lemma ResizeKeys(s: Fabric, s': Fabric, p: u64, raw: u64, protected: u64, now: u64)
    requires Inv(s) && ResizedTo(s, s', p, raw, protected, now)
    ensures SameKeys(s, s') && s'.policies == s.policies && s'.queues == s.queues
  {
    hide Inv, Shrunk, ResizeGuard, Enforced;
    ResizingKeepsInv(s, s', p, raw, protected, now);
    ShrunkKeys(ResizedBooks(s.books, p, raw, protected), s'.books);
    assert ResizedBooks(s.books, p, raw, protected).pools.Keys == s.books.pools.Keys;
  }

  lemma RetireKeys(s: Fabric, s': Fabric, id: u64, now: u64)
    requires Inv(s) && RetiredBy(s, s', id, now)
    ensures SameKeys(s, s') && s'.policies == s.policies && |s'.queues| == |s.queues|
  {
    hide Inv, Shrunk, FenceQueue, RetiredBy;
    RetiringKeepsInv(s, s', id, now);
    RetiredTables(s, s', id, now);
    ShrunkKeys(s.books, s'.books);
    GrownCount(s.queues, id, RetiredQueue(s.queues[id]));
  }

  lemma RetargetKeys(s: Fabric, s': Fabric, id: u64, target: u64, now: u64)
    requires Inv(s) && RetargetedTo(s, s', id, target, now)
    ensures SameKeys(s, s') && s'.policies == s.policies && |s'.queues| == |s.queues|
  {
    hide Inv, Shrunk, FenceQueue, RetargetedTo;
    RetargetingKeepsInv(s, s', id, target, now);
    RetargetedTables(s, s', id, target, now);
    ShrunkKeys(s.books, s'.books);
    GrownCount(s.queues, id, Retargeted(s.queues[id], target));
  }

  lemma EnteredShape(s: Fabric, s': Fabric, r: Allocation)
    requires Entered(s, s', r)
    ensures SameTables(s, s') && s'.books.pools.Keys == s.books.pools.Keys && s'.books.nextAllocation != 0
    ensures s'.books.allocations == s.books.allocations[r.id := r] && r.units <= MAX_UNITS && |s.books.allocations| < MAX_ALLOCATIONS
  {
    hide PoolCloses, BoundNow, QueueHeld, Grounded;
  }

  lemma PoolChangeKeys(s: Fabric, s': Fabric, c: Change, now: u64)
    requires Changes(s, s', c, now) && (c.AddPool? || c.DropPool? || c.NewCapacity?)
    ensures s'.books.allocations == s.books.allocations && s'.books.nextAllocation == s.books.nextAllocation
    ensures !c.NewCapacity? ==> s'.capacities == s.capacities
  {
    hide PoolGuard, RemovalGuard, CapacityFits;
  }

  /** Only a grant adds a record or moves the next id. */
  lemma ChangeKeys(s: Fabric, s': Fabric, c: Change, now: u64)
    requires Inv(s) && Changes(s, s', c, now) && !c.Enter?
    ensures s'.books.allocations.Keys == s.books.allocations.Keys && s'.books.nextAllocation == s.books.nextAllocation
    ensures !c.NewCapacity? ==> s'.capacities == s.capacities
  {
    hide Inv, PoolAdded, PoolDropped, ResizedTo, RetiredBy, RetargetedTo, Published, Promoted, Returning, Rebound, Becomes;
    match c
    case Nothing =>
    case NewCapacity(_) => PoolChangeKeys(s, s', c, now);
    case AddPool(_) => PoolChangeKeys(s, s', c, now);
    case DropPool(_) => PoolChangeKeys(s, s', c, now);
    case Promote(_) => RewriteKeys(s, s', c, now);
    case GiveBack(_, _) => RewriteKeys(s, s', c, now);
    case Rebind(_) => RewriteKeys(s, s', c, now);
    case Shed(ids, sel, to) => ShedKeys(s, s', ids, sel, to, now);
    case NewPolicy(policy, order) => PublishKeys(s, s', policy, order, now);
    case Resize(p, raw, protected) => ResizeKeys(s, s', p, raw, protected, now);
    case AddQueue(q) =>
    case EditDemand(q) =>
    case Retire(id) => RetireKeys(s, s', id, now);
    case Retarget(id, target) => RetargetKeys(s, s', id, target, now);
  }

  // ----- Runs that start with every later id unused -----

  lemma EnteredFresh(s: Fabric, s': Fabric, r: Allocation)
    requires Entered(s, s', r) && IdsFresh(s.books.allocations, s.books.nextAllocation)
    ensures IdsFresh(s'.books.allocations, s'.books.nextAllocation)
  {
    hide PoolCloses, BoundNow, QueueHeld, Extended;
  }

  lemma ChangeFresh(s: Fabric, s': Fabric, c: Change, now: u64)
    requires Inv(s) && Changes(s, s', c, now) && IdsFresh(s.books.allocations, s.books.nextAllocation)
    ensures IdsFresh(s'.books.allocations, s'.books.nextAllocation)
  {
    hide Inv, PoolAdded, PoolDropped, ResizedTo, RetiredBy, RetargetedTo, Published, Promoted, Returning, Rebound, Becomes, Entered;
    match c
    case Enter(r) => EnteredFresh(s, s', r);
    case _ => ChangeKeys(s, s', c, now);
  }

  lemma StepFresh(s: Fabric, op: Op, now: u64)
    requires Inv(s) && IdsFresh(s.books.allocations, s.books.nextAllocation) && SplitAdmissible(s, op)
    ensures Admissible(s, op, now) && Inv(Step(s, op, now))
    ensures IdsFresh(Step(s, op, now).books.allocations, Step(s, op, now).books.nextAllocation)
  {
    hide Inv, Step, Changes, SplitAdmissible, Allocate;
    var c := StepChanges(s, op, now);
    ChangeKeepsInv(s, Step(s, op, now), c, now);
    ChangeFresh(s, Step(s, op, now), c, now);
  }

  /** Every partial release on the way has a split that holds. */
  ghost predicate SplitRun(s: Fabric, calls: seq<Call>)
    decreases |calls|
  {
    calls == [] || (SplitAdmissible(s, calls[0].op) && SplitRun(Step(s, calls[0].op, calls[0].now), calls[1..]))
  }

  /** Where every later id is unused, as in a newly opened fabric, that stays so, and the
      splits are the only hypothesis on a run. */
  lemma {:induction false} FreshRun(s: Fabric, calls: seq<Call>)
    requires Inv(s) && IdsFresh(s.books.allocations, s.books.nextAllocation) && SplitRun(s, calls)
    ensures AdmissibleRun(s, calls) && IdsFresh(Run(s, calls).books.allocations, Run(s, calls).books.nextAllocation)
    decreases |calls|
  {
    hide Inv, Step, Admissible, SplitAdmissible, IdsFresh;
    if calls != [] {
      StepFresh(s, calls[0].op, calls[0].now);
      FreshRun(Step(s, calls[0].op, calls[0].now), calls[1..]);
    }
  }

  // ----- When the next id is not free -----

  /** After a recovery the next allocation id may name an existing record. Storing under it keeps the books in
      agreement exactly when that record holds no units; if it does, the grant overwrites
      a live record and its units stay charged with nothing to account for them. */
  lemma CollisionKeepsAgreementIff(b: Books, r: Allocation)
    requires Agrees(b.pools, b.allocations) && InRange(b.pools) && PoolsOk(b.pools) && Affordable(b.pools, r)
    requires r.id in b.allocations ==> b.allocations[r.id].Holds() ==>
               b.allocations[r.id].units > 0 && b.allocations[r.id].pool in b.pools
    ensures var b' := StoreRecord(b, r).0;
            && StoreRecord(b, r).1 == OK
            && (Agrees(b'.pools, b'.allocations) <==> (r.id in b.allocations ==> !b.allocations[r.id].Holds()))
  {
    hide Agrees, Total;
    StoreEffect(b, r);
    var b' := StoreRecord(b, r).0;
    if r.id in b.allocations && b.allocations[r.id].Holds() {
      CollisionBreaks(b, b', r);
    } else {
      CollisionHarmless(b, b', r);
    }
  }

  lemma CollisionHarmless(b: Books, b': Books, r: Allocation)
    requires Agrees(b.pools, b.allocations) && Extended(b.pools, b'.pools, r) && b'.allocations == b.allocations[r.id := r]
    requires r.id in b.allocations ==> !b.allocations[r.id].Holds()
    ensures Agrees(b'.pools, b'.allocations)
  {
    hide Total;
    forall p, a | p in b'.pools ensures Field(b'.pools[p], a) == Total(b'.allocations, a, p) {
      TotalReplaced(b.allocations, r.id, r, a, p);
      assert Field(b.pools[p], a) == Total(b.allocations, a, p);
    }
  }

  lemma CollisionBreaks(b: Books, b': Books, r: Allocation)
    requires Agrees(b.pools, b.allocations) && Extended(b.pools, b'.pools, r) && b'.allocations == b.allocations[r.id := r]
    requires r.id in b.allocations && b.allocations[r.id].Holds() && b.allocations[r.id].units > 0
    requires b.allocations[r.id].pool in b.pools
    ensures !Agrees(b'.pools, b'.allocations)
  {
    var lost := b.allocations[r.id];
    var a := if lost.state.Reserved? then InReserved else InCommitted;
    TotalReplaced(b.allocations, r.id, r, a, lost.pool);
    assert Field(b.pools[lost.pool], a) == Total(b.allocations, a, lost.pool);
    assert Field(b'.pools[lost.pool], a) == Field(b.pools[lost.pool], a) + Contribution(r, a, lost.pool);
    assert Field(b'.pools[lost.pool], a) != Total(b'.allocations, a, lost.pool);
  }

  /** Allocate keeps the invariant exactly if it stores nothing or stores under a free id. */
  lemma AllocateKeepsInvIff(s: Fabric, q: AllocateRequest, now: u64)
    requires Inv(s)
    ensures Inv(Allocate(s, q, now).0) <==> IdAdmissible(s, DoAllocate(q), now)
  {
    hide Allocate, BooksOk;
    var s' := Allocate(s, q, now).0;
    AllocateStep(s, q, now);
    if Still(s, s') {
      StillKeepsInv(s, s');
    } else {
      var r :| Entered(s, s', r);
      if NextIdFree(s.books) { EnteredKeepsInv(s, s', r); } else { EnteredOver(s, s', r); }
    }
  }

  /** A grant over a live record leaves books that disagree with the records. */
  lemma EnteredOver(s: Fabric, s': Fabric, r: Allocation)
    requires Inv(s) && Entered(s, s', r) && !NextIdFree(s.books)
    ensures !Inv(s') && s'.books != s.books
  {
    hide Agrees, Forest, Indexed, InRange, PoolsOk, PoolCloses, BoundNow, Extended;
    assert HolderOk(s.books.allocations[r.id], s.books.pools, s.queues);
    CollisionBreaks(s.books, s'.books, r);
  }
}
