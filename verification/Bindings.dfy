/** Generation bindings: when policies fence on change, queues are fenced on retirement and
    the index is complete, an allocation granted in this session stays bound to the
    generations and the epoch in force for as long as it holds units. */
module Bindings {
  import opened Arithmetic
  import opened Model
  import opened Grants
  import opened Ledger
  import opened Topology
  import opened Aggregates
  import opened Invariant
  import opened Transitions
  import opened AllocationSteps
  import opened TopologySteps
  import opened Steps
  import opened Runs
  import opened Index
  import opened Split
  import Order

  /** Records of this session that hold units are bound to the present. */
  ghost predicate BindingsOk(s: Fabric) {
    forall id :: id in s.books.allocations && s.books.allocations[id].Holds() && s.books.allocations[id].bound.epoch == s.epoch
      ==> BoundNow(s, s.books.allocations[id])
  }

  /** Every policy fences on change, and retirement fences. */
  ghost predicate Vigilant(s: Fabric) {
    s.config.autoFenceOnRetirement && forall k :: k in s.policies ==> s.policies[k].fenceOnChange
  }

  /** A published policy fences on change, and the fencing loop visits every pool. */
  ghost predicate Watchful(s: Fabric, c: Change) {
    c.NewPolicy? ==> c.policy.fenceOnChange && s.books.pools.Keys <= Order.Elements(c.order)
  }

  // ----- What a fencing loop leaves alone -----

  lemma {:induction false} FenceAllSpares(b: Books, queues: map<u64, Queue>, ids: seq<u64>, sel: Selector,
                                          to: AllocationState, now: u64, id: u64)
    requires BooksOk(b, queues) && !to.Holds() && id in b.allocations && !Selects(b.allocations[id], sel)
    ensures var b' := FenceAll(b, ids, sel, to, now).0;
            id in b'.allocations && b'.allocations[id] == b.allocations[id]
    decreases |ids|
  {
    hide BooksOk, Shrunk, Selects;
    if ids == [] {
    } else if ids[0] !in b.allocations || !Selects(b.allocations[ids[0]], sel) {
      FenceAllSpares(b, queues, ids[1..], sel, to, now, id);
    } else {
      HoldsWhenSelected(b.allocations[ids[0]], sel);
      FenceOneKeepsBooks(b, queues, ids[0], to, now);
      FenceOneMarks(b, queues, ids[0], to, now);
      FenceAllSpares(FenceOne(b, ids[0], to, now).0, queues, ids[1..], sel, to, now, id);
    }
  }

  /** After the pools of a policy are fenced, no listed member is bound to another
      generation of it. */
  lemma {:induction false} FencePoolsClears(b: Books, queues: map<u64, Queue>, order: seq<u64>, policy: u64,
                                            generation: u64, now: u64, p: u64, id: u64)
    requires BooksOk(b, queues) && p in order && p in b.pools && b.pools[p].descriptor.policy == policy
    requires id in b.pools[p].members && id in b.allocations
    ensures var b' := FencePools(b, order, policy, generation, now).0;
            id in b'.allocations && !Selects(b'.allocations[id], OtherPolicyGeneration(generation))
    decreases |order|
  {
    hide BooksOk, FenceAll, Selects, FieldsShrunk;
    var sel := OtherPolicyGeneration(generation);
    if order[0] !in b.pools || b.pools[order[0]].descriptor.policy != policy {
      FencePoolsClears(b, queues, order[1..], policy, generation, now, p, id);
    } else {
      var ids := Order.Ascending(b.pools[order[0]].members);
      var b1 := FenceAll(b, ids, sel, Fenced, now).0;
      FenceAllKeepsBooks(b, queues, ids, sel, Fenced, now);
      FencePoolsKeepsBooks(b1, queues, order[1..], policy, generation, now);
      if order[0] == p {
        assert id in Order.Elements(ids);
        FenceAllClears(b, queues, ids, sel, Fenced, now, id);
        StaysUnselected(b1, FencePools(b1, order[1..], policy, generation, now).0, id, sel);
      } else if b1.allocations[id] == b.allocations[id] {
        SameDescriptor(b, b1, p);
        FencePoolsClears(b1, queues, order[1..], policy, generation, now, p, id);
      } else {
        LetGoUnselects(b, b1, id, sel);
        StaysUnselected(b1, FencePools(b1, order[1..], policy, generation, now).0, id, sel);
      }
    }
  }

  lemma SameDescriptor(b: Books, b': Books, p: u64)
    requires Shrunk(b, b') && p in b.pools
    ensures p in b'.pools && b'.pools[p].descriptor == b.pools[p].descriptor
  {
  }

  lemma StaysUnselected(b: Books, b': Books, id: u64, sel: Selector)
    requires Shrunk(b, b') && id in b.allocations && !Selects(b.allocations[id], sel)
    ensures id in b'.allocations && !Selects(b'.allocations[id], sel)
  {
    hide FieldsShrunk, IndexShrunk;
    assert LetGo(b.allocations[id], b'.allocations[id]);
  }

  lemma LetGoUnselects(b: Books, b': Books, id: u64, sel: Selector)
    requires Shrunk(b, b') && id in b.allocations && b'.allocations[id] != b.allocations[id]
    ensures !Selects(b'.allocations[id], sel)
  {
    hide FieldsShrunk, IndexShrunk;
    assert LetGo(b.allocations[id], b'.allocations[id]);
  }

  // ----- Each change keeps the bindings -----

  /** Nothing a binding depends on moved, for this record. */
  lemma BoundSame(s: Fabric, s': Fabric, r: Allocation)
    requires BoundNow(s, r) && s'.epoch == s.epoch && r.pool in s'.books.pools && r.queue in s'.queues
    requires s'.books.pools[r.pool].descriptor == s.books.pools[r.pool].descriptor
    requires s'.books.pools[r.pool].capacityGeneration == s.books.pools[r.pool].capacityGeneration
    requires var k := s.books.pools[r.pool].descriptor.policy; k in s'.policies && s'.policies[k] == s.policies[k]
    requires s'.queues[r.queue].generation == s.queues[r.queue].generation
    ensures BoundNow(s', r)
  {
  }

  lemma StillBound(s: Fabric, s': Fabric)
    requires BindingsOk(s) && SameTables(s, s') && SameTopology(s.books.pools, s'.books.pools)
    requires forall id :: id in s'.books.allocations && s'.books.allocations[id].Holds() ==>
               || (id in s.books.allocations && s'.books.allocations[id] == s.books.allocations[id])
               || (s'.books.allocations[id].bound.epoch == s.epoch ==> BoundNow(s, s'.books.allocations[id]))
    ensures BindingsOk(s')
  {
    hide BoundNow;
    forall id | id in s'.books.allocations && s'.books.allocations[id].Holds() && s'.books.allocations[id].bound.epoch == s'.epoch
      ensures BoundNow(s', s'.books.allocations[id])
    {
      var r := s'.books.allocations[id];
      assert BoundNow(s, r);
      BoundStays(s, s', r);
    }
  }

  lemma BoundStays(s: Fabric, s': Fabric, r: Allocation)
    requires BoundNow(s, r) && SameTables(s, s') && SameTopology(s.books.pools, s'.books.pools)
    ensures BoundNow(s', r)
  {
    BoundSame(s, s', r);
  }

  lemma ShrunkBound(s: Fabric, s': Fabric)
    requires BindingsOk(s) && SameTables(s, s') && Shrunk(s.books, s'.books)
    ensures BindingsOk(s')
  {
    hide BindingsOk, IndexShrunk, SameTables, BoundNow;
    forall id | id in s'.books.allocations && s'.books.allocations[id].Holds()
      ensures s'.books.allocations[id] == s.books.allocations[id]
    {
      assert LetGo(s.books.allocations[id], s'.books.allocations[id]);
    }
    StillBound(s, s');
  }

  lemma EnteredBound(s: Fabric, s': Fabric, r: Allocation)
    requires BindingsOk(s) && Entered(s, s', r)
    ensures BindingsOk(s')
  {
    hide BindingsOk, PoolCloses, Affordable, HolderOk, BoundNow;
    StillBound(s, s');
  }

  lemma ReturnedBound(r: Allocation, units: u64, now: u64)
    requires 0 < r.units <= MAX_UNITS && r.borrow <= r.units && 0 < units <= r.units && SplitHolds(r, units)
    ensures var left := RemainingHalf(r, units, now);
            left.bound == r.bound && left.pool == r.pool && left.queue == r.queue && (left.Holds() ==> r.Holds())
  {
    SplitConserves(r, units, now);
  }

  lemma SameBinding(s: Fabric, r: Allocation, r': Allocation)
    requires BoundNow(s, r) && r'.bound == r.bound && r'.pool == r.pool && r'.queue == r.queue
    ensures BoundNow(s, r')
  {
  }

  lemma RenewedBinding(s: Fabric, id: u64, r': Allocation)
    requires id in s.books.allocations && s.books.allocations[id].pool in s.books.pools
    requires s.books.pools[s.books.allocations[id].pool].descriptor.policy in s.policies
    requires s.books.allocations[id].queue in s.queues
    requires r'.pool == s.books.allocations[id].pool && r'.queue == s.books.allocations[id].queue
    requires r'.bound == RenewedFor(s, id)
    ensures BoundNow(s, r')
  {
  }

  /** One record is replaced by one that, in this session, is bound to the present. */
  lemma ReplacedBound(s: Fabric, s': Fabric, id: u64, r': Allocation)
    requires BindingsOk(s) && SameTables(s, s') && ReplacedBooks(s.books, s'.books, id, r')
    requires r'.Holds() && r'.bound.epoch == s.epoch ==> BoundNow(s, r')
    ensures BindingsOk(s')
  {
    hide BindingsOk, Moved, BoundNow;
    StillBound(s, s');
  }

  lemma PromoteBound(s: Fabric, s': Fabric, id: u64, now: u64)
    requires Inv(s) && BindingsOk(s) && Changes(s, s', Promote(id), now)
    ensures BindingsOk(s')
  {
    hide Inv, BoundNow, ReplacedBooks, Promoted, SameTables;
    PromoteStep(s, s', id, now);
    var r := s.books.allocations[id];
    var r' := Marked(r, Committed, now);
    if r.bound.epoch == s.epoch { SameBinding(s, r, r'); }
    ReplacedBound(s, s', id, r');
  }

  lemma GiveBackBound(s: Fabric, s': Fabric, id: u64, units: u64, now: u64)
    requires Inv(s) && BindingsOk(s) && Changes(s, s', GiveBack(id, units), now)
    ensures BindingsOk(s')
  {
    hide Agrees, Forest, Indexed, BoundNow, ReplacedBooks, Returning, SameTables, RemainingHalf;
    GiveBackStep(s, s', id, units, now);
    var r := s.books.allocations[id];
    assert HolderOk(r, s.books.pools, s.queues);
    ReturnedBound(r, units, now);
    var r' := RemainingHalf(r, units, now);
    if r.bound.epoch == s.epoch { SameBinding(s, r, r'); }
    ReplacedBound(s, s', id, r');
  }

  lemma ReboundRecord(b: Books, id: u64, bound: Bound, now: u64)
    requires id in b.allocations
    ensures var r' := Rebound(b, id, bound, now).allocations[id];
            r'.bound == bound && r'.pool == b.allocations[id].pool && r'.queue == b.allocations[id].queue
  {
  }

  lemma RebindBound(s: Fabric, s': Fabric, id: u64, now: u64)
    requires Inv(s) && BindingsOk(s) && Changes(s, s', Rebind(id), now)
    ensures BindingsOk(s')
  {
    hide Inv, BoundNow, ReplacedBooks, Rebound, BindingsOk, RenewedFor;
    RebindStep(s, s', id, now);
    ReboundRecord(s.books, id, RenewedFor(s, id), now);
    RenewedBinding(s, id, s'.books.allocations[id]);
    ReplacedBound(s, s', id, s'.books.allocations[id]);
  }

  lemma PublishedHolders(s: Fabric, s': Fabric, policy: Policy, order: seq<u64>, now: u64, id: u64)
    requires Inv(s) && Complete(s.books) && Published(s, s', policy, order, now) && Watchful(s, NewPolicy(policy, order))
    requires id in s.books.allocations && id in s'.books.allocations && s'.books.allocations[id].Holds()
    requires s.books.allocations[id].Holds() && s.books.allocations[id].pool in s.books.pools
    requires s.books.pools[s.books.allocations[id].pool].descriptor.policy == policy.id
    ensures s'.books.allocations[id].bound.policyGeneration == policy.generation
  {
    hide Agrees, Forest, Indexed, FencePools, Policy.Valid, RecordsOk;
    var logged := Log(s.books, PolicyUpsert(policy));
    SameBooksKeep(s.books, logged, s.queues);
    var p := s.books.allocations[id].pool;
    assert p in Order.Elements(order);
    FencePoolsClears(logged, s.queues, order, policy.id, policy.generation, now, p, id);
  }

  lemma PublishBound(s: Fabric, s': Fabric, policy: Policy, order: seq<u64>, now: u64)
    requires Inv(s) && Complete(s.books) && BindingsOk(s) && Published(s, s', policy, order, now)
    requires Watchful(s, NewPolicy(policy, order))
    ensures BindingsOk(s')
  {
    hide Complete, BoundNow, BooksOk, Published, Watchful, IndexShrunk;
    PublishedKeepsInv(s, s', policy, order, now);
    PublishedPolicies(s, s', policy, order, now);
    forall id | id in s'.books.allocations && s'.books.allocations[id].Holds() && s'.books.allocations[id].bound.epoch == s'.epoch
      ensures BoundNow(s', s'.books.allocations[id])
    {
      var r := s'.books.allocations[id];
      assert LetGo(s.books.allocations[id], r);
      assert BoundNow(s, r);
      PublishedOne(s, s', policy, order, now, id);
    }
  }

  lemma PublishedPolicies(s: Fabric, s': Fabric, policy: Policy, order: seq<u64>, now: u64)
    requires Published(s, s', policy, order, now)
    ensures s'.policies == s.policies[policy.id := policy] && s'.epoch == s.epoch && s'.queues == s.queues
  {
    hide FencePools, Policy.Valid;
  }

  lemma PublishedOne(s: Fabric, s': Fabric, policy: Policy, order: seq<u64>, now: u64, id: u64)
    requires Inv(s) && Complete(s.books) && Published(s, s', policy, order, now) && Watchful(s, NewPolicy(policy, order))
    requires Shrunk(s.books, s'.books)
    requires s'.policies == s.policies[policy.id := policy] && s'.epoch == s.epoch && s'.queues == s.queues
    requires id in s.books.allocations && id in s'.books.allocations && s'.books.allocations[id].Holds()
    requires s'.books.allocations[id] == s.books.allocations[id] && BoundNow(s, s.books.allocations[id])
    ensures BoundNow(s', s'.books.allocations[id])
  {
    hide Inv, Complete, Published, Watchful, RecordsShrunk, IndexShrunk;
    var r := s'.books.allocations[id];
    if s.books.pools[r.pool].descriptor.policy == policy.id {
      PublishedHolders(s, s', policy, order, now, id);
    } else {
      BoundSame(s, s', r);
    }
  }

  lemma AddPoolBound(s: Fabric, s': Fabric, d: PoolDescriptor)
    requires BindingsOk(s) && PoolAdded(s, s', d)
    ensures BindingsOk(s')
  {
    hide PoolGuard;
    PoolGuardFacts(s, d);
    forall id | id in s'.books.allocations && s'.books.allocations[id].Holds() && s'.books.allocations[id].bound.epoch == s'.epoch
      ensures BoundNow(s', s'.books.allocations[id])
    {
      BoundSame(s, s', s'.books.allocations[id]);
    }
  }

  lemma DropPoolBound(s: Fabric, s': Fabric, p: u64)
    requires Inv(s) && BindingsOk(s) && PoolDropped(s, s', p)
    ensures BindingsOk(s')
  {
    hide RemovalGuard, Agrees, Forest, Indexed, BoundNow;
    PoolDroppedKeepsInv(s, s', p);
    forall id | id in s'.books.allocations && s'.books.allocations[id].Holds() && s'.books.allocations[id].bound.epoch == s'.epoch
      ensures BoundNow(s', s'.books.allocations[id])
    {
      var r := s'.books.allocations[id];
      assert HolderOk(r, s'.books.pools, s'.queues);
      DroppedOne(s, s', r);
    }
  }

  lemma DroppedOne(s: Fabric, s': Fabric, r: Allocation)
    requires BoundNow(s, r) && s'.epoch == s.epoch && s'.policies == s.policies && r.pool in s'.books.pools && r.queue in s'.queues
    requires s'.books.pools[r.pool] == s.books.pools[r.pool] && s'.queues[r.queue] == s.queues[r.queue]
    ensures BoundNow(s', r)
  {
  }

  /** In fence-everything mode a resize leaves no record of the pool holding units. */
  lemma ResizeEmpties(s: Fabric, s': Fabric, p: u64, raw: u64, protected: u64, now: u64, id: u64)
    requires Inv(s) && Complete(s.books) && ResizedTo(s, s', p, raw, protected, now)
    requires p in s.books.pools && s.books.pools[p].descriptor.policy in s.policies
    requires s.policies[s.books.pools[p].descriptor.policy].fenceOnChange
    requires id in s'.books.allocations && s'.books.allocations[id].Holds()
    ensures s'.books.allocations[id].pool != p
  {
    hide Inv, Enforced, ResizeGuard;
    ResizeGuardFacts(s, p, raw, protected, 0);
    EnforcedFitsIff(s, p, raw, protected, now);
    ResizeComplete(s, s', p, raw, protected, now);
  }

  lemma ResizeBound(s: Fabric, s': Fabric, p: u64, raw: u64, protected: u64, now: u64)
    requires Inv(s) && Complete(s.books) && Vigilant(s) && BindingsOk(s) && ResizedTo(s, s', p, raw, protected, now)
    ensures BindingsOk(s')
  {
    hide Inv, Complete, BoundNow, ResizedTo, IndexShrunk;
    ResizedTables(s, s', p, raw, protected, now);
    ResizingKeepsInv(s, s', p, raw, protected, now);
    ResizedFacts(s, s', p, raw, protected, now);
    var b1 := ResizedBooks(s.books, p, raw, protected);
    forall id | id in s'.books.allocations && s'.books.allocations[id].Holds() && s'.books.allocations[id].bound.epoch == s'.epoch
      ensures BoundNow(s', s'.books.allocations[id])
    {
      var r := s'.books.allocations[id];
      ResizeEmpties(s, s', p, raw, protected, now, id);
      assert LetGo(b1.allocations[id], r);
      assert BoundNow(s, r);
      ResizedOne(s, s', p, raw, protected, r);
    }
  }

  lemma ResizedFacts(s: Fabric, s': Fabric, p: u64, raw: u64, protected: u64, now: u64)
    requires ResizedTo(s, s', p, raw, protected, now)
    ensures p in s.books.pools && s.books.pools[p].descriptor.policy in s.policies
  {
    hide Enforced, ResizeGuard;
  }

  lemma ResizedOne(s: Fabric, s': Fabric, p: u64, raw: u64, protected: u64, r: Allocation)
    requires BoundNow(s, r) && SameTables(s, s') && p in s.books.pools && r.pool != p
    requires Shrunk(ResizedBooks(s.books, p, raw, protected), s'.books)
    ensures BoundNow(s', r)
  {
    hide RecordsShrunk, IndexShrunk;
    BoundSame(s, s', r);
  }

  /** A queue is rewritten that holds nothing, or keeps its generation. */
  lemma QueueBound(s: Fabric, s': Fabric, q: Queue)
    requires BindingsOk(s) && Shrunk(s.books, s'.books) && s'.policies == s.policies && s'.epoch == s.epoch
    requires s'.queues == s.queues[q.id := q]
    requires || (q.id in s.queues && q.generation == s.queues[q.id].generation)
             || forall k :: k in s'.books.allocations && s'.books.allocations[k].Holds() ==> s'.books.allocations[k].queue != q.id
    ensures BindingsOk(s')
  {
    hide IndexShrunk, BoundNow;
    forall id | id in s'.books.allocations && s'.books.allocations[id].Holds() && s'.books.allocations[id].bound.epoch == s'.epoch
      ensures BoundNow(s', s'.books.allocations[id])
    {
      var r := s'.books.allocations[id];
      assert LetGo(s.books.allocations[id], r);
      assert BoundNow(s, r);
      QueueBoundOne(s, s', q, r);
    }
  }

  lemma QueueBoundOne(s: Fabric, s': Fabric, q: Queue, r: Allocation)
    requires BoundNow(s, r) && SameTopology(s.books.pools, s'.books.pools) && s'.policies == s.policies && s'.epoch == s.epoch
    requires s'.queues == s.queues[q.id := q]
    requires (q.id in s.queues && q.generation == s.queues[q.id].generation) || r.queue != q.id
    ensures BoundNow(s', r)
  {
  }

  lemma AddQueueBound(s: Fabric, s': Fabric, q: Queue)
    requires Inv(s) && BindingsOk(s) && q.id !in s.queues && QueueWritten(s, s', q)
    ensures BindingsOk(s')
  {
    hide Agrees, Forest, Indexed, BindingsOk;
    forall id | id in s'.books.allocations && s'.books.allocations[id].Holds() ensures s'.books.allocations[id].queue != q.id {
      assert HolderOk(s.books.allocations[id], s.books.pools, s.queues);
    }
    ShrunkRefl(s.books);
    QueueBound(s, s', q);
  }

  lemma NothingBound(s: Fabric, s': Fabric)
    requires BindingsOk(s) && SameBooks(s.books, s'.books) && s'.policies == s.policies && s'.queues == s.queues
    requires s'.epoch == s.epoch
    ensures BindingsOk(s')
  {
  }

  /** The bindings of this session survive every change. */
  lemma BindingsKept(s: Fabric, s': Fabric, c: Change, now: u64)
    requires Inv(s) && Complete(s.books) && Vigilant(s) && BindingsOk(s) && Changes(s, s', c, now) && Watchful(s, c)
    ensures BindingsOk(s')
  {
    hide Inv, Complete, Vigilant, BindingsOk, Watchful, PoolAdded, PoolDropped, ResizedTo, RetiredBy, RetargetedTo, Published;
    hide Promoted, Returning, Rebound, FenceAll, Shrunk, Becomes, Entered;
    match c
    case Nothing => NothingBound(s, s');
    case NewCapacity(capacity) => NothingBound(s, s');
    case Enter(r) => EnteredBound(s, s', r);
    case Promote(id) => PromoteBound(s, s', id, now);
    case GiveBack(id, units) => GiveBackBound(s, s', id, units, now);
    case Rebind(id) => RebindBound(s, s', id, now);
    case Shed(ids, sel, to) =>
      SheddingKeepsInv(s, s', ids, sel, to, now);
      BecomesTables(s, s', FenceAll(s.books, ids, sel, to, now).0);
      ShrunkBound(s, s');
    case NewPolicy(policy, order) => PublishBound(s, s', policy, order, now);
    case AddPool(d) => AddPoolBound(s, s', d);
    case DropPool(p) => DropPoolBound(s, s', p);
    case Resize(p, raw, protected) => ResizeBound(s, s', p, raw, protected, now);
    case AddQueue(q) => AddQueueBound(s, s', q);
    case EditDemand(q) =>
      ShrunkSame(s.books, s'.books);
      QueueBound(s, s', q);
    case Retire(id) => RetireBound(s, s', id, now);
    case Retarget(id, target) =>
      RetargetingKeepsInv(s, s', id, target, now);
      RetargetedTables(s, s', id, target, now);
      QueueBound(s, s', Retargeted(s.queues[id], target));
  }

  lemma RetireBound(s: Fabric, s': Fabric, id: u64, now: u64)
    requires Inv(s) && BindingsOk(s) && Vigilant(s) && RetiredBy(s, s', id, now)
    ensures BindingsOk(s')
  {
    hide Inv, BindingsOk, RetiredBy, Shrunk;
    RetiringKeepsInv(s, s', id, now);
    RetiredTables(s, s', id, now);
    QueueBound(s, s', RetiredQueue(s.queues[id]));
  }

  lemma ShrunkSame(b: Books, b': Books)
    requires SameBooks(b, b')
    ensures Shrunk(b, b')
  {
  }

  lemma VigilantKept(s: Fabric, s': Fabric, c: Change, now: u64)
    requires Inv(s) && Vigilant(s) && Changes(s, s', c, now) && Watchful(s, c)
    ensures Vigilant(s')
  {
    hide Inv, PoolGuard, RemovalGuard, FencePools, Promoted, Returning, Rebound, FenceAll, PoolCloses, EnteredBooks, BoundNow;
    hide RetiredBy, RetargetedTo, ResizedTo, Policy.Valid, HolderOk;
    match c
    case Resize(p, raw, protected) => ResizedTables(s, s', p, raw, protected, now);
    case Retire(id) => RetiredTables(s, s', id, now);
    case Retarget(id, target) => RetargetedTables(s, s', id, target, now);
    case _ =>
  }

  // ----- Over whole runs -----

  /** Policies published fence on change, with every pool visited; releases are whole. */
  ghost predicate WatchfulRun(s: Fabric, calls: seq<Call>)
    decreases |calls|
  {
    calls == [] ||
    (&& Admissible(s, calls[0].op, calls[0].now) && WatchfulOp(s, calls[0].op)
     && WatchfulRun(Step(s, calls[0].op, calls[0].now), calls[1..]))
  }

  ghost predicate WatchfulOp(s: Fabric, op: Op) {
    && (op.DoRelease? && Releasing(s, op.release) ==>
          Asked(s.books.allocations[op.release.allocation], op.release) == s.books.allocations[op.release.allocation].units)
    && (op.DoPublish? ==> op.policy.fenceOnChange && s.books.pools.Keys <= Order.Elements(op.order))
  }

  lemma WatchfulChange(s: Fabric, op: Op, c: Change)
    requires WatchfulOp(s, op) && Fits(s, op, c)
    ensures Whole(s, c) && Watchful(s, c)
  {
    hide Releasing;
  }

  ghost predicate WellBound(s: Fabric) { Inv(s) && Complete(s.books) && Vigilant(s) && BindingsOk(s) }

  /** A newly opened fabric is well bound if it fences on retirement. */
  lemma EmptyWellBound(config: Config, epoch: u64, boot: Boot, memory: nat)
    requires config.autoFenceOnRetirement
    ensures WellBound(Empty(config, epoch, boot, memory))
  {
    hide Agrees;
    var s := Empty(config, epoch, boot, memory);
    assert Agrees(s.books.pools, s.books.allocations) by { EmptyAgrees(); }
  }

  lemma EmptyAgrees()
    ensures Agrees(map[], map[])
  {
  }

  lemma {:induction false} WatchfulRunIsBound(s: Fabric, calls: seq<Call>)
    requires WellBound(s) && WatchfulRun(s, calls)
    ensures WellBound(Run(s, calls))
    decreases |calls|
  {
    hide Inv, Complete, Vigilant, BindingsOk, Step, Admissible, Changes, WatchfulOp, Whole, Watchful;
    if calls != [] {
      var s', now := Step(s, calls[0].op, calls[0].now), calls[0].now;
      var c := StepChanges(s, calls[0].op, now);
      WatchfulChange(s, calls[0].op, c);
      ChangeKeepsInv(s, s', c, now);
      CompleteKept(s, s', c, now);
      VigilantKept(s, s', c, now);
      BindingsKept(s, s', c, now);
      WatchfulRunIsBound(s', calls[1..]);
    }
  }

  /** fence_stale then finds none of this session's allocations to fence. */
  lemma FenceStaleFindsNone(s: Fabric, p: u64, now: u64, id: u64)
    requires Inv(s) && BindingsOk(s) && id in s.books.allocations && s.books.allocations[id].bound.epoch == s.epoch
    requires PoolAdmission(s, p) == OK && id in s.books.pools[p].members
    ensures var b := FenceStale(s, p, now).0.books;
            id in b.allocations && b.allocations[id] == s.books.allocations[id]
  {
    hide Agrees, Forest, RecordsOk, FenceAll;
    var e, r := s.books.pools[p], s.books.allocations[id];
    var sel := StaleFor(CurrentFor(e, s.policies[e.descriptor.policy], s.epoch));
    assert r.Holds() && r.pool == p;
    assert BoundNow(s, r);
    FenceAllSpares(s.books, s.queues, Order.Ascending(e.members), sel, Fenced, now, id);
  }

  /** In every state a watchful run reaches, sweeping any pool for stale bindings leaves
      every allocation of this session as it is. */
  lemma BindingTheorem(s: Fabric, calls: seq<Call>, p: u64, now: u64, id: u64)
    requires WellBound(s) && WatchfulRun(s, calls)
    requires var s' := Run(s, calls);
             && PoolAdmission(s', p) == OK && id in s'.books.pools[p].members && id in s'.books.allocations
             && s'.books.allocations[id].bound.epoch == s'.epoch
    ensures var s' := Run(s, calls);
            var b := FenceStale(s', p, now).0.books;
            && BoundNow(s', s'.books.allocations[id])
            && id in b.allocations && b.allocations[id] == s'.books.allocations[id]
  {
    hide Run, WatchfulRun, FenceStale, BoundNow, Agrees, Forest, RecordsOk;
    WatchfulRunIsBound(s, calls);
    var s' := Run(s, calls);
    FenceStaleFindsNone(s', p, now, id);
    assert s'.books.allocations[id].Holds();
  }
}
