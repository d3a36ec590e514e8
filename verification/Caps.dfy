/** Two caps that hold over every run: the hard cap of a queue, and the partition of a
    resource's published capacity into pools. */
module Caps {
  import opened Arithmetic
  import opened Sums
  import opened Model
  import opened Grants
  import opened Ledger
  import opened Topology
  import opened Aggregates
  import opened Invariant
  import opened Transitions
  import opened AllocationSteps
  import opened TopologySteps
  import opened Steps
  import opened Runs

  // ----- Queues -----

  /** Units record r holds for queue q. */
  function Weight(r: Allocation, q: u64): nat { if r.Holds() && r.queue == q then r.units else 0 }

  ghost function WeightShare(records: Records, q: u64): u64 -> nat {
    (id: u64) => if id in records then Weight(records[id], q) else 0
  }

  /** Units a queue holds, in whatever pool. */
  ghost function Held(records: Records, q: u64): nat { SumOver(records.Keys, WeightShare(records, q)) }

  ghost predicate CapsOk(records: Records, queues: map<u64, Queue>) {
    forall q :: q in queues && queues[q].maxCommitted != 0 ==> Held(records, q) <= queues[q].maxCommitted
  }

  /** A queue's records all sit in its current pool, so the pool's buckets tell all. */
  lemma HeldIsBuckets(pools: Pools, records: Records, queues: map<u64, Queue>, q: u64)
    requires Agrees(pools, records) && RecordsOk(records, pools, queues) && q in queues && queues[q].pool in pools
    ensures var e := pools[queues[q].pool];
            Held(records, q) == Bucket(e.queueCommitted, q) + Bucket(e.queueReserved, q)
  {
    var p := queues[q].pool;
    forall id | id in records
      ensures WeightShare(records, q)(id)
           == Share(records, InQueueCommitted(q), p)(id) + Share(records, InQueueReserved(q), p)(id)
    {
      assert records[id].Holds() ==> HolderOk(records[id], pools, queues);
    }
    SumPlus(records.Keys, Share(records, InQueueCommitted(q), p), Share(records, InQueueReserved(q), p), WeightShare(records, q));
    assert Field(pools[p], InQueueCommitted(q)) == Total(records, InQueueCommitted(q), p);
    assert Field(pools[p], InQueueReserved(q)) == Total(records, InQueueReserved(q), p);
  }

  lemma HeldInserted(records: Records, id: u64, r: Allocation, q: u64)
    requires id in records ==> !records[id].Holds()
    ensures Held(records[id := r], q) == Held(records, q) + Weight(r, q)
  {
    var after, others := records[id := r], records.Keys - {id};
    assert after.Keys == others + {id};
    SumInsert(others, WeightShare(after, q), id);
    if id in records {
      assert records.Keys == others + {id};
      SumInsert(others, WeightShare(records, q), id);
    } else {
      assert records.Keys == others;
    }
    SumCongruent(others, WeightShare(after, q), WeightShare(records, q));
  }

  lemma HeldLess(records: Records, records': Records, q: u64)
    requires records'.Keys == records.Keys
    requires forall id :: id in records ==> Weight(records'[id], q) <= Weight(records[id], q)
    ensures Held(records', q) <= Held(records, q)
  {
    SumMonotone(records.Keys, WeightShare(records', q), WeightShare(records, q));
  }

  lemma HeldNone(records: Records, q: u64)
    requires forall id :: id in records && records[id].Holds() ==> records[id].queue != q
    ensures Held(records, q) == 0
  {
    SumZero(records.Keys, WeightShare(records, q));
  }

  lemma LighterCaps(records: Records, records': Records, queues: map<u64, Queue>)
    requires CapsOk(records, queues) && records'.Keys == records.Keys
    requires forall id, q :: id in records ==> Weight(records'[id], q) <= Weight(records[id], q)
    ensures CapsOk(records', queues)
  {
    forall q | q in queues && queues[q].maxCommitted != 0 ensures Held(records', q) <= queues[q].maxCommitted {
      HeldLess(records, records', q);
    }
  }

  lemma ShrunkCaps(b: Books, b': Books, queues: map<u64, Queue>)
    requires Shrunk(b, b') && CapsOk(b.allocations, queues)
    ensures CapsOk(b'.allocations, queues)
  {
    hide CapsOk, FieldsShrunk, IndexShrunk;
    forall id, q | id in b.allocations ensures Weight(b'.allocations[id], q) <= Weight(b.allocations[id], q) {
      assert LetGo(b.allocations[id], b'.allocations[id]);
    }
    LighterCaps(b.allocations, b'.allocations, queues);
  }

  lemma EnteredPool(s: Fabric, s': Fabric, r: Allocation)
    requires Entered(s, s', r)
    ensures r.pool in s.books.pools
  {
    hide Extended, PoolCloses, BoundNow, HolderOk;
  }

  lemma EnteredCaps(s: Fabric, s': Fabric, r: Allocation)
    requires Inv(s) && NextIdFree(s.books) && Entered(s, s', r) && CapsOk(s.books.allocations, s.queues)
    ensures CapsOk(s'.books.allocations, s.queues)
  {
    hide Agrees, Forest, Extended, PoolCloses, BoundNow, Affordable, PoolsOk, Indexed, Held;
    EnteredPool(s, s', r);
    var records := s.books.allocations;
    HeldIsBuckets(s.books.pools, records, s.queues, r.queue);
    WrapLess(s.books.pools, records, r.pool, r.queue);
    forall q | q in s.queues && s.queues[q].maxCommitted != 0 ensures Held(records[r.id := r], q) <= s.queues[q].maxCommitted {
      HeldInserted(records, r.id, r, q);
    }
  }

  lemma WrapLess(pools: Pools, records: Records, p: u64, q: u64)
    requires Agrees(pools, records) && InRange(pools) && p in pools
    ensures QueueHeld(pools[p], q) == Bucket(pools[p].queueCommitted, q) + Bucket(pools[p].queueReserved, q)
  {
    hide Agrees;
    EntryFacts(pools, records, p);
    QueueBucketsBounded(pools, records, p, q);
  }

  lemma RewriteCaps(s: Fabric, s': Fabric, c: Change, now: u64)
    requires Inv(s) && Changes(s, s', c, now) && c.Rewrites() && CapsOk(s.books.allocations, s.queues)
    ensures CapsOk(s'.books.allocations, s'.queues)
  {
    hide Inv, Changes, CapsOk, Moved;
    var id, r' := RewriteStep(s, s', c, now);
    var records := s.books.allocations;
    forall k, q | k in records ensures Weight(s'.books.allocations[k], q) <= Weight(records[k], q) {
    }
    LighterCaps(records, s'.books.allocations, s.queues);
  }

  /** A queue that keeps its cap, or holds nothing, may be rewritten. */
  lemma QueueCaps(records: Records, queues: map<u64, Queue>, q: Queue)
    requires CapsOk(records, queues)
    requires (q.id in queues && q.maxCommitted == queues[q.id].maxCommitted) || Held(records, q.id) == 0
    ensures CapsOk(records, queues[q.id := q])
  {
  }

  lemma AddQueueCaps(s: Fabric, s': Fabric, q: Queue)
    requires Inv(s) && q.id !in s.queues && QueueWritten(s, s', q) && CapsOk(s.books.allocations, s.queues)
    ensures CapsOk(s'.books.allocations, s'.queues)
  {
    hide Agrees, Forest, Indexed, CapsOk;
    var records := s.books.allocations;
    forall id | id in records && records[id].Holds() ensures records[id].queue != q.id {
      assert HolderOk(records[id], s.books.pools, s.queues);
    }
    HeldNone(records, q.id);
    QueueCaps(records, s.queues, q);
  }

  lemma DropPoolCaps(s: Fabric, s': Fabric, p: u64)
    requires PoolDropped(s, s', p) && CapsOk(s.books.allocations, s.queues)
    ensures CapsOk(s'.books.allocations, s'.queues)
  {
    hide RemovalGuard;
  }

  /** A queue with a hard cap never holds more than that cap, whatever the operation. */
  lemma CapsKept(s: Fabric, s': Fabric, c: Change, now: u64)
    requires Inv(s) && Changes(s, s', c, now) && CapsOk(s.books.allocations, s.queues)
    ensures CapsOk(s'.books.allocations, s'.queues)
  {
    hide Inv, CapsOk, PoolAdded, PoolDropped, ResizedTo, RetiredBy, RetargetedTo, Published, Promoted, Returning, Rebound;
    hide FenceAll, Shrunk, Becomes, Entered;
    match c
    case Nothing =>
    case NewCapacity(capacity) =>
    case Enter(r) =>
      EnteredCaps(s, s', r);
      EnteredTables(s, s', r);
    case Promote(id) => RewriteCaps(s, s', c, now);
    case GiveBack(id, units) => RewriteCaps(s, s', c, now);
    case Rebind(id) => RewriteCaps(s, s', c, now);
    case Shed(ids, sel, to) =>
      SheddingKeepsInv(s, s', ids, sel, to, now);
      ShrunkCaps(s.books, s'.books, s.queues);
      BecomesTables(s, s', FenceAll(s.books, ids, sel, to, now).0);
    case NewPolicy(policy, order) =>
      PublishedKeepsInv(s, s', policy, order, now);
      ShrunkCaps(s.books, s'.books, s.queues);
      PublishedTables(s, s', policy, order, now);
    case AddPool(d) => PoolAddedTables(s, s', d);
    case DropPool(p) => DropPoolCaps(s, s', p);
    case Resize(p, raw, protected) =>
      ResizedTables(s, s', p, raw, protected, now);
      ResizingKeepsInv(s, s', p, raw, protected, now);
      ShrunkCaps(ResizedBooks(s.books, p, raw, protected), s'.books, s.queues);
    case AddQueue(q) => AddQueueCaps(s, s', q);
    case EditDemand(q) => QueueCaps(s.books.allocations, s.queues, q);
    case Retire(id) =>
      RetiringKeepsInv(s, s', id, now);
      ShrunkCaps(s.books, s'.books, s.queues);
      RetiredTables(s, s', id, now);
      QueueCaps(s'.books.allocations, s.queues, RetiredQueue(s.queues[id]));
    case Retarget(id, target) =>
      RetargetingKeepsInv(s, s', id, target, now);
      ShrunkCaps(s.books, s'.books, s.queues);
      RetargetedTables(s, s', id, target, now);
      QueueCaps(s'.books.allocations, s.queues, Retargeted(s.queues[id], target));
  }

  // ----- Resources -----

  /** Every pool's resource has a published capacity, and the pools carved out of it do
      not exceed it. */
  ghost predicate PartitionOk(pools: Pools, capacities: map<u64, Capacity>) {
    && (forall p :: p in pools ==> pools[p].descriptor.resource in capacities)
    && (forall r :: r in capacities ==> Partitioned(pools, r) <= capacities[r].raw)
  }

  lemma PartitionedSame(pools: Pools, pools': Pools, r: u64)
    requires SameTopology(pools, pools')
    ensures Partitioned(pools', r) == Partitioned(pools, r)
  {
    SumCongruent(pools.Keys, RawShare(pools, r), RawShare(pools', r));
  }

  lemma PartitionedAdded(pools: Pools, p: u64, e: PoolEntry, r: u64)
    requires p !in pools
    ensures Partitioned(pools[p := e], r) == Partitioned(pools, r) + (if e.descriptor.resource == r then e.descriptor.raw else 0)
  {
    hide SumOver;
    var pools' := pools[p := e];
    assert pools'.Keys == pools.Keys + {p};
    SumInsert(pools.Keys, RawShare(pools', r), p);
    SumCongruent(pools.Keys, RawShare(pools', r), RawShare(pools, r));
  }

  /** Taking a pool out leaves the sum of the others. */
  lemma PartitionedWithout(pools: Pools, p: u64, r: u64)
    requires p in pools
    ensures Partitioned(pools - {p}, r) == SumOver(pools.Keys - {p}, RawShare(pools, r))
    ensures Partitioned(pools, r) == RawShare(pools, r)(p) + Partitioned(pools - {p}, r)
  {
    hide SumOver;
    assert (pools - {p}).Keys == pools.Keys - {p};
    SumRemove(pools.Keys, RawShare(pools, r), p);
    SumCongruent(pools.Keys - {p}, RawShare(pools - {p}, r), RawShare(pools, r));
  }

  lemma PartitionSame(pools: Pools, pools': Pools, capacities: map<u64, Capacity>)
    requires PartitionOk(pools, capacities) && SameTopology(pools, pools')
    ensures PartitionOk(pools', capacities)
  {
    hide Partitioned;
    forall r | r in capacities ensures Partitioned(pools', r) <= capacities[r].raw { PartitionedSame(pools, pools', r); }
  }

  lemma PartitionAdded(pools: Pools, capacities: map<u64, Capacity>, d: PoolDescriptor)
    requires PartitionOk(pools, capacities) && d.id !in pools && d.resource in capacities
    requires Partitioned(pools, d.resource) + d.raw <= capacities[d.resource].raw
    ensures PartitionOk(pools[d.id := EmptyEntry(d, 1)], capacities)
  {
    hide Partitioned;
    var pools' := pools[d.id := EmptyEntry(d, 1)];
    forall r | r in capacities ensures Partitioned(pools', r) <= capacities[r].raw {
      PartitionedAdded(pools, d.id, EmptyEntry(d, 1), r);
    }
  }

  lemma PartitionRemoved(pools: Pools, capacities: map<u64, Capacity>, p: u64)
    requires PartitionOk(pools, capacities) && p in pools
    ensures PartitionOk(pools - {p}, capacities)
  {
    hide Partitioned;
    var pools' := pools - {p};
    forall r | r in capacities ensures Partitioned(pools', r) <= capacities[r].raw { PartitionedWithout(pools, p, r); }
  }

  lemma PartitionResized(pools: Pools, capacities: map<u64, Capacity>, p: u64, raw: u64, protected: u64)
    requires PartitionOk(pools, capacities) && p in pools
    requires SumOver(pools.Keys - {p}, RawShare(pools, pools[p].descriptor.resource)) + raw
          <= capacities[pools[p].descriptor.resource].raw
    ensures PartitionOk(pools[p := Resized(pools[p], raw, protected)], capacities)
  {
    hide Partitioned, SumOver;
    var rest, e := pools - {p}, Resized(pools[p], raw, protected);
    var pools' := pools[p := e];
    assert pools' == rest[p := e];
    forall r | r in capacities ensures Partitioned(pools', r) <= capacities[r].raw {
      PartitionedWithout(pools, p, r);
      PartitionedAdded(rest, p, e, r);
    }
  }

  lemma PartitionPublished(pools: Pools, capacities: map<u64, Capacity>, c: Capacity)
    requires PartitionOk(pools, capacities) && Partitioned(pools, c.resource) <= c.raw
    ensures PartitionOk(pools, capacities[c.resource := c])
  {
  }

  lemma ResizePartition(s: Fabric, s': Fabric, p: u64, raw: u64, protected: u64, now: u64)
    requires Inv(s) && ResizedTo(s, s', p, raw, protected, now) && PartitionOk(s.books.pools, s.capacities)
    ensures PartitionOk(s'.books.pools, s'.capacities)
  {
    hide Inv, PartitionOk, RecordsShrunk, IndexShrunk, ResizeGuard, Enforced, RawShare;
    ResizedTables(s, s', p, raw, protected, now);
    ResizeGuardFacts(s, p, raw, protected, 0);
    ResizingKeepsInv(s, s', p, raw, protected, now);
    PartitionResized(s.books.pools, s.capacities, p, raw, protected);
    PartitionSame(ResizedBooks(s.books, p, raw, protected).pools, s'.books.pools, s.capacities);
  }

  lemma PoolPartition(s: Fabric, s': Fabric, c: Change, now: u64)
    requires Changes(s, s', c, now) && (c.AddPool? || c.DropPool?) && PartitionOk(s.books.pools, s.capacities)
    ensures PartitionOk(s'.books.pools, s'.capacities)
  {
    hide PartitionOk, PoolGuard, RemovalGuard;
    if c.AddPool? {
      PoolGuardFacts(s, c.descriptor);
      PartitionAdded(s.books.pools, s.capacities, c.descriptor);
    } else {
      RemovalGuardFacts(s, c.pool, 0);
      PartitionRemoved(s.books.pools, s.capacities, c.pool);
    }
  }

  /** The raw units of the pools on a resource never exceed its published capacity. The
      publishing step of set_capacity takes an answer obtained with no lock held, so any
      operations may have come between; the cap holds all the same. */
  lemma PartitionKept(s: Fabric, s': Fabric, c: Change, now: u64)
    requires Inv(s) && Changes(s, s', c, now) && PartitionOk(s.books.pools, s.capacities)
    ensures PartitionOk(s'.books.pools, s'.capacities)
  {
    hide Inv, PartitionOk, PoolAdded, PoolDropped, ResizedTo, RetiredBy, RetargetedTo, Published, Promoted, Returning;
    hide Rebound, FenceAll, Becomes, RecordsShrunk, IndexShrunk, Partitioned, Moved, SameTopology;
    match c
    case Nothing =>
    case NewCapacity(capacity) => PartitionPublished(s.books.pools, s.capacities, capacity);
    case Enter(r) => PartitionSame(s.books.pools, s'.books.pools, s.capacities);
    case Promote(id) => RewritePartition(s, s', c, now);
    case GiveBack(id, units) => RewritePartition(s, s', c, now);
    case Rebind(id) => RewritePartition(s, s', c, now);
    case Shed(ids, sel, to) =>
      SheddingKeepsInv(s, s', ids, sel, to, now);
      BecomesTables(s, s', FenceAll(s.books, ids, sel, to, now).0);
      PartitionSame(s.books.pools, s'.books.pools, s.capacities);
    case NewPolicy(policy, order) =>
      PublishedKeepsInv(s, s', policy, order, now);
      PublishedTables(s, s', policy, order, now);
      PartitionSame(s.books.pools, s'.books.pools, s.capacities);
    case AddPool(d) => PoolPartition(s, s', c, now);
    case DropPool(p) => PoolPartition(s, s', c, now);
    case Resize(p, raw, protected) => ResizePartition(s, s', p, raw, protected, now);
    case AddQueue(q) =>
    case EditDemand(q) =>
    case Retire(id) =>
      RetiringKeepsInv(s, s', id, now);
      RetiredTables(s, s', id, now);
      PartitionSame(s.books.pools, s'.books.pools, s.capacities);
    case Retarget(id, target) =>
      RetargetingKeepsInv(s, s', id, target, now);
      RetargetedTables(s, s', id, target, now);
      PartitionSame(s.books.pools, s'.books.pools, s.capacities);
  }

  lemma RewritePartition(s: Fabric, s': Fabric, c: Change, now: u64)
    requires Inv(s) && Changes(s, s', c, now) && c.Rewrites() && PartitionOk(s.books.pools, s.capacities)
    ensures PartitionOk(s'.books.pools, s'.capacities)
  {
    hide Inv, Changes, PartitionOk, Moved;
    var id, r' := RewriteStep(s, s', c, now);
    PartitionSame(s.books.pools, s'.books.pools, s.capacities);
  }

  // ----- Over whole runs -----

  ghost predicate Capped(s: Fabric) { CapsOk(s.books.allocations, s.queues) && PartitionOk(s.books.pools, s.capacities) }

  /** A newly opened fabric is within both caps. */
  lemma EmptyCapped(config: Config, epoch: u64, boot: Boot, memory: nat)
    ensures Capped(Empty(config, epoch, boot, memory))
  {
  }

  /** Both caps hold in every reachable state. */
  lemma {:induction false} CapsTheorem(s: Fabric, calls: seq<Call>)
    requires Inv(s) && Capped(s) && AdmissibleRun(s, calls)
    ensures Capped(Run(s, calls))
    decreases |calls|
  {
    hide Inv, Step, Admissible, Changes, CapsOk, PartitionOk;
    if calls != [] {
      var s' := Step(s, calls[0].op, calls[0].now);
      var c := StepChanges(s, calls[0].op, calls[0].now);
      ChangeKeepsInv(s, s', c, calls[0].now);
      CapsKept(s, s', c, calls[0].now);
      PartitionKept(s, s', c, calls[0].now);
      CapsTheorem(s', calls[1..]);
    }
  }
}
