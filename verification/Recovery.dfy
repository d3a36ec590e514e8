/** Loading the durable image: reservations lapse, the aggregates are rebuilt from the
    records, and the ledger resumes with the same commitments. */
module Recovery {
  import opened Arithmetic
  import opened Sums
  import opened Model
  import opened Grants
  import opened Ledger
  import opened Aggregates
  import opened Invariant
  import opened Index
  import opened Limits
  import opened Runs
  import opened Image
  import opened Crashes
  import opened Mirror

  // ----- Reservations lapse -----

  function LapseAll(records: Records, stamp: u64): Records { map id | id in records :: Lapsed(records[id], stamp) }

  /** The loop of load_from_store that lets reservations lapse. */
  method LapseReservations(records: Records, stamp: u64) returns (r: Records)
    ensures r == LapseAll(records, stamp) && r.Keys == records.Keys
    ensures forall id :: id in records ==>
              r[id] == if records[id].state.Reserved?
                       then records[id].(state := Expired, lastTouched := stamp, revision := (records[id].revision + 1) % TWO64)
                       else records[id]
  {
    r := records;
    var todo := records.Keys;
    while todo != {}
      invariant todo <= records.Keys == r.Keys
      invariant forall id :: id in records ==> r[id] == if id in todo then records[id] else Lapsed(records[id], stamp)
      decreases todo
    {
      var id :| id in todo;
      if r[id].state.Reserved? { r := r[id := Marked(r[id], Expired, stamp)]; }
      todo := todo - {id};
    }
  }

  // ----- Rebuilding the aggregates -----

  ghost function HoldersOf(records: Records, p: u64): set<u64> {
    set id | id in records && records[id].Holds() && records[id].pool == p
  }

  /** Every aggregate is the recomputed total, and the index lists exactly the holders. */
  ghost predicate Rebuilt(pools: Pools, records: Records) {
    && Agrees(pools, records)
    && (forall p :: p in pools ==> pools[p].members == HoldersOf(records, p))
  }

  /** The records charge pools that exist and no total exceeds 64 bits. */
  ghost predicate Countable(pools: Pools, records: Records) {
    && (forall id :: id in records ==> records[id].id == id && Grounded(records[id], pools.Keys))
    && (forall p, a :: p in pools ==> Total(records, a, p) < TWO64)
  }

  function Cleared(e: PoolEntry): PoolEntry { EmptyEntry(e.descriptor, e.capacityGeneration) }

  /** What one record adds to the pool that owns it. */
  function Owned(e: PoolEntry, r: Allocation): PoolEntry {
    e.(pinned := if r.reclaimClass.Pinned? then Wrap(e.pinned + r.units) else e.pinned,
       reclaimable := if r.reclaimClass.Pinned? then e.reclaimable else Wrap(e.reclaimable + r.units),
       reserved := if r.state.Reserved? then Wrap(e.reserved + r.units) else e.reserved,
       committed := if r.state.Reserved? then e.committed else Wrap(e.committed + r.units),
       borrowedIn := Wrap(e.borrowedIn + r.Borrowed()),
       ownUsage := Wrap(e.ownUsage + r.Own()),
       members := e.members + {r.id},
       queueReserved := if r.state.Reserved? then e.queueReserved[r.queue := Wrap(Bucket(e.queueReserved, r.queue) + r.units)]
                        else e.queueReserved,
       queueCommitted := if r.state.Reserved? then e.queueCommitted
                         else e.queueCommitted[r.queue := Wrap(Bucket(e.queueCommitted, r.queue) + r.units)])
  }

  function LentTo(e: PoolEntry, borrowed: u64): PoolEntry {
    e.(lentOut := Wrap(e.lentOut + borrowed), ownUsage := Wrap(e.ownUsage + borrowed))
  }

  /** One turn of the rebuilding loop. */
  function Counted(pools: Pools, r: Allocation): (after: Pools)
    ensures after.Keys == pools.Keys
  {
    if !r.Holds() || r.pool !in pools then pools
    else
      var owned := pools[r.pool := Owned(pools[r.pool], r)];
      if r.Borrowed() != 0 && r.lender != 0 && r.lender in owned
      then owned[r.lender := LentTo(owned[r.lender], r.Borrowed())] else owned
  }

  lemma OwnedField(e: PoolEntry, r: Allocation, a: Aggregate)
    requires r.Holds() && (r.Borrowed() != 0 ==> r.lender != r.pool)
    requires Field(e, a) + Contribution(r, a, r.pool) < TWO64
    ensures Field(Owned(e, r), a) == Field(e, a) + Contribution(r, a, r.pool)
  {
  }

  lemma LentField(e: PoolEntry, r: Allocation, a: Aggregate)
    requires r.Holds() && r.lender != 0 && r.lender != r.pool
    requires Field(e, a) + Contribution(r, a, r.lender) < TWO64
    ensures Field(LentTo(e, r.Borrowed()), a) == Field(e, a) + Contribution(r, a, r.lender)
  {
  }

  /** One turn adds the record's contribution to every aggregate of every pool. */
  lemma CountedFields(pools: Pools, r: Allocation, p: u64, a: Aggregate)
    requires Grounded(r, pools.Keys) && p in pools
    requires Field(pools[p], a) + Contribution(r, a, p) < TWO64
    ensures Field(Counted(pools, r)[p], a) == Field(pools[p], a) + Contribution(r, a, p)
  {
    hide Owned, LentTo;
    if r.Holds() {
      if p == r.pool {
        OwnedField(pools[p], r, a);
      } else if p == r.lender && r.Borrowed() != 0 {
        LentField(pools[p], r, a);
      } else {
        ContributionElsewhere(r, a, p);
      }
    }
  }

  lemma CountedFrame(pools: Pools, r: Allocation, p: u64)
    requires p in pools
    ensures Counted(pools, r)[p].descriptor == pools[p].descriptor
    ensures Counted(pools, r)[p].capacityGeneration == pools[p].capacityGeneration
    ensures Counted(pools, r)[p].members == if r.Holds() && r.pool == p then pools[p].members + {r.id} else pools[p].members
  {
  }

  /** The records counted so far. */
  ghost function Part(records: Records, done: set<u64>): Records { map id | id in records && id in done :: records[id] }

  lemma PartTotal(records: Records, done: set<u64>, id: u64, a: Aggregate, p: u64)
    requires id in records && id !in done
    ensures Total(Part(records, done + {id}), a, p) == Total(Part(records, done), a, p) + Contribution(records[id], a, p)
    ensures Total(Part(records, done + {id}), a, p) <= Total(records, a, p)
  {
    var before, after := Part(records, done), Part(records, done + {id});
    assert after == before[id := records[id]];
    TotalReplaced(before, id, records[id], a, p);
    PartLess(records, done + {id}, a, p);
  }

  lemma PartLess(records: Records, done: set<u64>, a: Aggregate, p: u64)
    ensures Total(Part(records, done), a, p) <= Total(records, a, p)
  {
    var part := Part(records, done);
    SumSubset(part.Keys, records.Keys, Share(part, a, p), Share(records, a, p));
  }

  /** The pools agree with the records counted so far. */
  ghost predicate RebuiltSoFar(pools: Pools, records: Records, done: set<u64>) {
    && Agrees(pools, Part(records, done))
    && (forall p :: p in pools ==> pools[p].members == HoldersOf(Part(records, done), p))
  }

  lemma ClearedStart(before: Pools, after: Pools, records: Records)
    requires after.Keys == before.Keys && forall p :: p in before ==> after[p] == Cleared(before[p])
    ensures RebuiltSoFar(after, records, {})
  {
    assert Part(records, {}) == map[];
    forall p, a | p in after ensures Field(after[p], a) == Total(Part(records, {}), a, p) {
      assert Total(map[], a, p) == 0;
    }
  }

  lemma CountOne(pools: Pools, records: Records, done: set<u64>, id: u64)
    requires Countable(pools, records) && RebuiltSoFar(pools, records, done) && id in records && id !in done
    ensures RebuiltSoFar(Counted(pools, records[id]), records, done + {id})
  {
    hide Counted;
    var after := Counted(pools, records[id]);
    forall p, a | p in after ensures Field(after[p], a) == Total(Part(records, done + {id}), a, p) {
      PartTotal(records, done, id, a, p);
      assert Field(pools[p], a) == Total(Part(records, done), a, p);
      CountedFields(pools, records[id], p, a);
    }
    forall p | p in after ensures after[p].members == HoldersOf(Part(records, done + {id}), p) {
      CountedFrame(pools, records[id], p);
      assert pools[p].members == HoldersOf(Part(records, done), p);
    }
  }

  lemma CountableSame(pools: Pools, pools': Pools, records: Records)
    requires Countable(pools, records) && pools'.Keys == pools.Keys
    ensures Countable(pools', records)
  {
  }

  lemma PartWhole(records: Records, done: set<u64>)
    requires records.Keys <= done
    ensures Part(records, done) == records
  {
  }

  /** rebuild_aggregates: clears every pool, then counts each record once, in whatever
      order the table yields them. When the records are countable the result agrees with
      them exactly and the member index is complete. */
  method RebuildAggregates(pools: Pools, records: Records) returns (r: Pools)
    ensures SameTopology(pools, r)
    ensures Countable(pools, records) ==> Rebuilt(r, records)
  {
    r := map p | p in pools :: Cleared(pools[p]);
    ClearedStart(pools, r, records);
    var todo := records.Keys;
    while todo != {}
      invariant todo <= records.Keys && SameTopology(pools, r)
      invariant Countable(pools, records) ==> RebuiltSoFar(r, records, records.Keys - todo)
      decreases todo
    {
      var id :| id in todo;
      ghost var before, done := r, records.Keys - todo;
      r := Counted(r, records[id]);
      todo := todo - {id};
      assert records.Keys - todo == done + {id};
      forall p | p in pools
        ensures r[p].descriptor == pools[p].descriptor && r[p].capacityGeneration == pools[p].capacityGeneration
      {
        CountedFrame(before, records[id], p);
      }
      if Countable(pools, records) {
        CountableSame(pools, before, records);
        CountOne(before, records, done, id);
      }
    }
    PartWhole(records, records.Keys - todo);
  }

  // ----- The recovered ledger -----

  /** s' is what load_from_store leaves, given what was read from disk. */
  ghost predicate Loaded(l: Live, stamp: u64, s': Fabric) {
    && PoolsImage(s'.books.pools) == l.core.pools && s'.policies == l.core.policies && s'.capacities == l.core.capacities
    && s'.books.allocations == LapseAll(l.core.allocations, stamp) && s'.queues == l.queues
    && s'.books.nextAllocation == l.next
    && (Countable(s'.books.pools, s'.books.allocations) ==> Rebuilt(s'.books.pools, s'.books.allocations))
  }

  /** The record a live one comes back as: the same, or expired if it was not committed. */
  predicate LoadsAs(r: Allocation, r': Allocation) {
    || (r' == r && !r.state.Reserved?)
    || (!r'.Holds() && !r.state.Committed? && r'.id == r.id)
  }

  ghost predicate LoadsFrom(records: Records, records': Records) {
    records'.Keys == records.Keys && forall id :: id in records ==> LoadsAs(records[id], records'[id])
  }

  /** A reservation lapsed earlier, in memory only, lapses again from the disk. */
  lemma LapseLoads(core: Core, live: Core, stamp: u64, stamp': u64)
    requires UpToLapse(core, live, stamp)
    ensures LoadsFrom(live.allocations, LapseAll(core.allocations, stamp'))
  {
    forall id: u64
      ensures id in live.allocations <==> id in core.allocations
      ensures id in live.allocations ==> LoadsAs(live.allocations[id], LapseAll(core.allocations, stamp')[id])
    {
      assert SameUpToLapse(At(core, AllocationKey(id)), At(live, AllocationKey(id)), stamp);
    }
  }

  lemma SameOtherTables(core: Core, live: Core, stamp: u64)
    requires UpToLapse(core, live, stamp)
    ensures core.pools == live.pools && core.policies == live.policies && core.capacities == live.capacities
  {
    hide UpToLapse;
    forall k: Key | !k.AllocationKey? ensures At(core, k) == At(live, k) { SameCell(core, live, stamp, k); }
    SameEverywhere(core.(allocations := map[]), live.(allocations := map[])) by {
      forall k ensures At(core.(allocations := map[]), k) == At(live.(allocations := map[]), k) {
        if !k.AllocationKey? { assert At(core, k) == At(live, k); }
      }
    }
  }

  lemma SameCell(core: Core, live: Core, stamp: u64, k: Key)
    requires UpToLapse(core, live, stamp) && !k.AllocationKey?
    ensures At(core, k) == At(live, k)
  {
    assert SameUpToLapse(At(core, k), At(live, k), stamp);
  }

  lemma LapseOne(r: Allocation, r': Allocation, a: Aggregate, p: u64)
    requires LoadsAs(r, r')
    ensures Contribution(r', a, p) <= Contribution(r, a, p)
    ensures a.InCommitted? || a.InQueueCommitted? ==> Contribution(r', a, p) == Contribution(r, a, p)
    ensures a.InReserved? || a.InQueueReserved? ==> Contribution(r', a, p) == 0
  {
  }

  lemma LapseShare(records: Records, after: Records, a: Aggregate, p: u64)
    requires LoadsFrom(records, after)
    ensures Total(after, a, p) <= Total(records, a, p)
    ensures a.InCommitted? || a.InQueueCommitted? ==> Total(after, a, p) == Total(records, a, p)
    ensures a.InReserved? || a.InQueueReserved? ==> Total(after, a, p) == 0
  {
    hide SumOver, Contribution, LoadsAs;
    forall id | id in records
      ensures Share(after, a, p)(id) <= Share(records, a, p)(id)
      ensures a.InCommitted? || a.InQueueCommitted? ==> Share(after, a, p)(id) == Share(records, a, p)(id)
      ensures a.InReserved? || a.InQueueReserved? ==> Share(after, a, p)(id) == 0
    {
      LapseOne(records[id], after[id], a, p);
    }
    assert after.Keys == records.Keys;
    SumMonotone(records.Keys, Share(after, a, p), Share(records, a, p));
    if a.InCommitted? || a.InQueueCommitted? { SumCongruent(records.Keys, Share(after, a, p), Share(records, a, p)); }
    if a.InReserved? || a.InQueueReserved? { SumZero(after.Keys, Share(after, a, p)); }
  }

  lemma ImageTopology(pools: Pools, pools': Pools)
    requires PoolsImage(pools') == PoolsImage(pools)
    ensures SameTopology(pools, pools')
  {
    assert pools.Keys == PoolsImage(pools).Keys && pools'.Keys == PoolsImage(pools').Keys;
    forall p | p in pools
      ensures pools'[p].descriptor == pools[p].descriptor && pools'[p].capacityGeneration == pools[p].capacityGeneration
    {
      assert PoolsImage(pools)[p] == PoolsImage(pools')[p];
    }
  }

  lemma LapsedCountable(b: Books, queues: map<u64, Queue>, pools': Pools, after: Records)
    requires BooksOk(b, queues) && pools'.Keys == b.pools.Keys && LoadsFrom(b.allocations, after)
    ensures Countable(pools', after)
  {
    hide Forest, Indexed, Total;
    forall id | id in after ensures after[id].id == id && Grounded(after[id], pools'.Keys) {
      assert b.allocations[id].Holds() ==> HolderOk(b.allocations[id], b.pools, queues);
    }
    forall p, a | p in pools' ensures Total(after, a, p) < TWO64 {
      LapseShare(b.allocations, after, a, p);
      assert Field(b.pools[p], a) == Total(b.allocations, a, p);
    }
  }

  lemma LapsedRecordsOk(records: Records, after: Records, pools: Pools, pools': Pools, queues: map<u64, Queue>, queues': map<u64, Queue>)
    requires RecordsOk(records, pools, queues) && pools'.Keys == pools.Keys && LoadsFrom(records, after) && Knows(queues', queues)
    ensures RecordsOk(after, pools', queues')
  {
    forall id | id in after ensures after[id].id == id && (after[id].Holds() ==> HolderOk(after[id], pools', queues')) {
      assert records[id].Holds() ==> HolderOk(records[id], pools, queues);
    }
  }

  /** Each total after loading, compared with the live one before the crash. */
  lemma LoadedFields(b: Books, b': Books, p: u64, a: Aggregate)
    requires Agrees(b.pools, b.allocations) && Agrees(b'.pools, b'.allocations) && p in b.pools && p in b'.pools
    requires LoadsFrom(b.allocations, b'.allocations)
    ensures Field(b'.pools[p], a) <= Field(b.pools[p], a)
    ensures a.InCommitted? || a.InQueueCommitted? ==> Field(b'.pools[p], a) == Field(b.pools[p], a)
    ensures a.InReserved? || a.InQueueReserved? ==> Field(b'.pools[p], a) == 0
  {
    hide LoadsFrom;
    LapseShare(b.allocations, b'.allocations, a, p);
  }

  lemma RebuiltIndex(b: Books)
    requires Rebuilt(b.pools, b.allocations)
    ensures Indexed(b.pools, b.allocations) && Complete(b)
  {
    hide Agrees;
  }

  lemma LoadedRange(b: Books, b': Books)
    requires Agrees(b.pools, b.allocations) && InRange(b.pools) && Agrees(b'.pools, b'.allocations) && b'.pools.Keys == b.pools.Keys
    requires LoadsFrom(b.allocations, b'.allocations)
    ensures InRange(b'.pools)
  {
    hide Agrees, LoadsFrom;
    forall p | p in b'.pools ensures b'.pools[p].ownUsage <= TWO61 && b'.pools[p].borrowedIn <= TWO60 {
      LoadedFields(b, b', p, InOwn);
      LoadedFields(b, b', p, InBorrowed);
    }
  }

  lemma LoadedBooks(b: Books, b': Books, queues: map<u64, Queue>, queues': map<u64, Queue>)
    requires BooksOk(b, queues) && SameTopology(b.pools, b'.pools) && LoadsFrom(b.allocations, b'.allocations)
    requires Knows(queues', queues)
    requires Rebuilt(b'.pools, b'.allocations)
    ensures BooksOk(b', queues') && Complete(b')
  {
    hide Forest, RootedWithin, Agrees, Indexed, Complete, RecordsOk, LoadsFrom, InRange, PoolsOk, HoldersOf, Knows;
    SameTopologyKeeps(b.pools, b'.pools);
    LapsedRecordsOk(b.allocations, b'.allocations, b.pools, b'.pools, queues, queues');
    LoadedRange(b, b');
    RebuiltIndex(b');
  }

  lemma LoadedTables(s: Fabric, s': Fabric, l: Live, stamp: u64, stamp': u64)
    requires Inv(s) && UpToLapse(l.core, Tables(s), stamp) && Loaded(l, stamp', s')
    ensures SameTopology(s.books.pools, s'.books.pools) && s'.policies == s.policies && s'.queues == l.queues
    ensures LoadsFrom(s.books.allocations, s'.books.allocations) && Rebuilt(s'.books.pools, s'.books.allocations)
  {
    hide BooksOk, PoolsImage, LapseAll, Countable, Rebuilt, UpToLapse, LoadsFrom;
    SameOtherTables(l.core, Tables(s), stamp);
    LapseLoads(l.core, Tables(s), stamp, stamp');
    ImageTopology(s.books.pools, s'.books.pools);
    LapsedCountable(s.books, s.queues, s'.books.pools, s'.books.allocations);
  }

  lemma LoadedTotals(b: Books, b': Books, p: u64)
    requires Agrees(b.pools, b.allocations) && Agrees(b'.pools, b'.allocations) && p in b.pools && p in b'.pools
    requires LoadsFrom(b.allocations, b'.allocations)
    ensures b'.pools[p].committed == b.pools[p].committed && b'.pools[p].reserved == 0
    ensures b'.pools[p].ownUsage <= b.pools[p].ownUsage
  {
    hide Agrees, LoadsFrom;
    LoadedFields(b, b', p, InCommitted);
    LoadedFields(b, b', p, InReserved);
    LoadedFields(b, b', p, InOwn);
  }

  /** s' took over from s: it satisfies the whole invariant, its member index is complete,
      every pool has the committed units it had and no reserved ones, its usage has not
      grown, and borrowing and lending balance. */
  ghost predicate Resumes(s: Fabric, s': Fabric) {
    && Inv(s') && Complete(s'.books) && s'.books.pools.Keys == s.books.pools.Keys
    && (forall p :: p in s.books.pools ==>
          && p in s'.books.pools && s'.books.pools[p].committed == s.books.pools[p].committed
          && s'.books.pools[p].reserved == 0 && s'.books.pools[p].ownUsage <= s.books.pools[p].ownUsage)
    && (Limited(s.books.pools, s.policies) ==> Limited(s'.books.pools, s'.policies))
    && SumOver(s'.books.pools.Keys, PoolField(s'.books.pools, InBorrowed))
       == SumOver(s'.books.pools.Keys, PoolField(s'.books.pools, InLent))
  }

  /** Recovery: whatever live ledger the tables on disk stand for, up to reservations that
      already lapsed in memory, the loaded one resumes it, whatever its next allocation id. */
  lemma RecoveryTheorem(s: Fabric, s': Fabric, l: Live, stamp: u64, stamp': u64)
    requires Inv(s) && UpToLapse(l.core, Tables(s), stamp) && Loaded(l, stamp', s')
    requires QueuesOk(l.queues) && Knows(l.queues, s.queues)
    ensures Resumes(s, s')
  {
    hide Inv, Loaded, Rebuilt, UpToLapse, LoadsFrom, Limited, Complete, SumOver, Knows, QueuesOk;
    LoadedTables(s, s', l, stamp, stamp');
    LoadedInv(s, s');
    forall p | p in s.books.pools
      ensures p in s'.books.pools && s'.books.pools[p].committed == s.books.pools[p].committed
      ensures s'.books.pools[p].reserved == 0 && s'.books.pools[p].ownUsage <= s.books.pools[p].ownUsage
    {
      LoadedPool(s, s', p);
    }
    if Limited(s.books.pools, s.policies) { LessUsageLimited(s.books.pools, s'.books.pools, s.policies); }
  }

  lemma LoadedInv(s: Fabric, s': Fabric)
    requires Inv(s) && SameTopology(s.books.pools, s'.books.pools) && s'.policies == s.policies
    requires LoadsFrom(s.books.allocations, s'.books.allocations) && Rebuilt(s'.books.pools, s'.books.allocations)
    requires QueuesOk(s'.queues) && Knows(s'.queues, s.queues)
    ensures Inv(s') && Complete(s'.books)
    ensures SumOver(s'.books.pools.Keys, PoolField(s'.books.pools, InBorrowed))
         == SumOver(s'.books.pools.Keys, PoolField(s'.books.pools, InLent))
  {
    hide BooksOk, Rebuilt, LoadsFrom, Complete, SumOver, Knows, QueuesOk;
    LoadedBooks(s.books, s'.books, s.queues, s'.queues);
    BalancedBooks(s'.books, s'.queues);
  }

  lemma LoadedPool(s: Fabric, s': Fabric, p: u64)
    requires Inv(s) && Inv(s') && LoadsFrom(s.books.allocations, s'.books.allocations)
    requires p in s.books.pools && SameTopology(s.books.pools, s'.books.pools)
    ensures p in s'.books.pools && s'.books.pools[p].committed == s.books.pools[p].committed
    ensures s'.books.pools[p].reserved == 0 && s'.books.pools[p].ownUsage <= s.books.pools[p].ownUsage
  {
    hide Agrees, LoadsFrom, RecordsOk, Indexed, Forest, InRange, PoolsOk;
    LoadedTotals(s.books, s'.books, p);
  }

  lemma BalancedBooks(b: Books, queues: map<u64, Queue>)
    requires BooksOk(b, queues)
    ensures SumOver(b.pools.Keys, PoolField(b.pools, InBorrowed)) == SumOver(b.pools.Keys, PoolField(b.pools, InLent))
  {
    forall id | id in b.allocations ensures Grounded(b.allocations[id], b.pools.Keys) {
      assert b.allocations[id].Holds() ==> HolderOk(b.allocations[id], b.pools, queues);
    }
    BorrowedEqualsLent(b.pools, b.allocations);
  }

  // ----- A crash anywhere in a run -----

  function LiveOf(s: Fabric): Live { Live(Tables(s), s.queues, s.books.nextAllocation) }

  /** The session after a recovery starts from a disk that stands for its live tables,
      although the reservations it let lapse are still reserved there. */
  lemma LoadedStands(d: Disk, stamp: u64, s': Fabric)
    requires Loaded(FromDisk(d), stamp, s') && WholeQueues(d.journal) && QueuesOk(RecoverQueues(d))
    ensures Stands(d, LiveOf(s'), stamp)
  {
    hide Recover, RecoverQueues, QueuesOk, PoolsImage, Countable, Rebuilt;
    var core := Recover(d);
    assert Tables(s') == core.(allocations := LapseAll(core.allocations, stamp));
    forall k ensures SameUpToLapse(At(core, k), At(Tables(s'), k), stamp) { LapsedAt(core, stamp, k); }
  }

  lemma NextSession(d: Disk, l: Live, s': Fabric, stamp: u64, stamp': u64)
    requires Stands(d, l, stamp) && Loaded(FromDisk(d), stamp', s')
    ensures Stands(d, LiveOf(s'), stamp')
  {
    hide Recover, RecoverQueues, UpToLapse, Loaded, QueuesOk, Knows;
    LoadedStands(d, stamp', s');
  }

  /** An empty directory: no snapshot, so the counter a fabric starts with, and no journal. */
  function EmptyDisk(): Disk { Disk(Live(Core(map[], map[], map[], map[]), map[], 1), []) }

  /** It stands for a newly opened fabric. */
  lemma FreshStands(config: Config, epoch: u64, boot: Boot, memory: nat, stamp: u64)
    ensures Stands(EmptyDisk(), LiveOf(Empty(config, epoch, boot, memory)), stamp)
  {
    var s := Empty(config, epoch, boot, memory);
    assert PoolsImage(s.books.pools) == map[];
    SnapshotStands(LiveOf(s), stamp);
  }

  lemma LapsedAt(c: Core, stamp: u64, k: Key)
    ensures SameUpToLapse(At(c, k), At(c.(allocations := LapseAll(c.allocations, stamp)), k), stamp)
  {
  }

  /** What the disk stands for, recovery resumes. */
  lemma StandingRecovers(d: Disk, m: Fabric, s': Fabric, stamp: u64, stamp': u64)
    requires Inv(m) && Stands(d, LiveOf(m), stamp) && Loaded(FromDisk(d), stamp', s')
    ensures Resumes(m, s')
  {
    hide Recover, RecoverQueues, Inv, UpToLapse, Loaded, Resumes, QueuesOk, Knows;
    RecoveryTheorem(m, s', FromDisk(d), stamp, stamp');
  }

  /** The ledger after the first n records of a run. */
  lemma PrefixLedger(s: Fabric, s': Fabric, js: seq<JournalRecord>, es: seq<Event>, n: nat) returns (m: Fabric)
    requires Reaches(s, s', js) && n <= |es| && |RecordsOf(es[..n])| <= |js| && RecordsOf(es[..n]) == js[..|RecordsOf(es[..n])|]
    ensures Inv(m) && LiveAfter(LiveOf(s), es[..n]) == LiveOf(m)
    ensures Tables(m) == Replay(Tables(s), js[..|RecordsOf(es[..n])|])
  {
    hide Inv, Tables, Replay, ReplayLive, ReplayNext, LiveAfter, RecordsOf;
    var done := RecordsOf(es[..n]);
    m :| Inv(m) && Logged(s, m, js[..|done|]);
    LiveAfterIs(LiveOf(s), es[..n]);
  }

  lemma {:induction false} RecordsPrefix(es: seq<Event>, n: nat)
    requires n <= |es|
    ensures |RecordsOf(es[..n])| <= |RecordsOf(es)| && RecordsOf(es[..n]) == RecordsOf(es)[..|RecordsOf(es[..n])|]
    decreases |es|
  {
    if n == |es| {
      assert es[..n] == es;
    } else {
      assert es[..|es| - 1][..n] == es[..n];
      RecordsPrefix(es[..|es| - 1], n);
    }
  }

  lemma JournalIs(s: Fabric, s': Fabric, js: seq<JournalRecord>, ks: seq<JournalRecord>)
    requires Logged(s, s', js) && s'.books.journal == s.books.journal + ks
    ensures js == ks
  {
    assert js == s'.books.journal[|s.books.journal|..] == ks;
  }

  /** As in remove_pool, a removed pool leaves the live tables only after its record. */
  predicate RemovesLast(es: seq<Event>) {
    forall i :: 0 <= i < |es| && es[i].Journaled? && es[i].applied ==> !es[i].record.PoolRemoved?
  }

  lemma RecordIndex(es: seq<Event>, i: nat) returns (k: nat)
    requires i < |es| && es[i].Journaled?
    ensures k < |RecordsOf(es)| && RecordsOf(es)[k] == es[i].record
  {
    RecordsPrefix(es, i + 1);
    assert es[..i + 1][..i] == es[..i];
    k := |RecordsOf(es[..i])|;
  }

  lemma RunLogged(s: Fabric, calls: seq<Call>, es: seq<Event>)
    requires Inv(s) && AdmissibleRun(s, calls) && Run(s, calls).books.journal == s.books.journal + RecordsOf(es)
    ensures Reaches(s, Run(s, calls), RecordsOf(es)) && Logged(s, Run(s, calls), RecordsOf(es))
  {
    hide Inv, Run, AdmissibleRun, RecordsOf, Logged;
    var js := MirrorTheorem(s, calls);
    JournalIs(s, Run(s, calls), js, RecordsOf(es));
  }

  /** Whatever a run journals is writable. */
  lemma RunWritable(s: Fabric, s': Fabric, es: seq<Event>)
    requires Logged(s, s', RecordsOf(es))
    requires RemovesLast(es)
    ensures AllWritable(es)
  {
    forall i | 0 <= i < |es| ensures Writable(es[i]) {
      if es[i].Journaled? {
        var k := RecordIndex(es, i);
        assert Sane(RecordsOf(es)[k], s.epoch);
      }
    }
  }

  // ----- The next id after a restart -----

  /** The ids of the allocation records in a journal. */
  ghost predicate Journals(js: seq<JournalRecord>, id: u64) {
    exists i :: 0 <= i < |js| && js[i].AllocationUpsert? && js[i].allocation.id == id
  }

  /** No record ever removes an allocation. */
  lemma {:induction false} ReplayAllocations(c: Core, js: seq<JournalRecord>, id: u64)
    ensures id in Replay(c, js).allocations <==> id in c.allocations || Journals(js, id)
    decreases |js|
  {
    if js != [] {
      ReplayAllocations(Apply(c, js[0]), js[1..], id);
      assert forall i :: 0 <= i < |js[1..]| ==> js[1..][i] == js[i + 1];
      assert forall i :: 0 < i < |js| ==> js[i] == js[1..][i - 1];
    }
  }

  /** Every record on disk has an id below the counter the snapshot carries. The journal never
      raises the counter, so a grant since the snapshot is enough to break this. */
  ghost predicate Numbered(d: Disk) {
    var next := OneIfZero(d.snapshot.next);
    && IdsFresh(d.snapshot.core.allocations, next)
    && forall i :: 0 <= i < |d.journal| && d.journal[i].AllocationUpsert? ==> d.journal[i].allocation.id < next
  }

  /** After a restart every later id is unused exactly if the disk is numbered. */
  lemma NextIdFreshIff(d: Disk, stamp: u64, s': Fabric)
    requires Loaded(FromDisk(d), stamp, s')
    ensures IdsFresh(s'.books.allocations, s'.books.nextAllocation) <==> Numbered(d)
  {
    hide Replay, PoolsImage, Countable, Rebuilt;
    var core := d.snapshot.core;
    forall id ensures id in Recover(d).allocations <==> id in core.allocations || Journals(d.journal, id) {
      ReplayAllocations(core, d.journal, id);
    }
    forall i | 0 <= i < |d.journal| && d.journal[i].AllocationUpsert?
      ensures d.journal[i].allocation.id in s'.books.allocations
    {
      assert Journals(d.journal, d.journal[i].allocation.id);
    }
    forall id | id in core.allocations ensures id in s'.books.allocations {
      assert id in Recover(d).allocations;
    }
  }

  /** A grant journaled since the last snapshot is enough: the snapshot's counter is at most
      the id the grant took, whether or not the fabric was closed in good order. */
  lemma GrantUnnumbers(l: Live, r: JournalRecord, d: Disk)
    requires IsGrant(l.core, l.next, r) && r in d.journal && OneIfZero(d.snapshot.next) <= l.next
    ensures !Numbered(d)
  {
    var i :| 0 <= i < |d.journal| && d.journal[i] == r;
    assert d.journal[i].AllocationUpsert?;
  }

  /** A session that runs the calls from s on disk d, writing these events. */
  ghost predicate SessionOf(s: Fabric, calls: seq<Call>, d: Disk, stamp: u64, es: seq<Event>) {
    && Inv(s) && AdmissibleRun(s, calls) && Stands(d, LiveOf(s), stamp)
    && Run(s, calls).books.journal == s.books.journal + RecordsOf(es) && RemovesLast(es)
  }

  /** The run theorem of durability. Start from a disk that stands for the ledger, take any
      run, any interleaving of its records with compactions and checkpoints, and stop
      anywhere in it: between two fences of one operation, between the rename of a snapshot
      and the truncation of the journal, before or after any append. Recovery resumes a
      ledger of the run: the one with all records of the events before, or the one with the
      interrupted event's record as well. The disk then stands for what was loaded. Every
      later id is unused exactly if the disk is numbered. */
  lemma CrashTheorem(s: Fabric, calls: seq<Call>, d: Disk, stamp: u64, es: seq<Event>, i: nat, at: CrashPoint,
                     s': Fabric, stamp': u64) returns (m: Fabric)
    requires SessionOf(s, calls, d, stamp, es) && i < |es|
    requires Loaded(FromDisk(Stopped(d, LiveOf(s), es, i, at)), stamp', s')
    ensures Inv(m) && Resumes(m, s')
    ensures || Tables(m) == Replay(Tables(s), RecordsOf(es[..i]))
            || Tables(m) == Replay(Tables(s), RecordsOf(es[..i + 1]))
    ensures Stands(Stopped(d, LiveOf(s), es, i, at), LiveOf(s'), stamp')
    ensures IdsFresh(s'.books.allocations, s'.books.nextAllocation) <==> Numbered(Stopped(d, LiveOf(s), es, i, at))
  {
    hide Inv, Stands, Stopped, Run, AdmissibleRun, Resumes, Loaded, FromDisk, Tables, Replay, RecordsOf, LiveAfter;
    hide AllWritable, Logged, RemovesLast, IdsFresh, Numbered;
    RunLogged(s, calls, es);
    RunWritable(s, Run(s, calls), es);
    StoppedStands(d, LiveOf(s), es, i, at, stamp);
    var d' := Stopped(d, LiveOf(s), es, i, at);
    var n := if Stands(d', LiveAfter(LiveOf(s), es[..i]), stamp) then i else i + 1;
    RecordsPrefix(es, n);
    m := PrefixLedger(s, Run(s, calls), RecordsOf(es), es, n);
    StandingRecovers(d', m, s', stamp, stamp');
    NextSession(d', LiveOf(m), s', stamp, stamp');
    NextIdFreshIff(d', stamp', s');
  }
}
