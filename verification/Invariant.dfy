/** What every reachable ledger satisfies, and how fencing preserves it. */
module Invariant {
  import opened Arithmetic
  import opened Model
  import opened Grants
  import opened Ledger
  import opened Aggregates

  // ----- The invariant -----

  ghost predicate PoolOk(e: PoolEntry, p: u64) {
    e.descriptor.id == p && e.descriptor.Validate() == OK
  }

  ghost predicate PoolsOk(pools: Pools) { forall p :: p in pools ==> PoolOk(pools[p], p) }

  ghost predicate PoliciesOk(policies: map<u64, Policy>) {
    forall k :: k in policies ==> policies[k].Valid() && policies[k].id == k
  }

  ghost predicate Governed(pools: Pools, policies: map<u64, Policy>) {
    forall p :: p in pools ==> pools[p].descriptor.policy in policies
  }

  ghost predicate QueuesOk(queues: map<u64, Queue>) { forall q :: q in queues ==> queues[q].id == q && |queues[q].name| <= MAX_NAME }

  /** A record that holds units has a size, charges pools that exist, and sits in its
      queue's current pool. */
  ghost predicate HolderOk(r: Allocation, pools: Pools, queues: map<u64, Queue>) {
    && 0 < r.units <= MAX_UNITS && r.borrow <= r.units
    && Grounded(r, pools.Keys)
    && r.queue in queues && queues[r.queue].pool == r.pool
  }

  ghost predicate RecordsOk(records: Records, pools: Pools, queues: map<u64, Queue>) {
    forall id :: id in records ==>
      records[id].id == id && (records[id].Holds() ==> HolderOk(records[id], pools, queues))
  }

  /** No aggregate comes near the 64-bit limit. */
  ghost predicate InRange(pools: Pools) {
    forall p :: p in pools ==> pools[p].ownUsage <= TWO61 && pools[p].borrowedIn <= TWO60
  }

  /** The member index lists only records of the pool that hold units. */
  ghost predicate Indexed(pools: Pools, records: Records) {
    forall p, id :: p in pools && id in pools[p].members ==>
      id in records && records[id].Holds() && records[id].pool == p
  }

  /** Following parents from p reaches a root within n steps. */
  ghost predicate RootedWithin(pools: Pools, p: u64, n: nat)
    decreases n
  {
    p in pools && (pools[p].descriptor.parent == 0 || (n > 0 && RootedWithin(pools, pools[p].descriptor.parent, n - 1)))
  }

  ghost predicate Forest(pools: Pools) {
    forall p {:trigger RootedWithin(pools, p, MAX_DEPTH)} :: p in pools ==> RootedWithin(pools, p, MAX_DEPTH)
  }

  /** The books are well formed and the live totals are the recomputed ones. */
  ghost predicate BooksOk(b: Books, queues: map<u64, Queue>) {
    && PoolsOk(b.pools) && RecordsOk(b.allocations, b.pools, queues)
    && Agrees(b.pools, b.allocations) && InRange(b.pools) && Indexed(b.pools, b.allocations) && Forest(b.pools)
  }

  /** The next id is unused, or names a record that holds no units. Runs from an empty store
      keep every id from the next one on unused; a restart may not. */
  predicate NextIdFree(b: Books) {
    b.nextAllocation in b.allocations ==> !b.allocations[b.nextAllocation].Holds()
  }

  /** Allocation ids still to be handed out are unused. */
  ghost predicate IdsFresh(records: Records, next: u64) { forall id :: id in records ==> id < next }

  ghost predicate Inv(s: Fabric) {
    && PoliciesOk(s.policies) && Governed(s.books.pools, s.policies) && QueuesOk(s.queues)
    && BooksOk(s.books, s.queues)
  }

  // ----- Immediate consequences -----

  /** The aggregates of one pool are consistent, and none of them can wrap. */
  ghost predicate EntryConsistent(e: PoolEntry) {
    && e.reserved + e.committed == e.pinned + e.reclaimable
    && e.reserved + e.committed + e.lentOut == e.ownUsage + e.borrowedIn
    && e.borrowedIn <= e.reserved + e.committed
    && e.ownUsage <= TWO61 && e.borrowedIn <= TWO60
  }

  lemma EntryFacts(pools: Pools, records: Records, p: u64)
    requires Agrees(pools, records) && InRange(pools) && p in pools
    ensures EntryConsistent(pools[p])
  {
    var e := pools[p];
    PoolIdentity(records, p);
    var live := OfRecords(records, p);
    assert live(InReserved) == Field(e, InReserved) && live(InCommitted) == Field(e, InCommitted);
    assert live(InPinned) == Field(e, InPinned) && live(InReclaimable) == Field(e, InReclaimable);
    assert live(InOwn) == Field(e, InOwn) && live(InBorrowed) == Field(e, InBorrowed);
    assert live(InLent) == Field(e, InLent);
  }

  ghost predicate WithinAllowance(e: PoolEntry, policy: Policy) { e.ownUsage <= e.Usable() + policy.Allowance() }

  /** In every state satisfying the invariant the closure check on a pool succeeds exactly
      when its own usage is within usable capacity plus the policy's overcommit allowance. */
  lemma ClosureIff(s: Fabric, p: u64)
    requires Inv(s) && p in s.books.pools
    ensures PoolCloses(s.policies, s.books.pools[p])
       <==> WithinAllowance(s.books.pools[p], s.policies[s.books.pools[p].descriptor.policy])
  {
    EntryFacts(s.books.pools, s.books.allocations, p);
    ClosesIffWithinAllowance(s.books.pools[p], s.policies[s.books.pools[p].descriptor.policy]);
  }

  lemma HolderCovered(pools: Pools, records: Records, id: u64)
    requires Agrees(pools, records) && id in records
    ensures Covers(pools, records[id])
  {
    forall p, a | p in pools ensures Contribution(records[id], a, p) <= Field(pools[p], a) {
      TotalCovers(records, id, a, p);
    }
  }

  lemma {:induction false} RootedSame(before: Pools, after: Pools, p: u64, n: nat)
    requires SameTopology(before, after) && RootedWithin(before, p, n)
    ensures RootedWithin(after, p, n)
    decreases n
  {
    if before[p].descriptor.parent != 0 { RootedSame(before, after, before[p].descriptor.parent, n - 1); }
  }

  /** Everything that depends on descriptors alone survives a change of aggregates. */
  lemma SameTopologyKeeps(before: Pools, after: Pools)
    requires SameTopology(before, after) && PoolsOk(before) && Forest(before)
    ensures PoolsOk(after) && Forest(after)
  {
    forall p | p in after ensures RootedWithin(after, p, MAX_DEPTH) {
      assert RootedWithin(before, p, MAX_DEPTH);
      RootedSame(before, after, p, MAX_DEPTH);
    }
  }

  // ----- Fencing -----

  /** A record is untouched, or has let go of its units. */
  ghost predicate LetGo(r: Allocation, r': Allocation) {
    || r' == r
    || (r.Holds() && !r'.Holds()
        && r' == r.(state := r'.state, lastTouched := r'.lastTouched, revision := r'.revision))
  }

  ghost predicate RecordsShrunk(records: Records, records': Records) {
    records'.Keys == records.Keys && forall id :: id in records ==> LetGo(records[id], records'[id])
  }

  ghost predicate FieldsShrunk(pools: Pools, pools': Pools) {
    && SameTopology(pools, pools')
    && forall p, a :: p in pools ==> Field(pools'[p], a) <= Field(pools[p], a)
  }

  /** The index loses exactly the records that let go. */
  ghost predicate IndexShrunk(b: Books, b': Books) {
    forall p, id {:trigger id in b'.pools[p].members} {:trigger id in b.pools[p].members} ::
      p in b.pools && p in b'.pools ==>
        (id in b'.pools[p].members <==>
         && id in b.pools[p].members
         && (id in b.allocations && id in b'.allocations ==> b'.allocations[id] == b.allocations[id]))
  }

  /** What any run of fences does to the books: some holders let go of their units, and
      nothing else moves. */
  ghost predicate Shrunk(b: Books, b': Books) {
    && b'.nextAllocation == b.nextAllocation
    && FieldsShrunk(b.pools, b'.pools)
    && RecordsShrunk(b.allocations, b'.allocations)
    && IndexShrunk(b, b')
  }

  lemma FieldsShrunkTransitive(a: Pools, b: Pools, c: Pools)
    requires FieldsShrunk(a, b) && FieldsShrunk(b, c)
    ensures FieldsShrunk(a, c)
  {
    forall p, g | p in a ensures Field(c[p], g) <= Field(a[p], g) {
      assert Field(b[p], g) <= Field(a[p], g);
    }
  }

  lemma RecordsShrunkTransitive(a: Records, b: Records, c: Records)
    requires RecordsShrunk(a, b) && RecordsShrunk(b, c)
    ensures RecordsShrunk(a, c)
    ensures forall id :: id in a ==> (c[id] == a[id] <==> c[id] == b[id] && b[id] == a[id])
  {
    forall id | id in a ensures LetGo(a[id], c[id]) && (c[id] == a[id] <==> c[id] == b[id] && b[id] == a[id]) {
      assert LetGo(a[id], b[id]) && LetGo(b[id], c[id]);
    }
  }

  lemma ShrunkTransitive(a: Books, b: Books, c: Books)
    requires Shrunk(a, b) && Shrunk(b, c)
    ensures Shrunk(a, c)
  {
    FieldsShrunkTransitive(a.pools, b.pools, c.pools);
    RecordsShrunkTransitive(a.allocations, b.allocations, c.allocations);
  }

  lemma ShrunkRefl(b: Books)
    ensures Shrunk(b, b)
  {
  }

  /** The books after a fence of record `id`, apart from the pools. */
  ghost predicate MarkedIn(b: Books, b': Books, id: u64, to: AllocationState, now: u64)
    requires id in b.allocations
  {
    var r' := Marked(b.allocations[id], to, now);
    && b'.allocations == b.allocations[id := r'] && b'.nextAllocation == b.nextAllocation
    && b'.journal == b.journal + [AllocationUpsert(OpFor(to), r')]
  }

  /** Fencing one holder succeeds: it cannot reach an error branch. */
  lemma FenceOneShape(b: Books, queues: map<u64, Queue>, id: u64, to: AllocationState, now: u64)
    requires Agrees(b.pools, b.allocations) && RecordsOk(b.allocations, b.pools, queues)
    requires id in b.allocations && b.allocations[id].Holds()
    ensures FenceOne(b, id, to, now).1 == OK
    ensures Returned(b.pools, FenceOne(b, id, to, now).0.pools, b.allocations[id])
    ensures MarkedIn(b, FenceOne(b, id, to, now).0, id, to, now)
  {
    HolderCovered(b.pools, b.allocations, id);
    ReleaseUnitsEffect(b.pools, b.allocations[id]);
  }

  lemma ReturnedShrinks(b: Books, b': Books, id: u64, r': Allocation)
    requires id in b.allocations && b.allocations[id].Holds() && b.allocations[id].id == id
    requires !r'.Holds() && LetGo(b.allocations[id], r')
    requires Indexed(b.pools, b.allocations)
    requires Returned(b.pools, b'.pools, b.allocations[id])
    requires b'.allocations == b.allocations[id := r'] && b'.nextAllocation == b.nextAllocation
    ensures Shrunk(b, b')
  {
    var r := b.allocations[id];
    forall p, k | p in b.pools && p in b'.pools
      ensures k in b'.pools[p].members <==>
              k in b.pools[p].members && (k in b.allocations ==> b'.allocations[k] == b.allocations[k])
    {
      if k == id && k in b.pools[p].members { assert p == r.pool; }
    }
  }

  lemma InRangeShrinks(pools: Pools, pools': Pools)
    requires FieldsShrunk(pools, pools') && InRange(pools)
    ensures InRange(pools')
  {
    forall p | p in pools' ensures pools'[p].ownUsage <= TWO61 && pools'[p].borrowedIn <= TWO60 {
      assert Field(pools'[p], InOwn) <= Field(pools[p], InOwn);
      assert Field(pools'[p], InBorrowed) <= Field(pools[p], InBorrowed);
    }
  }

  lemma RecordsOkShrinks(records: Records, records': Records, pools: Pools, pools': Pools, queues: map<u64, Queue>)
    requires RecordsOk(records, pools, queues) && RecordsShrunk(records, records') && pools'.Keys == pools.Keys
    ensures RecordsOk(records', pools', queues)
  {
    forall id | id in records'
      ensures records'[id].id == id && (records'[id].Holds() ==> HolderOk(records'[id], pools', queues))
    {
      assert LetGo(records[id], records'[id]);
    }
  }

  lemma ReturnedBooksOk(b: Books, b': Books, queues: map<u64, Queue>, id: u64, r': Allocation)
    requires BooksOk(b, queues) && id in b.allocations && !r'.Holds() && r'.id == id
    requires Returned(b.pools, b'.pools, b.allocations[id]) && b'.allocations == b.allocations[id := r']
    requires Shrunk(b, b')
    ensures BooksOk(b', queues)
  {
    SameTopologyKeeps(b.pools, b'.pools);
    AgreesAfterReplace(b.pools, b'.pools, b.allocations, id, r');
    InRangeShrinks(b.pools, b'.pools);
    RecordsOkShrinks(b.allocations, b'.allocations, b.pools, b'.pools, queues);
  }

  lemma FenceOneKeepsBooks(b: Books, queues: map<u64, Queue>, id: u64, to: AllocationState, now: u64)
    requires BooksOk(b, queues) && id in b.allocations && b.allocations[id].Holds() && !to.Holds()
    ensures FenceOne(b, id, to, now).1 == OK
    ensures BooksOk(FenceOne(b, id, to, now).0, queues) && Shrunk(b, FenceOne(b, id, to, now).0)
  {
    FenceOneShape(b, queues, id, to, now);
    var b', r' := FenceOne(b, id, to, now).0, Marked(b.allocations[id], to, now);
    ReturnedShrinks(b, b', id, r');
    ReturnedBooksOk(b, b', queues, id, r');
  }

  lemma HoldsWhenSelected(r: Allocation, sel: Selector)
    requires Selects(r, sel)
    ensures r.Holds()
  {
  }

  /** A fencing loop over any list of ids succeeds, keeps the books in order, and only lets
      go of units. */
  lemma {:induction false} FenceAllKeepsBooks(b: Books, queues: map<u64, Queue>, ids: seq<u64>, sel: Selector,
                                              to: AllocationState, now: u64)
    requires BooksOk(b, queues) && !to.Holds()
    ensures FenceAll(b, ids, sel, to, now).1 == OK
    ensures BooksOk(FenceAll(b, ids, sel, to, now).0, queues) && Shrunk(b, FenceAll(b, ids, sel, to, now).0)
    decreases |ids|
  {
    if ids == [] {
      ShrunkRefl(b);
    } else if ids[0] !in b.allocations || !Selects(b.allocations[ids[0]], sel) {
      FenceAllKeepsBooks(b, queues, ids[1..], sel, to, now);
    } else {
      var b1 := FenceOne(b, ids[0], to, now).0;
      HoldsWhenSelected(b.allocations[ids[0]], sel);
      FenceOneKeepsBooks(b, queues, ids[0], to, now);
      FenceAllKeepsBooks(b1, queues, ids[1..], sel, to, now);
      ShrunkTransitive(b, b1, FenceAll(b1, ids[1..], sel, to, now).0);
    }
  }
}
