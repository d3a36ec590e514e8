/** The ways an operation can change the books, and what each keeps. */
module Transitions {
  import opened Arithmetic
  import opened Model
  import opened Grants
  import opened Ledger
  import opened Aggregates
  import opened Invariant

  /** Tables that only operations on the topology change. */
  ghost predicate SameTables(s: Fabric, s': Fabric) {
    && s'.config == s.config && s'.epoch == s.epoch && s'.boot == s.boot
    && s'.policies == s.policies && s'.queues == s.queues && s'.capacities == s.capacities
  }

  /** The books and the tables are as they were. */
  ghost predicate Still(s: Fabric, s': Fabric) { SameTables(s, s') && s'.books == s.books }

  lemma StillKeepsInv(s: Fabric, s': Fabric)
    requires Inv(s) && Still(s, s')
    ensures Inv(s')
  {
  }

  /** The books agree apart from the journal. */
  ghost predicate SameBooks(b: Books, b': Books) {
    b'.pools == b.pools && b'.allocations == b.allocations && b'.nextAllocation == b.nextAllocation
  }

  lemma SameBooksKeep(b: Books, b': Books, queues: map<u64, Queue>)
    requires BooksOk(b, queues) && SameBooks(b, b')
    ensures BooksOk(b', queues)
  {
  }

  // ----- A record is entered -----

  /** What the grant arithmetic guarantees about a drafted record. */
  ghost predicate Affordable(pools: Pools, r: Allocation) {
    && r.Holds() && r.pool in pools && 0 < r.units <= MAX_UNITS && r.borrow <= r.units
    && pools[r.pool].ownUsage + r.units - r.borrow <= TWO61
    && pools[r.pool].borrowedIn + r.borrow <= TWO60
    && (r.borrow != 0 ==> r.lender != 0 && r.lender in pools && r.lender != r.pool
                          && pools[r.lender].ownUsage + r.borrow <= pools[r.lender].Usable())
  }

  ghost predicate EnteredBooks(b: Books, b': Books, r: Allocation) {
    && Affordable(b.pools, r) && r.id == b.nextAllocation && b.nextAllocation + 1 < TWO64
    && Extended(b.pools, b'.pools, r) && Stored(b, b', r)
  }

  lemma ExtendedInRange(pools: Pools, after: Pools, r: Allocation)
    requires InRange(pools) && PoolsOk(pools) && Affordable(pools, r) && Extended(pools, after, r)
    ensures InRange(after)
  {
    forall p | p in after ensures after[p].ownUsage <= TWO61 && after[p].borrowedIn <= TWO60 {
      assert Field(after[p], InOwn) == Field(pools[p], InOwn) + Contribution(r, InOwn, p);
      assert Field(after[p], InBorrowed) == Field(pools[p], InBorrowed) + Contribution(r, InBorrowed, p);
      assert PoolOk(pools[p], p);
    }
  }

  lemma ExtendedIndexed(pools: Pools, after: Pools, records: Records, r: Allocation)
    requires Indexed(pools, records) && Extended(pools, after, r) && r.Holds()
    requires r.id in records ==> !records[r.id].Holds()
    ensures Indexed(after, records[r.id := r])
  {
    forall p, id | p in after && id in after[p].members
      ensures id in records[r.id := r] && records[r.id := r][id].Holds() && records[r.id := r][id].pool == p
    {
      if id in pools[p].members { assert id in records && records[id].Holds() && records[id].pool == p; }
    }
  }

  lemma RecordsOkReplaced(records: Records, pools: Pools, pools': Pools, queues: map<u64, Queue>, id: u64, r': Allocation)
    requires RecordsOk(records, pools, queues) && pools'.Keys == pools.Keys
    requires r'.id == id && (r'.Holds() ==> HolderOk(r', pools, queues))
    ensures RecordsOk(records[id := r'], pools', queues)
  {
  }

  /** Entering an affordable record under a free id keeps the books in order. */
  lemma EnteredKeepsBooks(b: Books, b': Books, queues: map<u64, Queue>, r: Allocation)
    requires BooksOk(b, queues) && NextIdFree(b) && HolderOk(r, b.pools, queues) && EnteredBooks(b, b', r)
    ensures BooksOk(b', queues)
  {
    SameTopologyKeeps(b.pools, b'.pools);
    AgreesAfterInsert(b.pools, b'.pools, b.allocations, r.id, r);
    ExtendedInRange(b.pools, b'.pools, r);
    ExtendedIndexed(b.pools, b'.pools, b.allocations, r);
    RecordsOkReplaced(b.allocations, b.pools, b'.pools, queues, r.id, r);
  }

  // ----- A record is replaced -----

  /** One record is rewritten and the pools move by exactly the difference. */
  ghost predicate ReplacedBooks(b: Books, b': Books, id: u64, r': Allocation) {
    && id in b.allocations && r'.id == id
    && b'.allocations == b.allocations[id := r'] && b'.nextAllocation == b.nextAllocation
    && SameTopology(b.pools, b'.pools) && Moved(b.pools, b'.pools, b.allocations[id], r')
  }

  lemma ReplacedKeepsBooks(b: Books, b': Books, queues: map<u64, Queue>, id: u64, r': Allocation)
    requires BooksOk(b, queues) && ReplacedBooks(b, b', id, r') && (r'.Holds() ==> HolderOk(r', b.pools, queues))
    requires InRange(b'.pools) && Indexed(b'.pools, b'.allocations)
    ensures BooksOk(b', queues)
  {
    SameTopologyKeeps(b.pools, b'.pools);
    AgreesAfterReplace(b.pools, b'.pools, b.allocations, id, r');
    RecordsOkReplaced(b.allocations, b.pools, b'.pools, queues, id, r');
  }
}
