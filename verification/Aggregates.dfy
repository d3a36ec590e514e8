/** Every total a pool keeps incrementally, and what it must equal: the sum of what each
    allocation record contributes to it. */
module Aggregates {
  import opened Arithmetic
  import opened Sums
  import opened Model
  import opened Grants
  import opened Ledger

  type Records = map<u64, Allocation>

  datatype Aggregate =
    | InReserved | InCommitted | InPinned | InReclaimable | InOwn | InBorrowed | InLent
    | InQueueCommitted(queue: u64) | InQueueReserved(queue: u64)

  /** The live value of an aggregate. */
  function Field(e: PoolEntry, a: Aggregate): nat {
    match a
    case InReserved => e.reserved
    case InCommitted => e.committed
    case InPinned => e.pinned
    case InReclaimable => e.reclaimable
    case InOwn => e.ownUsage
    case InBorrowed => e.borrowedIn
    case InLent => e.lentOut
    case InQueueCommitted(q) => Bucket(e.queueCommitted, q)
    case InQueueReserved(q) => Bucket(e.queueReserved, q)
  }

  function If(c: bool, n: nat): nat { if c then n else 0 }

  /** What record r contributes to aggregate a of pool p. */
  function Contribution(r: Allocation, a: Aggregate, p: u64): nat {
    if !r.Holds() then 0 else
      match a
      case InReserved => If(r.pool == p && r.state.Reserved?, r.units)
      case InCommitted => If(r.pool == p && r.state.Committed?, r.units)
      case InPinned => If(r.pool == p && r.reclaimClass.Pinned?, r.units)
      case InReclaimable => If(r.pool == p && r.reclaimClass.Reclaimable?, r.units)
      case InOwn => If(r.pool == p, r.Own()) + If(r.lender == p && r.lender != 0, r.Borrowed())
      case InBorrowed => If(r.pool == p, r.Borrowed())
      case InLent => If(r.lender == p && r.lender != 0, r.Borrowed())
      case InQueueCommitted(q) => If(r.pool == p && r.queue == q && r.state.Committed?, r.units)
      case InQueueReserved(q) => If(r.pool == p && r.queue == q && r.state.Reserved?, r.units)
  }

  ghost function Share(records: Records, a: Aggregate, p: u64): u64 -> nat {
    (id: u64) => if id in records then Contribution(records[id], a, p) else 0
  }

  /** The aggregate recomputed from the allocation records alone. */
  ghost function Total(records: Records, a: Aggregate, p: u64): nat {
    SumOver(records.Keys, Share(records, a, p))
  }

  /** The live totals of every pool are the recomputed ones. */
  ghost predicate Agrees(pools: Pools, records: Records) {
    forall p, a :: p in pools ==> Field(pools[p], a) == Total(records, a, p)
  }

  // ----- How a total moves when one record changes -----

  lemma TotalWithout(records: Records, id: u64, a: Aggregate, p: u64)
    requires id in records
    ensures Total(records, a, p) == Contribution(records[id], a, p) + Total(records - {id}, a, p)
  {
    SumRemove(records.Keys, Share(records, a, p), id);
    assert (records - {id}).Keys == records.Keys - {id};
    SumCongruent(records.Keys - {id}, Share(records, a, p), Share(records - {id}, a, p));
  }

  lemma TotalReplaced(records: Records, id: u64, r: Allocation, a: Aggregate, p: u64)
    ensures Total(records[id := r], a, p)
         == Total(records, a, p) - (if id in records then Contribution(records[id], a, p) else 0)
            + Contribution(r, a, p)
  {
    var after := records[id := r];
    TotalWithout(after, id, a, p);
    if id in records {
      TotalWithout(records, id, a, p);
      assert after - {id} == records - {id};
    } else {
      assert after - {id} == records;
    }
  }

  lemma TotalCovers(records: Records, id: u64, a: Aggregate, p: u64)
    requires id in records
    ensures Contribution(records[id], a, p) <= Total(records, a, p)
  {
    TotalWithout(records, id, a, p);
  }

  /** Pools move by what the changed record contributed and now contributes. */
  ghost predicate Moved(before: Pools, after: Pools, was: Allocation, now: Allocation) {
    && after.Keys == before.Keys
    && forall p, a :: p in before ==>
         Field(after[p], a) == Field(before[p], a) - Contribution(was, a, p) + Contribution(now, a, p)
  }

  lemma AgreesAfterReplace(before: Pools, after: Pools, records: Records, id: u64, r: Allocation)
    requires Agrees(before, records) && id in records
    requires Moved(before, after, records[id], r)
    ensures Agrees(after, records[id := r])
  {
    forall p, a | p in after ensures Field(after[p], a) == Total(records[id := r], a, p) {
      TotalReplaced(records, id, r, a, p);
      assert Field(before[p], a) == Total(records, a, p);
    }
  }

  lemma AgreesAfterInsert(before: Pools, after: Pools, records: Records, id: u64, r: Allocation)
    requires Agrees(before, records) && (id in records ==> !records[id].Holds())
    requires after.Keys == before.Keys
    requires forall p, a :: p in before ==> Field(after[p], a) == Field(before[p], a) + Contribution(r, a, p)
    ensures Agrees(after, records[id := r])
  {
    forall p, a | p in after ensures Field(after[p], a) == Total(records[id := r], a, p) {
      TotalReplaced(records, id, r, a, p);
      assert Field(before[p], a) == Total(records, a, p);
    }
  }

  // ----- Identities among the totals of one pool -----

  /** Each held unit is pinned or reclaimable, and each is own or borrowed; usage counts
      own units and those lent elsewhere. */
  ghost predicate Balanced(f: Aggregate -> nat) {
    && f(InReserved) + f(InCommitted) == f(InPinned) + f(InReclaimable)
    && f(InReserved) + f(InCommitted) + f(InLent) == f(InOwn) + f(InBorrowed)
    && f(InBorrowed) <= f(InReserved) + f(InCommitted)
  }

  ghost function OfRecord(r: Allocation, p: u64): Aggregate -> nat { (a: Aggregate) => Contribution(r, a, p) }

  ghost function OfRecords(records: Records, p: u64): Aggregate -> nat { (a: Aggregate) => Total(records, a, p) }

  lemma RecordBalanced(r: Allocation, p: u64)
    ensures Balanced(OfRecord(r, p))
  {
  }

  lemma {:induction false} PoolIdentity(records: Records, p: u64)
    ensures Balanced(OfRecords(records, p))
    decreases |records|
  {
    if records == map[] {
      assert forall a :: Total(records, a, p) == 0;
    } else {
      var id :| id in records;
      forall a ensures Total(records, a, p) == Contribution(records[id], a, p) + Total(records - {id}, a, p) {
        TotalWithout(records, id, a, p);
      }
      RecordBalanced(records[id], p);
      PoolIdentity(records - {id}, p);
    }
  }

  // ----- Every lending has a borrower -----

  ghost function PoolField(pools: Pools, a: Aggregate): u64 -> nat {
    (p: u64) => if p in pools then Field(pools[p], a) else 0
  }

  ghost function AcrossPools(records: Records, a: Aggregate): u64 -> nat {
    (p: u64) => Total(records, a, p)
  }

  ghost function OneRecord(r: Allocation, a: Aggregate): u64 -> nat {
    (p: u64) => Contribution(r, a, p)
  }

  /** Records charge pools that exist: the owner always, the lender when units are borrowed. */
  ghost predicate Grounded(r: Allocation, ids: set<u64>) {
    r.Holds() ==>
      r.pool in ids && (r.Borrowed() != 0 ==> r.lender != 0 && r.lender in ids && r.lender != r.pool)
  }

  lemma OneRecordBalances(r: Allocation, ids: set<u64>)
    requires Grounded(r, ids)
    ensures SumOver(ids, OneRecord(r, InBorrowed)) == SumOver(ids, OneRecord(r, InLent))
  {
    if !r.Holds() || r.Borrowed() == 0 {
      SumZero(ids, OneRecord(r, InBorrowed));
      SumZero(ids, OneRecord(r, InLent));
    } else {
      SumSingle(ids, OneRecord(r, InBorrowed), r.pool);
      SumSingle(ids, OneRecord(r, InLent), r.lender);
    }
  }

  lemma AcrossPoolsWithout(records: Records, id: u64, a: Aggregate, ids: set<u64>)
    requires id in records
    ensures SumOver(ids, AcrossPools(records, a))
         == SumOver(ids, OneRecord(records[id], a)) + SumOver(ids, AcrossPools(records - {id}, a))
  {
    forall p | p in ids
      ensures AcrossPools(records, a)(p) == OneRecord(records[id], a)(p) + AcrossPools(records - {id}, a)(p)
    {
      TotalWithout(records, id, a, p);
    }
    SumPlus(ids, OneRecord(records[id], a), AcrossPools(records - {id}, a), AcrossPools(records, a));
  }

  lemma {:induction false} RecordsBalance(records: Records, ids: set<u64>)
    requires forall id :: id in records ==> Grounded(records[id], ids)
    ensures SumOver(ids, AcrossPools(records, InBorrowed)) == SumOver(ids, AcrossPools(records, InLent))
    decreases |records|
  {
    if records == map[] {
      SumZero(ids, AcrossPools(records, InBorrowed));
      SumZero(ids, AcrossPools(records, InLent));
    } else {
      var id :| id in records;
      AcrossPoolsWithout(records, id, InBorrowed, ids);
      AcrossPoolsWithout(records, id, InLent, ids);
      OneRecordBalances(records[id], ids);
      RecordsBalance(records - {id}, ids);
    }
  }

  /** Summed over all pools, live borrowed units equal live lent units. */
  lemma BorrowedEqualsLent(pools: Pools, records: Records)
    requires Agrees(pools, records)
    requires forall id :: id in records ==> Grounded(records[id], pools.Keys)
    ensures SumOver(pools.Keys, PoolField(pools, InBorrowed)) == SumOver(pools.Keys, PoolField(pools, InLent))
  {
    RecordsBalance(records, pools.Keys);
    SumCongruent(pools.Keys, PoolField(pools, InBorrowed), AcrossPools(records, InBorrowed));
    SumCongruent(pools.Keys, PoolField(pools, InLent), AcrossPools(records, InLent));
  }

  // ----- Releasing and committing units move the pools as claimed -----

  /** Sizes, generations, parents and policies are untouched; members change as stated. */
  ghost predicate SameTopology(before: Pools, after: Pools) {
    && after.Keys == before.Keys
    && forall p :: p in before ==>
         after[p].descriptor == before[p].descriptor && after[p].capacityGeneration == before[p].capacityGeneration
  }

  /** Every aggregate r contributes to is at least that contribution. */
  ghost predicate Covers(pools: Pools, r: Allocation) {
    forall p, a :: p in pools ==> Contribution(r, a, p) <= Field(pools[p], a)
  }

  lemma BucketAdjusted(m: map<u64, u64>, q: u64, delta: int, k: u64)
    requires -TWO64 < delta < TWO64 && 0 <= Bucket(m, q) + delta < TWO64
    ensures Bucket(AdjustBucket(m, q, delta), k) == Bucket(m, k) + (if k == q then delta else 0)
  {
  }

  /** The owner of `r` with r's units returned. */
  function Relieved(e: PoolEntry, r: Allocation): PoolEntry
    requires r.Own() <= e.ownUsage && r.Borrowed() <= e.borrowedIn
    requires If(r.state.Reserved?, r.units) <= e.reserved && If(!r.state.Reserved?, r.units) <= e.committed
    requires If(r.reclaimClass.Pinned?, r.units) <= e.pinned
    requires If(r.reclaimClass.Reclaimable?, r.units) <= e.reclaimable
  {
    AdjustQueue(e, r.queue, 0 - r.units, r.state.Reserved?).(
      reserved := e.reserved - If(r.state.Reserved?, r.units),
      committed := e.committed - If(!r.state.Reserved?, r.units),
      pinned := e.pinned - If(r.reclaimClass.Pinned?, r.units),
      reclaimable := e.reclaimable - If(r.reclaimClass.Reclaimable?, r.units),
      ownUsage := e.ownUsage - r.Own(), borrowedIn := e.borrowedIn - r.Borrowed(),
      members := e.members - {r.id})
  }

  function Repaid(l: PoolEntry, r: Allocation): PoolEntry
    requires r.Borrowed() <= l.lentOut && r.Borrowed() <= l.ownUsage
  {
    l.(lentOut := l.lentOut - r.Borrowed(), ownUsage := l.ownUsage - r.Borrowed())
  }

  lemma CoveredParts(pools: Pools, r: Allocation)
    requires r.Holds() && r.pool in pools && Grounded(r, pools.Keys) && Covers(pools, r)
    ensures var e := pools[r.pool];
            && r.Own() <= e.ownUsage && r.Borrowed() <= e.borrowedIn
            && If(r.state.Reserved?, r.units) <= e.reserved && If(!r.state.Reserved?, r.units) <= e.committed
            && If(r.reclaimClass.Pinned?, r.units) <= e.pinned
            && If(r.reclaimClass.Reclaimable?, r.units) <= e.reclaimable
            && If(r.state.Reserved?, r.units) <= Bucket(e.queueReserved, r.queue)
            && If(!r.state.Reserved?, r.units) <= Bucket(e.queueCommitted, r.queue)
    ensures r.Borrowed() != 0 ==> r.Borrowed() <= pools[r.lender].lentOut && r.Borrowed() <= pools[r.lender].ownUsage
  {
    var e := pools[r.pool];
    assert Contribution(r, InOwn, r.pool) <= Field(e, InOwn);
    assert Contribution(r, InBorrowed, r.pool) <= Field(e, InBorrowed);
    assert Contribution(r, InReserved, r.pool) <= Field(e, InReserved);
    assert Contribution(r, InCommitted, r.pool) <= Field(e, InCommitted);
    assert Contribution(r, InPinned, r.pool) <= Field(e, InPinned);
    assert Contribution(r, InReclaimable, r.pool) <= Field(e, InReclaimable);
    assert Contribution(r, InQueueCommitted(r.queue), r.pool) <= Field(e, InQueueCommitted(r.queue));
    assert Contribution(r, InQueueReserved(r.queue), r.pool) <= Field(e, InQueueReserved(r.queue));
    if r.Borrowed() != 0 {
      assert Contribution(r, InOwn, r.lender) <= Field(pools[r.lender], InOwn);
      assert Contribution(r, InLent, r.lender) <= Field(pools[r.lender], InLent);
    }
  }

  lemma RelievedFields(e: PoolEntry, r: Allocation, a: Aggregate)
    requires r.Holds() && (r.Borrowed() != 0 ==> r.lender != r.pool)
    requires r.Own() <= e.ownUsage && r.Borrowed() <= e.borrowedIn
    requires If(r.state.Reserved?, r.units) <= e.reserved && If(!r.state.Reserved?, r.units) <= e.committed
    requires If(r.reclaimClass.Pinned?, r.units) <= e.pinned
    requires If(r.reclaimClass.Reclaimable?, r.units) <= e.reclaimable
    requires If(r.state.Reserved?, r.units) <= Bucket(e.queueReserved, r.queue)
    requires If(!r.state.Reserved?, r.units) <= Bucket(e.queueCommitted, r.queue)
    ensures Field(Relieved(e, r), a) == Field(e, a) - Contribution(r, a, r.pool)
  {
    match a
    case InQueueCommitted(q) =>
      if r.state.Committed? { BucketAdjusted(e.queueCommitted, r.queue, 0 - r.units, q); }
    case InQueueReserved(q) =>
      if r.state.Reserved? { BucketAdjusted(e.queueReserved, r.queue, 0 - r.units, q); }
    case _ =>
  }

  /** The pools after `r` is returned, given its owner and lender. */
  ghost predicate Returned(pools: Pools, after: Pools, r: Allocation) {
    && SameTopology(pools, after)
    && (forall p, a :: p in pools ==> Field(after[p], a) == Field(pools[p], a) - Contribution(r, a, p))
    && (forall p :: p in pools ==>
          after[p].members == if p == r.pool then pools[p].members - {r.id} else pools[p].members)
  }

  lemma ContributionElsewhere(r: Allocation, a: Aggregate, p: u64)
    requires p != r.pool && (p != r.lender || r.Borrowed() == 0)
    ensures Contribution(r, a, p) == 0
  {
  }

  lemma ContributionAtLender(r: Allocation, a: Aggregate)
    requires r.Holds() && r.lender != r.pool && r.lender != 0
    ensures Contribution(r, a, r.lender) == If(a.InOwn? || a.InLent?, r.Borrowed())
  {
  }

  lemma ReturnedWhen(pools: Pools, after: Pools, r: Allocation, owner: PoolEntry)
    requires r.Holds() && r.pool in pools && Grounded(r, pools.Keys)
    requires owner.descriptor == pools[r.pool].descriptor
    requires owner.capacityGeneration == pools[r.pool].capacityGeneration
    requires owner.members == pools[r.pool].members - {r.id}
    requires forall a :: Field(owner, a) == Field(pools[r.pool], a) - Contribution(r, a, r.pool)
    requires r.Borrowed() != 0 ==> r.Borrowed() <= pools[r.lender].lentOut && r.Borrowed() <= pools[r.lender].ownUsage
    requires after == if r.Borrowed() == 0 then pools[r.pool := owner]
                      else pools[r.lender := Repaid(pools[r.lender], r)][r.pool := owner]
    ensures Returned(pools, after, r)
  {
    hide Contribution;
    forall p, a | p in pools ensures Field(after[p], a) == Field(pools[p], a) - Contribution(r, a, p) {
      if p == r.pool {
      } else if p == r.lender && r.Borrowed() != 0 {
        ContributionAtLender(r, a);
      } else {
        ContributionElsewhere(r, a, p);
      }
    }
  }

  /** Returning a covered record's units succeeds, and lowers every aggregate of every
      pool by exactly the record's contribution. */
  lemma ReleaseUnitsEffect(pools: Pools, r: Allocation)
    requires r.Holds() && r.pool in pools && Grounded(r, pools.Keys) && Covers(pools, r)
    ensures ReleaseUnits(pools, r).1 == OK
    ensures Returned(pools, ReleaseUnits(pools, r).0, r)
  {
    CoveredParts(pools, r);
    var owner := Relieved(pools[r.pool], r);
    forall a ensures Field(owner, a) == Field(pools[r.pool], a) - Contribution(r, a, r.pool) {
      RelievedFields(pools[r.pool], r, a);
    }
    ReturnedWhen(pools, ReleaseUnits(pools, r).0, r, owner);
  }

  // ----- Granting -----

  /** Pool p has room, in 64 bits, for what `r` would add to it. */
  ghost predicate RoomFor(e: PoolEntry, r: Allocation) {
    && e.ownUsage + r.units < TWO64 && e.borrowedIn + r.units < TWO64
    && e.reserved + r.units < TWO64 && e.committed + r.units < TWO64
    && e.pinned + r.units < TWO64 && e.reclaimable + r.units < TWO64
    && Bucket(e.queueReserved, r.queue) + r.units < TWO64
    && Bucket(e.queueCommitted, r.queue) + r.units < TWO64
  }

  /** The owner of `r` with r's units charged. */
  function Charged(e: PoolEntry, r: Allocation): PoolEntry {
    var e1 := e.(ownUsage := Wrap(e.ownUsage + r.units - r.borrow), borrowedIn := Wrap(e.borrowedIn + r.borrow));
    var e2 := AdjustQueue(CreditOwner(e1, r), r.queue, r.units, r.state.Reserved?);
    e2.(members := e2.members + {r.id})
  }

  function Lent(l: PoolEntry, r: Allocation): PoolEntry {
    l.(lentOut := Wrap(l.lentOut + r.borrow), ownUsage := Wrap(l.ownUsage + r.borrow))
  }

  /** The lender's side of a grant stays in range and within what may be lent. */
  ghost predicate CanLend(l: PoolEntry, borrow: u64) {
    && l.lentOut + borrow < TWO64
    && l.ownUsage + borrow <= l.Usable() <= MAX_UNITS
  }

  /** Only the owner and, if units are borrowed, the lender of `r` are rewritten. */
  ghost predicate Rewritten(pools: Pools, after: Pools, r: Allocation, owner: PoolEntry, lender: PoolEntry) {
    && after.Keys == pools.Keys
    && forall p :: p in pools ==>
         after[p] == if p == r.pool then owner else if p == r.lender && r.borrow != 0 then lender else pools[p]
  }

  lemma CommitUnitsShape(pools: Pools, r: Allocation, lender: PoolEntry)
    requires r.pool in pools && r.borrow <= r.units && RoomFor(pools[r.pool], r)
    requires r.borrow != 0 ==> r.lender != 0 && r.lender in pools && r.lender != r.pool
                               && CanLend(pools[r.lender], r.borrow) && lender == Lent(pools[r.lender], r)
    ensures CommitUnits(pools, r.pool, r.units, r.borrow, r.lender).1 == OK
    ensures var e := pools[r.pool];
            Rewritten(pools, CommitUnits(pools, r.pool, r.units, r.borrow, r.lender).0, r,
                      e.(ownUsage := Wrap(e.ownUsage + r.units - r.borrow), borrowedIn := Wrap(e.borrowedIn + r.borrow)),
                      lender)
  {
    var e := pools[r.pool];
    AddOverflowIsExact(e.ownUsage, r.units - r.borrow);
    AddOverflowIsExact(e.borrowedIn, r.borrow);
    if r.borrow != 0 {
      AddOverflowIsExact(pools[r.lender].lentOut, r.borrow);
      AddOverflowIsExact(pools[r.lender].ownUsage, r.borrow);
    }
  }

  lemma ChargedFields(e: PoolEntry, r: Allocation, a: Aggregate)
    requires r.Holds() && r.borrow <= r.units && RoomFor(e, r) && (r.borrow != 0 ==> r.lender != r.pool)
    ensures Field(Charged(e, r), a) == Field(e, a) + Contribution(r, a, r.pool)
  {
    match a
    case InQueueCommitted(q) =>
      if r.state.Committed? { BucketAdjusted(e.queueCommitted, r.queue, r.units, q); }
    case InQueueReserved(q) =>
      if r.state.Reserved? { BucketAdjusted(e.queueReserved, r.queue, r.units, q); }
    case _ =>
  }

  /** The pools after `r` is granted. */
  ghost predicate Extended(pools: Pools, after: Pools, r: Allocation) {
    && SameTopology(pools, after)
    && (forall p, a :: p in pools ==> Field(after[p], a) == Field(pools[p], a) + Contribution(r, a, p))
    && (forall p :: p in pools ==>
          after[p].members == if p == r.pool then pools[p].members + {r.id} else pools[p].members)
  }

  lemma ExtendedWhen(pools: Pools, after: Pools, r: Allocation, owner: PoolEntry, lender: PoolEntry)
    requires r.Holds() && r.pool in pools && r.borrow <= r.units
    requires owner.descriptor == pools[r.pool].descriptor
    requires owner.capacityGeneration == pools[r.pool].capacityGeneration
    requires owner.members == pools[r.pool].members + {r.id}
    requires forall a :: Field(owner, a) == Field(pools[r.pool], a) + Contribution(r, a, r.pool)
    requires r.borrow != 0 ==> r.lender != 0 && r.lender in pools && r.lender != r.pool
                               && CanLend(pools[r.lender], r.borrow) && lender == Lent(pools[r.lender], r)
    requires Rewritten(pools, after, r, owner, lender)
    ensures Extended(pools, after, r)
  {
    forall p, a | p in pools ensures Field(after[p], a) == Field(pools[p], a) + Contribution(r, a, p) {
      if p == r.pool {
      } else if p == r.lender && r.borrow != 0 {
        ContributionAtLender(r, a);
      } else {
        ContributionElsewhere(r, a, p);
      }
    }
  }

  lemma EnterRecordShape(b: Books, pools: Pools, charged: Pools, r: Allocation, e: PoolEntry, lender: PoolEntry)
    requires r.pool in pools && (r.borrow != 0 ==> r.lender != r.pool)
    requires e == pools[r.pool].(ownUsage := Wrap(pools[r.pool].ownUsage + r.units - r.borrow),
                                 borrowedIn := Wrap(pools[r.pool].borrowedIn + r.borrow))
    requires Rewritten(pools, charged, r, e, lender)
    ensures Rewritten(pools, EnterRecord(b, charged, r).pools, r, Charged(pools[r.pool], r), lender)
  {
  }

  /** The books once `r` is stored, apart from the pools. */
  ghost predicate Stored(b: Books, b': Books, r: Allocation) {
    && b'.allocations == b.allocations[r.id := r]
    && b'.nextAllocation == Wrap(b.nextAllocation + 1)
    && b'.journal == b.journal + [AllocationUpsert(OpFor(r.state), r)]
  }

  lemma StoreRecordShape(b: Books, r: Allocation, lender: PoolEntry)
    requires r.pool in b.pools && r.borrow <= r.units && RoomFor(b.pools[r.pool], r)
    requires r.borrow != 0 ==> r.lender != 0 && r.lender in b.pools && r.lender != r.pool
                               && CanLend(b.pools[r.lender], r.borrow) && lender == Lent(b.pools[r.lender], r)
    ensures StoreRecord(b, r).1 == OK
    ensures Rewritten(b.pools, StoreRecord(b, r).0.pools, r, Charged(b.pools[r.pool], r), lender)
    ensures Stored(b, StoreRecord(b, r).0, r)
  {
    hide CommitUnits, Charged, Rewritten, AdjustQueue, CreditOwner;
    var e := b.pools[r.pool];
    var charged := CommitUnits(b.pools, r.pool, r.units, r.borrow, r.lender).0;
    var logged := Log(b, AllocationUpsert(OpFor(r.state), r));
    CommitUnitsShape(b.pools, r, lender);
    EnterRecordShape(logged, b.pools, charged, r,
                     e.(ownUsage := Wrap(e.ownUsage + r.units - r.borrow), borrowedIn := Wrap(e.borrowedIn + r.borrow)),
                     lender);
  }

  /** Storing a drafted record succeeds when the owner has room and the lender can lend,
      and raises every aggregate of every pool by exactly the record's contribution. */
  lemma StoreRecordEffect(b: Books, r: Allocation)
    requires r.Holds() && r.pool in b.pools && r.borrow <= r.units && RoomFor(b.pools[r.pool], r)
    requires r.borrow != 0 ==> r.lender != 0 && r.lender in b.pools && r.lender != r.pool
                               && CanLend(b.pools[r.lender], r.borrow)
    ensures StoreRecord(b, r).1 == OK
    ensures var b' := StoreRecord(b, r).0;
            Extended(b.pools, b'.pools, r) && b'.pools[r.pool] == Charged(b.pools[r.pool], r) && Stored(b, b', r)
  {
    var owner := Charged(b.pools[r.pool], r);
    var lender := if r.borrow != 0 then Lent(b.pools[r.lender], r) else owner;
    StoreRecordShape(b, r, lender);
    forall a ensures Field(owner, a) == Field(b.pools[r.pool], a) + Contribution(r, a, r.pool) {
      ChargedFields(b.pools[r.pool], r, a);
    }
    ExtendedWhen(b.pools, StoreRecord(b, r).0.pools, r, owner, lender);
  }

  // ----- Committing a reservation -----

  lemma CommitEntryFields(e: PoolEntry, r: Allocation, r': Allocation, a: Aggregate)
    requires r.state.Reserved? && r' == r.(state := Committed, lastTouched := r'.lastTouched, revision := r'.revision)
    requires r.units <= e.reserved && e.committed + r.units < TWO64
    requires r.units <= Bucket(e.queueReserved, r.queue)
    requires Bucket(e.queueCommitted, r.queue) + r.units < TWO64
    ensures Field(CommitEntry(e, r), a)
         == Field(e, a) - Contribution(r, a, r.pool) + Contribution(r', a, r.pool)
  {
    match a
    case InQueueCommitted(q) => BucketAdjusted(e.queueCommitted, r.queue, r.units, q);
    case InQueueReserved(q) => BucketAdjusted(e.queueReserved, r.queue, 0 - r.units, q);
    case _ =>
  }
}
