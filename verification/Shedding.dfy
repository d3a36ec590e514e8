/** Which records a resize fences and a reclamation revokes, and in which order: in terms of the
    fields of the records and the policy. */
module Shedding {
  import opened Arithmetic
  import opened Sums
  import opened Model
  import opened Grants
  import opened Ledger
  import opened Topology
  import opened Reclaim
  import opened Aggregates
  import opened Invariant
  import opened TopologySteps
  import opened Answers
  import opened Sweeps
  import opened Layout
  import opened Granting
  import Index
  import ReclaimPlans
  import Order

  // ----- A shrink loop fences a prefix -----

  lemma PrefixStep(ids: seq<u64>, j: nat)
    requires ids != [] && j <= |ids[1..]|
    ensures ids[..j + 1] != [] && ids[..j + 1][0] == ids[0] && ids[..j + 1][1..] == ids[1..][..j]
  {
  }

  /** A shrink loop stamps the holders in a prefix of its list; it stops early only once usage
      fits, and not at all when everything is to go. */
  lemma {:induction false} ShrinkStamps(b: Books, queues: map<u64, Queue>, p: u64, ids: seq<u64>, allowance: u64,
                                        everything: bool, now: u64) returns (k: nat)
    requires BooksOk(b, queues) && p in b.pools
    ensures var b' := ShrinkAll(b, p, ids, allowance, everything, now).0;
            && k <= |ids| && p in b'.pools && b'.nextAllocation == b.nextAllocation
            && RecordsStamped(b.allocations, b'.allocations,
                              Selected(b.allocations, Order.Elements(ids[..k]), AnyHolding), Fenced, now)
            && (k < |ids| ==> !everything && b'.pools[p].ownUsage <= allowance)
    decreases |ids|
  {
    hide BooksOk, RecordsStamped, Selected, FenceOne, Shrunk, Marked, PoolEntry.Usable;
    k := 0;
    assert ids[..0] == [];
    if ids == [] || (!everything && b.pools[p].ownUsage <= allowance) {
      NothingStamped(b.allocations, AnyHolding, Fenced, now);
    } else if ids[0] !in b.allocations || !b.allocations[ids[0]].Holds() {
      var j := ShrinkStamps(b, queues, p, ids[1..], allowance, everything, now);
      k := j + 1;
      PrefixStep(ids, j);
      TailStamped(b.allocations, ShrinkAll(b, p, ids, allowance, everything, now).0.allocations, ids[..k], AnyHolding, Fenced, now);
    } else {
      FenceOneKeepsBooks(b, queues, ids[0], Fenced, now);
      Sweeps.FenceOneMarks(b, queues, ids[0], Fenced, now);
      var b1 := FenceOne(b, ids[0], Fenced, now).0;
      Index.KeepsPool(b, b1, p);
      var j := ShrinkStamps(b1, queues, p, ids[1..], allowance, everything, now);
      k := j + 1;
      PrefixStep(ids, j);
      HeadStamped(b.allocations, b1.allocations, ShrinkAll(b, p, ids, allowance, everything, now).0.allocations, ids[..k],
                  AnyHolding, Fenced, now);
    }
  }

  /** In a ranked list what comes in a prefix ranks before what does not. */
  lemma PrefixRanks(ids: seq<u64>, key: u64 -> Order.Rank, k: nat, x: u64, y: u64)
    requires k <= |ids| && Order.Sorted(ids, key) && x in Order.Elements(ids[..k]) && y in ids && y !in Order.Elements(ids[..k])
    ensures Order.Before(key(x), key(y))
  {
    var i :| 0 <= i < k && ids[i] == x;
    var j :| 0 <= j < |ids| && ids[j] == y;
  }

  // ----- Resizing a pool -----

  /** A pool may be given the size: it leaves the floor its policy sets, and with it the pools on
      the resource fit its capacity. */
  ghost predicate Resizable(s: Fabric, p: u64, raw: u64, protected: u64, expected: u64) {
    && !Closed(s) && p != 0 && p in s.books.pools && 0 < raw <= TWO60 && protected < raw
    && var e := s.books.pools[p];
       && Asserted(expected, e.descriptor.generation) && e.descriptor.policy in s.policies
       && raw - protected >= s.policies[e.descriptor.policy].usableFloor
       && e.descriptor.resource in s.capacities
       && RawOn(s.books.pools - {p}, e.descriptor.resource) + raw <= s.capacities[e.descriptor.resource].raw
       && e.descriptor.generation != MAX_U64 && e.capacityGeneration != MAX_U64
  }

  ghost predicate ResizeObjection(s: Fabric, p: u64, raw: u64, protected: u64, expected: u64, code: Code) {
    || (code == SHUTTING_DOWN && Closed(s)) || (code == INVALID_ARGUMENT && (p == 0 || raw == 0 || raw > TWO60))
    || (code == UNKNOWN_POOL && p !in s.books.pools) || (code == HEADROOM_VIOLATION && protected >= raw)
    || (p in s.books.pools
        && var e := s.books.pools[p];
           || (code == STALE_GENERATION && !Asserted(expected, e.descriptor.generation))
           || (code == UNKNOWN_POLICY && e.descriptor.policy !in s.policies)
           || (code == POLICY_FORBIDS && e.descriptor.policy in s.policies
               && raw - protected < s.policies[e.descriptor.policy].usableFloor)
           || (code == UNKNOWN_RESOURCE && e.descriptor.resource !in s.capacities)
           || (code == CAPACITY_EXCEEDED && e.descriptor.resource in s.capacities
               && RawOn(s.books.pools - {p}, e.descriptor.resource) + raw > s.capacities[e.descriptor.resource].raw)
           || (code == OVERFLOW && (|| RawOn(s.books.pools - {p}, e.descriptor.resource) + raw > MAX_U64
                                    || e.descriptor.generation == MAX_U64 || e.capacityGeneration == MAX_U64)))
  }

  lemma OthersRaw(pools: Pools, p: u64, resource: u64)
    ensures SumOver(pools.Keys - {p}, RawShare(pools, resource)) == RawOn(pools - {p}, resource)
  {
    SumCongruent(pools.Keys - {p}, RawShare(pools, resource), RawIn(pools - {p}, resource));
    assert (pools - {p}).Keys == pools.Keys - {p};
  }

  lemma GuardOfResize(s: Fabric, p: u64, raw: u64, protected: u64, expected: u64)
    ensures ResizeGuard(s, p, raw, protected, expected) == OK <==> Resizable(s, p, raw, protected, expected)
    ensures ResizeGuard(s, p, raw, protected, expected) != OK ==>
              ResizeObjection(s, p, raw, protected, expected, ResizeGuard(s, p, raw, protected, expected))
  {
    hide RawOn, RawShare, RawIn;
    if p in s.books.pools {
      var e := s.books.pools[p];
      OthersRaw(s.books.pools, p, e.descriptor.resource);
      AddOverflowIsExact(e.descriptor.generation, 1);
      AddOverflowIsExact(e.capacityGeneration, 1);
    }
  }

  /** The records that held units before and hold none after. */
  ghost function Ended(records: Records, records': Records): set<u64> {
    set id | id in records && id in records' && records[id].Holds() && !records'[id].Holds()
  }

  /** The pool has the size asked for, under the next generations; no other descriptor moved. */
  ghost predicate PoolResized(s: Fabric, s': Fabric, p: u64, raw: u64, protected: u64) {
    && p in s.books.pools && s'.books.pools.Keys == s.books.pools.Keys
    && (forall k :: k in s.books.pools && k != p ==>
          && s'.books.pools[k].descriptor == s.books.pools[k].descriptor
          && s'.books.pools[k].capacityGeneration == s.books.pools[k].capacityGeneration)
    && var e, e' := s.books.pools[p], s'.books.pools[p];
       && e.descriptor.generation < MAX_U64 && e.capacityGeneration < MAX_U64
       && e'.descriptor == e.descriptor.(raw := raw, protected := protected, generation := e.descriptor.generation + 1)
       && e'.capacityGeneration == e.capacityGeneration + 1
  }

  /** A goes before B: reclaimable before pinned, then by priority, then by id. */
  ghost predicate GoesBefore(a: Allocation, b: Allocation) {
    if a.reclaimClass != b.reclaimClass then a.reclaimClass.Reclaimable?
    else a.priority < b.priority || (a.priority == b.priority && a.id < b.id)
  }

  ghost predicate BorrowsFrom(r: Allocation, p: u64) { r.Holds() && r.lender == p && r.borrow != 0 }

  /** Who is fenced by a resize: members before borrowers, members in the order above, borrowers by
      id, and every member when everything is to go. */
  ghost predicate ShrinkOrder(b: Books, p: u64, everything: bool, gone: set<u64>)
    requires p in b.pools
  {
    var members, records := b.pools[p].members, b.allocations;
    && (forall id :: id in gone ==> id in records && records[id].Holds() && (id in members || BorrowsFrom(records[id], p)))
    && (forall x, y :: x in gone && x in members && x in records && y in members && y in records && y !in gone ==>
          GoesBefore(records[x], records[y]))
    && (forall x, y :: x in gone && x !in members && y in members ==> y in gone)
    && (forall x, y :: x in gone && x !in members && y in records && y !in gone && BorrowsFrom(records[y], p) ==> x < y)
    && (everything ==> members <= gone)
  }

  ghost predicate ResizeAnswer(s: Fabric, s': Fabric, p: u64, raw: u64, protected: u64, expected: u64, code: Code, now: u64) {
    if !Resizable(s, p, raw, protected, expected) then s' == s && ResizeObjection(s, p, raw, protected, expected, code)
    else
      var gone := Ended(s.books.allocations, s'.books.allocations);
      && PoolResized(s, s', p, raw, protected) && s'.books.nextAllocation == s.books.nextAllocation
      && s' == s.(books := s'.books, shuttingDown := s'.shuttingDown)
      && RecordsStamped(s.books.allocations, s'.books.allocations, gone, Fenced, now)
      && ShrinkOrder(s.books, p, s.policies[s.books.pools[p].descriptor.policy].fenceOnChange, gone)
      && s'.books.pools[p].descriptor.policy in s'.policies
      && code == (if Overdrawn(s', p) then ACCOUNTING_VIOLATION else OK)
      && s'.shuttingDown == (s.shuttingDown || Overdrawn(s', p))
  }

  lemma StampedEnd(records: Records, records': Records, hit: set<u64>, now: u64)
    requires RecordsStamped(records, records', hit, Fenced, now)
    requires forall id :: id in hit ==> id in records && records[id].Holds()
    ensures Ended(records, records') == hit
  {
  }

  lemma MembersHold(b: Books, queues: map<u64, Queue>, p: u64)
    requires BooksOk(b, queues) && p in b.pools
    ensures forall id :: id in b.pools[p].members ==> id in b.allocations && b.allocations[id].Holds() && b.allocations[id].pool == p
    ensures forall id :: id in b.allocations ==> b.allocations[id].id == id
    ensures forall id :: id in b.allocations && BorrowsFrom(b.allocations[id], p) ==> b.allocations[id].pool != p
  {
    hide PoolsOk, Agrees, InRange, Forest;
    forall id | id in b.allocations && BorrowsFrom(b.allocations[id], p) ensures b.allocations[id].pool != p {
      assert HolderOk(b.allocations[id], b.pools, queues);
    }
  }

  lemma RankGoesBefore(records: Records, x: u64, y: u64)
    requires x in records && y in records && records[x].id == x && records[y].id == y
    requires Order.Before(ShrinkRank(records)(x), ShrinkRank(records)(y))
    ensures GoesBefore(records[x], records[y])
  {
  }

  /** The members a first phase fences, from their ranked listing. */
  lemma MembersOrder(b: Books, queues: map<u64, Queue>, p: u64, ids: seq<u64>, k: nat, everything: bool)
    requires BooksOk(b, queues) && p in b.pools && k <= |ids| && (everything ==> k == |ids|)
    requires Order.Sorted(ids, ShrinkRank(b.allocations)) && Order.Elements(ids) == b.pools[p].members
    ensures var hit := Selected(b.allocations, Order.Elements(ids[..k]), AnyHolding);
            && hit <= b.pools[p].members && ShrinkOrder(b, p, everything, hit)
            && (k == |ids| ==> hit == b.pools[p].members)
  {
    hide BooksOk, GoesBefore, ShrinkRank, Order.Sorted;
    var members, records := b.pools[p].members, b.allocations;
    var hit := Selected(records, Order.Elements(ids[..k]), AnyHolding);
    MembersHold(b, queues, p);
    assert forall id :: id in ids <==> id in Order.Elements(ids);
    assert k == |ids| ==> ids[..k] == ids;
    forall id | id in hit ensures id in members { assert id in ids; }
    forall x, y | x in hit && y in members && y !in hit ensures GoesBefore(records[x], records[y]) {
      PrefixRanks(ids, ShrinkRank(records), k, x, y);
      RankGoesBefore(records, x, y);
    }
  }

  /** The borrowers a second phase fences, every member being gone. */
  lemma BorrowersOrder(b: Books, b1: Books, queues: map<u64, Queue>, p: u64, k: nat, everything: bool, now: u64)
    requires BooksOk(b, queues) && p in b.pools
    requires RecordsStamped(b.allocations, b1.allocations, b.pools[p].members, Fenced, now)
    requires k <= |Order.Ascending(BorrowersOf(b1, p))|
    ensures var ids := Order.Ascending(BorrowersOf(b1, p));
            var hit := Selected(b1.allocations, Order.Elements(ids[..k]), AnyHolding);
            hit !! b.pools[p].members && ShrinkOrder(b, p, everything, b.pools[p].members + hit)
  {
    hide BooksOk, GoesBefore, Order.Sorted, Stamped;
    var members, records := b.pools[p].members, b.allocations;
    var ids := Order.Ascending(BorrowersOf(b1, p));
    var hit := Selected(b1.allocations, Order.Elements(ids[..k]), AnyHolding);
    MembersHold(b, queues, p);
    assert forall id :: id in ids <==> id in Order.Elements(ids);
    BorrowersSame(b, b1, p, now);
    forall id | id in hit ensures id !in members && id in records && BorrowsFrom(records[id], p) { assert id in ids; }
    var gone := members + hit;
    forall x, y | x in gone && x !in members && y in records && y !in gone && BorrowsFrom(records[y], p) ensures x < y {
      assert y in BorrowersOf(b1, p);
      PrefixRanks(ids, Order.ById(), k, x, y);
    }
  }

  lemma BorrowersSame(b: Books, b1: Books, p: u64, now: u64)
    requires p in b.pools && RecordsStamped(b.allocations, b1.allocations, b.pools[p].members, Fenced, now)
    requires forall id :: id in b.pools[p].members ==> id in b.allocations && b.allocations[id].pool == p
    requires forall id :: id in b.allocations && BorrowsFrom(b.allocations[id], p) ==> b.allocations[id].pool != p
    ensures forall id :: id in BorrowersOf(b1, p) <==> id in b.allocations && BorrowsFrom(b.allocations[id], p)
    ensures forall id :: id in BorrowersOf(b1, p) ==> id !in b.pools[p].members && b1.allocations[id].Holds()
  {
  }

  /** enforce_capacity fences the members in order, and then, only if that was not enough, the
      borrowers by id. */
  lemma EnforceStamps(b: Books, queues: map<u64, Queue>, p: u64, allowance: u64, everything: bool, now: u64)
    requires BooksOk(b, queues) && p in b.pools
    ensures var b' := EnforceCapacity(b, p, allowance, everything, now).0;
            var gone := Ended(b.allocations, b'.allocations);
            && b'.nextAllocation == b.nextAllocation && RecordsStamped(b.allocations, b'.allocations, gone, Fenced, now)
            && ShrinkOrder(b, p, everything, gone)
  {
    hide BooksOk, ShrinkAll, RecordsStamped, Selected, ShrinkOrder, Ended, BorrowersOf, Shrunk;
    var ids := Order.Ranked(b.pools[p].members, ShrinkRank(b.allocations));
    var k := ShrinkStamps(b, queues, p, ids, allowance, everything, now);
    var b1 := ShrinkAll(b, p, ids, allowance, everything, now).0;
    var hit := Selected(b.allocations, Order.Elements(ids[..k]), AnyHolding);
    ShrinkAllKeepsBooks(b, queues, p, ids, allowance, everything, now);
    MembersOrder(b, queues, p, ids, k, everything);
    MembersHold(b, queues, p);
    if b1.pools[p].ownUsage <= allowance {
      StampedEnd(b.allocations, b1.allocations, hit, now);
    } else {
      var later := Order.Ascending(BorrowersOf(b1, p));
      var j := ShrinkStamps(b1, queues, p, later, allowance, false, now);
      var b2 := ShrinkAll(b1, p, later, allowance, false, now).0;
      var second := Selected(b1.allocations, Order.Elements(later[..j]), AnyHolding);
      BorrowersOrder(b, b1, queues, p, j, everything, now);
      StampsCompose(b.allocations, b1.allocations, b2.allocations, hit, second, Fenced, now);
      OrderHolds(b, p, everything, hit + second);
      StampedEnd(b.allocations, b2.allocations, hit + second, now);
    }
  }

  lemma OrderHolds(b: Books, p: u64, everything: bool, gone: set<u64>)
    requires p in b.pools && ShrinkOrder(b, p, everything, gone)
    ensures forall id :: id in gone ==> id in b.allocations && b.allocations[id].Holds()
  {
    hide GoesBefore;
  }

  /** resize_pool, for every request: a pool that may have the size gets it, with members and
      then borrowers fenced in order; the answer says whether its usage now fits. */
  lemma ResizeAnswers(s: Fabric, p: u64, raw: u64, protected: u64, expected: u64, now: u64)
    requires Inv(s)
    ensures ResizeAnswer(s, ResizePool(s, p, raw, protected, expected, now).0, p, raw, protected, expected,
                         ResizePool(s, p, raw, protected, expected, now).1, now)
  {
    hide Inv, ResizeGuard, ResizePool, Resizable, ResizeObjection, PoolResized, RecordsStamped, ShrinkOrder, Overdrawn, Enforced,
      PoolCloses;
    GuardOfResize(s, p, raw, protected, expected);
    if ResizeGuard(s, p, raw, protected, expected) == OK {
      ResizeGuardFacts(s, p, raw, protected, expected);
      EnforcedKeepsInv(s, p, raw, protected, now);
      EnforcedAnswers(s, p, raw, protected, now);
      EnforcedSize(s, p, raw, protected, now);
      var b := Enforced(s, p, raw, protected, now).0;
      ResizeShape(s, p, raw, protected, expected, now);
      ClosureIff(s.(books := b), p);
      InvForest(s.(books := b));
      OverdrawnIs(s.(books := b), p);
      OverdrawnIs(ResizePool(s, p, raw, protected, expected, now).0, p);
      ResizeFrame(s, p, raw, protected, expected, now);
      ResizedAlike(s, b, ResizePool(s, p, raw, protected, expected, now).0, p, raw, protected);
    } else {
      ResizeRefused(s, p, raw, protected, expected, now);
    }
  }

  lemma ResizeRefused(s: Fabric, p: u64, raw: u64, protected: u64, expected: u64, now: u64)
    requires ResizeGuard(s, p, raw, protected, expected) != OK
    ensures ResizePool(s, p, raw, protected, expected, now) == (s, ResizeGuard(s, p, raw, protected, expected))
  {
    hide ResizeGuard;
  }

  lemma ResizeFrame(s: Fabric, p: u64, raw: u64, protected: u64, expected: u64, now: u64)
    ensures var s' := ResizePool(s, p, raw, protected, expected, now).0; s' == s.(books := s'.books, shuttingDown := s'.shuttingDown)
  {
    hide ResizeGuard, EnforceCapacity, PoolCloses, ResizedBooks, ShrinkAllowance;
    if ResizeGuard(s, p, raw, protected, expected) == OK { ResizeGuardFacts(s, p, raw, protected, expected); }
  }

  lemma ResizedAlike(s: Fabric, b: Books, s': Fabric, p: u64, raw: u64, protected: u64)
    requires PoolResized(s, s.(books := b), p, raw, protected) && s'.books == b
    ensures PoolResized(s, s', p, raw, protected)
  {
  }

  lemma EnforcedAnswers(s: Fabric, p: u64, raw: u64, protected: u64, now: u64)
    requires Inv(s) && p in s.books.pools && 0 < raw <= MAX_UNITS && protected < raw
    requires s.books.pools[p].descriptor.generation < MAX_U64 && s.books.pools[p].capacityGeneration < MAX_U64
    ensures var b := Enforced(s, p, raw, protected, now).0;
            var gone := Ended(s.books.allocations, b.allocations);
            && b.nextAllocation == s.books.nextAllocation
            && RecordsStamped(s.books.allocations, b.allocations, gone, Fenced, now)
            && s.books.pools[p].descriptor.policy in s.policies
            && ShrinkOrder(s.books, p, s.policies[s.books.pools[p].descriptor.policy].fenceOnChange, gone)
  {
    hide BooksOk, EnforceCapacity, ShrinkAllowance, RecordsStamped, ShrinkOrder, Ended, Shrunk;
    var e := s.books.pools[p];
    var b1 := ResizedBooks(s.books, p, raw, protected);
    ResizedKeepsBooks(s.books, s.queues, p, raw, protected);
    EnforceStamps(b1, s.queues, p, ShrinkAllowance(Resized(e, raw, protected), s.policies),
                  s.policies[e.descriptor.policy].fenceOnChange, now);
    OrderResized(s.books, b1, p, s.policies[e.descriptor.policy].fenceOnChange,
                 Ended(s.books.allocations, Enforced(s, p, raw, protected, now).0.allocations));
  }

  lemma EnforcedSize(s: Fabric, p: u64, raw: u64, protected: u64, now: u64)
    requires Inv(s) && p in s.books.pools && 0 < raw <= MAX_UNITS && protected < raw
    requires s.books.pools[p].descriptor.generation < MAX_U64 && s.books.pools[p].capacityGeneration < MAX_U64
    ensures var b := Enforced(s, p, raw, protected, now).0;
            && PoolResized(s, s.(books := b), p, raw, protected)
            && p in b.pools && b.pools[p].descriptor.policy in s.policies
  {
    hide Inv, Enforced, Shrunk, ResizedBooks;
    PolicyKnown(s, p);
    EnforcedKeepsInv(s, p, raw, protected, now);
    var b := Enforced(s, p, raw, protected, now).0;
    ShrunkTopology(ResizedBooks(s.books, p, raw, protected), b);
    SizeKept(s, b, p, raw, protected);
    PolicyKnown(s.(books := b), p);
  }

  lemma ShrunkTopology(b: Books, b': Books)
    requires Shrunk(b, b')
    ensures SameTopology(b.pools, b'.pools)
  {
  }

  lemma PolicyKnown(s: Fabric, p: u64)
    requires Inv(s)
    ensures p in s.books.pools ==> s.books.pools[p].descriptor.policy in s.policies
  {
    hide BooksOk;
  }

  lemma SizeKept(s: Fabric, b: Books, p: u64, raw: u64, protected: u64)
    requires p in s.books.pools && SameTopology(ResizedBooks(s.books, p, raw, protected).pools, b.pools)
    requires s.books.pools[p].descriptor.generation < MAX_U64 && s.books.pools[p].capacityGeneration < MAX_U64
    ensures PoolResized(s, s.(books := b), p, raw, protected)
  {
  }

  lemma OrderResized(b: Books, b1: Books, p: u64, everything: bool, gone: set<u64>)
    requires p in b.pools && p in b1.pools && b1.allocations == b.allocations && b1.pools[p].members == b.pools[p].members
    ensures ShrinkOrder(b1, p, everything, gone) <==> ShrinkOrder(b, p, everything, gone)
  {
    hide GoesBefore;
  }

  // ----- Reclaiming -----

  /** A reclamation is admitted: for a number of units, from a known pool under the assertions
      made, by a policy that allows it. */
  ghost predicate Reclaims(s: Fabric, q: ReclaimRequest) {
    && !Closed(s) && 0 < q.target <= TWO60 && q.pool != 0 && q.pool in s.books.pools
    && Asserted(q.expectedEpoch, s.epoch) && Asserted(q.expectedPool, s.books.pools[q.pool].descriptor.generation)
    && s.books.pools[q.pool].descriptor.policy in s.policies
    && s.policies[s.books.pools[q.pool].descriptor.policy].reclaim.enabled
  }

  ghost predicate ReclaimObjection(s: Fabric, q: ReclaimRequest, code: Code) {
    || (code == SHUTTING_DOWN && Closed(s)) || (code == INVALID_ARGUMENT && (q.target == 0 || q.pool == 0))
    || (code == OVERFLOW && q.target > TWO60) || (code == UNKNOWN_POOL && q.pool !in s.books.pools)
    || (code == STALE_EPOCH && !Asserted(q.expectedEpoch, s.epoch))
    || (q.pool in s.books.pools
        && var d := s.books.pools[q.pool].descriptor;
           || (code == STALE_GENERATION && !Asserted(q.expectedPool, d.generation))
           || (code == UNKNOWN_POLICY && d.policy !in s.policies)
           || (code == POLICY_FORBIDS && d.policy in s.policies && !s.policies[d.policy].reclaim.enabled))
  }

  /** The record may be revoked: a member of the pool that holds units, of a class the policy lets
      be revoked, untouched for at least the policy's minimum hold. */
  ghost predicate Revokable(b: Books, p: u64, reclaim: ReclaimPolicy, now: u64, id: u64)
    requires p in b.pools
  {
    && id in b.pools[p].members && id in b.allocations
    && var r := b.allocations[id];
       && r.Holds() && (r.reclaimClass.Pinned? ==> reclaim.allowProtected)
       && (reclaim.minHold != 0 ==> r.lastTouched + reclaim.minHold <= now)
  }

  /** A is revoked before B of the same class: by priority, then the one touched longer ago, then
      by id. */
  ghost predicate YieldsBefore(a: Allocation, b: Allocation) {
    || a.priority < b.priority
    || (a.priority == b.priority
        && (a.lastTouched < b.lastTouched || (a.lastTouched == b.lastTouched && a.id < b.id)))
  }

  /** So many units reach the target, and the reserve the policy keeps free. */
  ghost predicate Enough(e: PoolEntry, reclaim: ReclaimPolicy, target: u64, units: int) {
    units >= target && Spare(e) + units >= reclaim.reserve
  }

  /** No victim is outranked by a record of its class that was left over. */
  ghost predicate NoneOutranked(b: Books, p: u64, reclaim: ReclaimPolicy, now: u64, victims: seq<u64>)
    requires p in b.pools
  {
    forall x, y :: x in victims && x in b.allocations && y !in victims && Revokable(b, p, reclaim, now, y) ==>
      b.allocations[x].reclaimClass == b.allocations[y].reclaimClass ==> YieldsBefore(b.allocations[x], b.allocations[y])
  }

  /** Nothing more could be taken: there are as many victims as there may be, one that is left
      would go beyond the policy's maximum, or none is left. */
  ghost predicate NothingMore(b: Books, p: u64, reclaim: ReclaimPolicy, now: u64, victims: seq<u64>, units: nat)
    requires p in b.pools
  {
    || |victims| >= 0x10_0000
    || (exists y :: y !in victims && Revokable(b, p, reclaim, now, y) && units + b.allocations[y].units > reclaim.maxUnits)
    || (forall y :: Revokable(b, p, reclaim, now, y) ==> y in victims)
  }

  /** The victims: each may be revoked and none is outranked; together they stay within the
      policy's maximum, the last of them was needed, and if they do not reach the goal, then
      nothing more could be taken. */
  ghost predicate Chosen(b: Books, p: u64, reclaim: ReclaimPolicy, target: u64, now: u64, victims: seq<u64>)
    requires p in b.pools
  {
    var e, units := b.pools[p], ReclaimPlans.UnitsOf(b.allocations, victims);
    && Order.Distinct(victims) && (forall id :: id in victims ==> Revokable(b, p, reclaim, now, id))
    && NoneOutranked(b, p, reclaim, now, victims) && units <= reclaim.maxUnits
    && (victims != [] ==>
          !Enough(e, reclaim, target, units - ReclaimPlans.UnitsAt(b.allocations, victims[|victims| - 1])))
    && (Enough(e, reclaim, target, units) || NothingMore(b, p, reclaim, now, victims, units))
  }

  ghost predicate ReclaimAnswer(s: Fabric, s': Fabric, q: ReclaimRequest, victims: seq<u64>, code: Code, now: u64) {
    if !Reclaims(s, q) then s' == s && ReclaimObjection(s, q, code)
    else
      && Chosen(s.books, q.pool, s.policies[s.books.pools[q.pool].descriptor.policy].reclaim, q.target, now, victims)
      && s' == s.(books := s'.books, shuttingDown := s'.shuttingDown)
      && s'.books.nextAllocation == s.books.nextAllocation
      && RecordsStamped(s.books.allocations, s'.books.allocations, Order.Elements(victims), AllocationState.Reclaimed, now)
      && q.pool in s'.books.pools && s'.books.pools[q.pool].descriptor.policy in s'.policies
      && code == (if Overdrawn(s', q.pool) then ACCOUNTING_VIOLATION else OK)
      && s'.shuttingDown == (s.shuttingDown || Overdrawn(s', q.pool))
  }

  lemma CandidateIs(b: Books, p: u64, policy: Policy, c: ReclaimClass, now: u64, id: u64)
    requires p in b.pools && (c.Pinned? ==> policy.reclaim.allowProtected)
    ensures id in Candidates(b, p, policy, c, now) <==>
            Revokable(b, p, policy.reclaim, now, id) && b.allocations[id].reclaimClass == c
  {
  }

  lemma NeedsIs(e: PoolEntry, policy: Policy, target: u64, units: u64)
    requires e.descriptor.protected < e.descriptor.raw <= MAX_UNITS && units <= MAX_UNITS
    ensures NeedsMore(units, target, e.Free(), policy.reclaim.reserve) <==> !Enough(e, policy.reclaim, target, units)
  {
  }

  /** The two listings a plan is taken from. */
  ghost predicate Listings(b: Books, p: u64, policy: Policy, now: u64, soft: seq<u64>, hard: seq<u64>)
    requires p in b.pools
  {
    && Order.Sorted(soft, ReclaimRank(b.allocations)) && Order.Sorted(hard, ReclaimRank(b.allocations))
    && ReclaimPlans.Facts(b, p, policy, Reclaimable, now, soft) && ReclaimPlans.Facts(b, p, policy, Pinned, now, hard)
  }

  /** Where each phase of a plan stopped, and why. */
  ghost predicate Phases(records: Records, policy: Policy, soft: seq<u64>, hard: seq<u64>, j: nat, k: nat, plan: Plan,
                         needs: bool) {
    && j <= |soft| && k <= |hard| && plan.victims == soft[..j] + hard[..k] && (k > 0 ==> policy.reclaim.allowProtected)
    && (needs && j < |soft| ==>
          |plan.victims| >= MAX_VICTIMS || plan.planned + ReclaimPlans.UnitsAt(records, soft[j]) > policy.reclaim.maxUnits)
    && (needs && j == |soft| && k < |hard| && policy.reclaim.allowProtected ==>
          |plan.victims| >= MAX_VICTIMS || plan.planned + ReclaimPlans.UnitsAt(records, hard[k]) > policy.reclaim.maxUnits)
  }

  lemma PlanPhases(b: Books, queues: map<u64, Queue>, p: u64, policy: Policy, target: u64, now: u64)
    returns (soft: seq<u64>, hard: seq<u64>, j: nat, k: nat)
    requires BooksOk(b, queues) && p in b.pools && policy.Valid()
    ensures Listings(b, p, policy, now, soft, hard)
    ensures var plan := BuildPlan(b, p, policy, target, now);
            Phases(b.allocations, policy, soft, hard, j, k, plan,
                   NeedsMore(plan.planned, target, b.pools[p].Free(), policy.reclaim.reserve))
  {
    soft, hard := ReclaimPlans.Ordered(b, p, policy, Reclaimable, now), ReclaimPlans.Ordered(b, p, policy, Pinned, now);
    hide BooksOk, Take, ReclaimPlans.Ordered, Policy.Valid, FirstPhase, BuildPlan, ReclaimPlans.Greedy, NeedsMore,
      ReclaimPlans.Facts, ReclaimRank;
    var free, first := b.pools[p].Free(), FirstPhase(b, p, policy, target, now);
    var plan := BuildPlan(b, p, policy, target, now);
    j := ReclaimPlans.FirstPhaseGreedy(b, queues, p, policy, target, now);
    k := 0;
    ReclaimPlans.BuildPlanIs(b, p, policy, target, now);
    ReclaimPlans.OrderedFacts(b, queues, p, policy, Reclaimable, now);
    ReclaimPlans.OrderedFacts(b, queues, p, policy, Pinned, now);
    if NeedsMore(first.planned, target, free, policy.reclaim.reserve) && policy.reclaim.allowProtected {
      ReclaimPlans.GreedyCounts(b.allocations, soft, first, j, target, free, policy);
      FactsList(b, p, policy, Pinned, now, hard);
      k := ReclaimPlans.TakeIsGreedy(b, hard, first, target, free, policy);
      BothPhases(b.allocations, policy, soft, hard, j, k, first, plan, target, free);
    } else {
      FirstOnly(b.allocations, policy, soft, hard, j, plan, target, free);
    }
  }

  lemma FactsList(b: Books, p: u64, policy: Policy, c: ReclaimClass, now: u64, ids: seq<u64>)
    requires p in b.pools && ReclaimPlans.Facts(b, p, policy, c, now, ids)
    ensures ReclaimPlans.Listable(b.allocations, ids)
  {
    hide Candidates;
  }

  lemma FirstOnly(records: Records, policy: Policy, soft: seq<u64>, hard: seq<u64>, j: nat, plan: Plan, target: u64, free: u64)
    requires ReclaimPlans.Greedy(records, soft, Plan([], 0, false, false), plan, j, target, free, policy)
    requires !(NeedsMore(plan.planned, target, free, policy.reclaim.reserve) && policy.reclaim.allowProtected)
    ensures Phases(records, policy, soft, hard, j, 0, plan, NeedsMore(plan.planned, target, free, policy.reclaim.reserve))
  {
    hide NeedsMore, ReclaimPlans.UnitsOf;
  }

  lemma BothPhases(records: Records, policy: Policy, soft: seq<u64>, hard: seq<u64>, j: nat, k: nat, first: Plan, plan: Plan,
                   target: u64, free: u64)
    requires policy.reclaim.allowProtected && NeedsMore(first.planned, target, free, policy.reclaim.reserve)
    requires ReclaimPlans.Greedy(records, soft, Plan([], 0, false, false), first, j, target, free, policy)
    requires ReclaimPlans.Greedy(records, hard, first, plan, k, target, free, policy)
    ensures Phases(records, policy, soft, hard, j, k, plan, NeedsMore(plan.planned, target, free, policy.reclaim.reserve))
  {
    hide NeedsMore, ReclaimPlans.UnitsOf;
    assert first.victims == soft[..j];
    ReclaimPlans.UnitsMonotone(records, plan.victims, |first.victims|, |plan.victims|);
    assert plan.victims[..|first.victims|] == first.victims && plan.victims[..|plan.victims|] == plan.victims;
  }

  lemma RankYields(records: Records, x: u64, y: u64)
    requires x in records && y in records && records[x].id == x && records[y].id == y
    requires Order.Before(ReclaimRank(records)(x), ReclaimRank(records)(y))
    ensures YieldsBefore(records[x], records[y])
  {
  }

  /** What a listing of the candidates of one class amounts to. */
  lemma ListingMeans(b: Books, p: u64, policy: Policy, c: ReclaimClass, now: u64, ids: seq<u64>)
    requires p in b.pools && ReclaimPlans.Facts(b, p, policy, c, now, ids) && (c.Pinned? ==> policy.reclaim.allowProtected)
    ensures forall id :: id in ids <==> Revokable(b, p, policy.reclaim, now, id) && b.allocations[id].reclaimClass == c
  {
    hide Candidates;
    forall id: u64
      ensures id in Candidates(b, p, policy, c, now) <==>
              Revokable(b, p, policy.reclaim, now, id) && b.allocations[id].reclaimClass == c
    {
      CandidateIs(b, p, policy, c, now, id);
    }
  }

  /** A prefix of a listing outranks the rest of it. */
  lemma PrefixYields(b: Books, queues: map<u64, Queue>, p: u64, policy: Policy, c: ReclaimClass, now: u64, ids: seq<u64>,
                     k: nat, x: u64, y: u64)
    requires BooksOk(b, queues) && p in b.pools && ReclaimPlans.Facts(b, p, policy, c, now, ids) && k <= |ids|
    requires Order.Sorted(ids, ReclaimRank(b.allocations)) && x in ids[..k] && y in ids && y !in ids[..k]
    ensures x in b.allocations && y in b.allocations && YieldsBefore(b.allocations[x], b.allocations[y])
  {
    hide BooksOk, ReclaimRank, Candidates, YieldsBefore;
    MembersHold(b, queues, p);
    assert x in ids;
    PrefixRanks(ids, ReclaimRank(b.allocations), k, x, y);
    assert x in Candidates(b, p, policy, c, now) && y in Candidates(b, p, policy, c, now);
    CandidateKnown(b, p, policy, c, now, x);
    CandidateKnown(b, p, policy, c, now, y);
    RankYields(b.allocations, x, y);
  }

  lemma CandidateKnown(b: Books, p: u64, policy: Policy, c: ReclaimClass, now: u64, id: u64)
    requires p in b.pools && id in Candidates(b, p, policy, c, now)
    ensures id in b.allocations
  {
  }

  lemma PhasesUnoutranked(b: Books, queues: map<u64, Queue>, p: u64, policy: Policy, now: u64, soft: seq<u64>, hard: seq<u64>,
                          j: nat, k: nat)
    requires BooksOk(b, queues) && p in b.pools && Listings(b, p, policy, now, soft, hard)
    requires j <= |soft| && k <= |hard| && (k > 0 ==> policy.reclaim.allowProtected)
    ensures NoneOutranked(b, p, policy.reclaim, now, soft[..j] + hard[..k])
  {
    hide BooksOk, ReclaimRank, YieldsBefore, ReclaimPlans.Facts, Order.Sorted;
    var victims := soft[..j] + hard[..k];
    ListingMeans(b, p, policy, Reclaimable, now, soft);
    if policy.reclaim.allowProtected { ListingMeans(b, p, policy, Pinned, now, hard); }
    forall x, y | x in victims && x in b.allocations && y !in victims && Revokable(b, p, policy.reclaim, now, y)
                  && b.allocations[x].reclaimClass == b.allocations[y].reclaimClass
      ensures YieldsBefore(b.allocations[x], b.allocations[y])
    {
      if x in soft[..j] {
        assert x in soft;
        PrefixYields(b, queues, p, policy, Reclaimable, now, soft, j, x, y);
      } else {
        assert x in hard[..k] && x in hard;
        PrefixYields(b, queues, p, policy, Pinned, now, hard, k, x, y);
      }
    }
  }

  lemma PhasesExhaust(b: Books, p: u64, policy: Policy, now: u64, soft: seq<u64>, hard: seq<u64>, j: nat, k: nat, plan: Plan)
    requires p in b.pools && Listings(b, p, policy, now, soft, hard)
    requires Phases(b.allocations, policy, soft, hard, j, k, plan, true)
    requires Order.Distinct(soft) && Order.Distinct(hard)
    ensures NothingMore(b, p, policy.reclaim, now, plan.victims, plan.planned)
  {
    hide ReclaimRank, ReclaimPlans.Facts, Order.Sorted, Order.Distinct;
    ListingMeans(b, p, policy, Reclaimable, now, soft);
    if policy.reclaim.allowProtected { ListingMeans(b, p, policy, Pinned, now, hard); }
    if j < |soft| {
      NotInPrefix(soft, hard, j, k, policy.reclaim.allowProtected, b.allocations);
      assert soft[j] in soft;
    } else if policy.reclaim.allowProtected && k < |hard| {
      NotInSuffix(soft, hard, j, k, b.allocations);
      assert hard[k] in hard;
    } else {
      assert soft[..j] == soft && (policy.reclaim.allowProtected ==> hard[..k] == hard);
      forall y | Revokable(b, p, policy.reclaim, now, y) ensures y in plan.victims {
        if b.allocations[y].reclaimClass.Pinned? { PinnedAllowed(b, p, policy.reclaim, now, y); }
      }
    }
  }

  lemma PinnedAllowed(b: Books, p: u64, reclaim: ReclaimPolicy, now: u64, id: u64)
    requires p in b.pools && Revokable(b, p, reclaim, now, id) && b.allocations[id].reclaimClass.Pinned?
    ensures reclaim.allowProtected
  {
  }

  lemma NotInPrefix(soft: seq<u64>, hard: seq<u64>, j: nat, k: nat, allowed: bool, records: Records)
    requires Order.Distinct(soft) && j < |soft| && k <= |hard| && (k > 0 ==> allowed)
    requires forall id :: id in soft ==> id in records && records[id].reclaimClass.Reclaimable?
    requires allowed ==> forall id :: id in hard ==> id in records && records[id].reclaimClass.Pinned?
    ensures soft[j] !in soft[..j] + hard[..k]
  {
    assert soft[j] in soft;
    forall i | 0 <= i < k ensures hard[i] != soft[j] { assert hard[i] in hard; }
  }

  lemma NotInSuffix(soft: seq<u64>, hard: seq<u64>, j: nat, k: nat, records: Records)
    requires Order.Distinct(hard) && j <= |soft| && k < |hard|
    requires forall id :: id in soft ==> id in records && records[id].reclaimClass.Reclaimable?
    requires forall id :: id in hard ==> id in records && records[id].reclaimClass.Pinned?
    ensures hard[k] !in soft[..j] + hard[..k]
  {
    assert hard[k] in hard;
    forall i | 0 <= i < j ensures soft[i] != hard[k] { assert soft[i] in soft; }
  }

  /** Every plan chooses its victims as stated. */
  lemma PlanChooses(b: Books, queues: map<u64, Queue>, p: u64, policy: Policy, target: u64, now: u64)
    requires BooksOk(b, queues) && p in b.pools && policy.Valid()
    ensures Chosen(b, p, policy.reclaim, target, now, BuildPlan(b, p, policy, target, now).victims)
  {
    hide BooksOk, BuildPlan, Policy.Valid, NeedsMore, Enough, NoneOutranked, NothingMore, Revokable, Phases, Listings;
    var plan := BuildPlan(b, p, policy, target, now);
    ReclaimPlans.PlanTheorem(b, queues, p, policy, target, now);
    var soft, hard, j, k := PlanPhases(b, queues, p, policy, target, now);
    PlanNoneOutranked(b, queues, p, policy, now, soft, hard, j, k, plan,
                      NeedsMore(plan.planned, target, b.pools[p].Free(), policy.reclaim.reserve));
    PlanBounds(b, queues, p, policy, target, now, plan);
    if NeedsMore(plan.planned, target, b.pools[p].Free(), policy.reclaim.reserve) {
      ListingsDistinct(b, p, policy, now, soft, hard);
      PhasesExhaust(b, p, policy, now, soft, hard, j, k, plan);
    }
  }

  lemma ListingsDistinct(b: Books, p: u64, policy: Policy, now: u64, soft: seq<u64>, hard: seq<u64>)
    requires p in b.pools && Listings(b, p, policy, now, soft, hard)
    ensures Order.Distinct(soft) && Order.Distinct(hard)
  {
    hide Candidates, Order.Sorted;
  }

  lemma PlanNoneOutranked(b: Books, queues: map<u64, Queue>, p: u64, policy: Policy, now: u64, soft: seq<u64>, hard: seq<u64>,
                          j: nat, k: nat, plan: Plan, needs: bool)
    requires BooksOk(b, queues) && p in b.pools && Listings(b, p, policy, now, soft, hard)
    requires Phases(b.allocations, policy, soft, hard, j, k, plan, needs)
    ensures NoneOutranked(b, p, policy.reclaim, now, plan.victims)
  {
    hide BooksOk, Listings, NoneOutranked;
    PhasesUnoutranked(b, queues, p, policy, now, soft, hard, j, k);
  }

  /** The rest of the choice, from the plan theorem. */
  lemma PlanBounds(b: Books, queues: map<u64, Queue>, p: u64, policy: Policy, target: u64, now: u64, plan: Plan)
    requires BooksOk(b, queues) && p in b.pools && policy.Valid() && ReclaimPlans.WellPlanned(b, p, policy, target, now, plan)
    ensures var e, units := b.pools[p], ReclaimPlans.UnitsOf(b.allocations, plan.victims);
            && Order.Distinct(plan.victims) && units == plan.planned <= policy.reclaim.maxUnits
            && (forall id :: id in plan.victims ==> Revokable(b, p, policy.reclaim, now, id))
            && (plan.victims != [] ==>
                  !Enough(e, policy.reclaim, target, units - ReclaimPlans.UnitsAt(b.allocations, plan.victims[|plan.victims| - 1])))
            && (NeedsMore(plan.planned, target, e.Free(), policy.reclaim.reserve) <==> !Enough(e, policy.reclaim, target, units))
  {
    hide RecordsOk, Agrees, InRange, Indexed, Forest, Candidates, NeedsMore, Enough, PoolEntry.Free, ReclaimPlans.UnitsOf,
      ReclaimPlans.UnitsAt;
    var e := b.pools[p];
    assert PoolOk(e, p);
    assert policy.reclaim.maxUnits <= MAX_UNITS;
    NeedsIs(e, policy, target, plan.planned);
    if plan.victims != [] {
      NeedsIs(e, policy, target, plan.planned - ReclaimPlans.UnitsAt(b.allocations, plan.victims[|plan.victims| - 1]));
    }
  }

  lemma GuardOfReclaim(s: Fabric, q: ReclaimRequest)
    ensures !s.Refusing() && PlanAdmission(s, q) == OK <==> Reclaims(s, q)
    ensures s.Refusing() ==> ReclaimObjection(s, q, SHUTTING_DOWN)
    ensures PlanAdmission(s, q) != OK ==> ReclaimObjection(s, q, PlanAdmission(s, q))
  {
  }

  lemma RevokedStamps(s: Fabric, q: ReclaimRequest, now: u64)
    requires Inv(s) && PlanAdmission(s, q) == OK
    ensures var victims, b := Victims(s, q, now), Revoked(s, q, now).0;
            && Chosen(s.books, q.pool, s.policies[s.books.pools[q.pool].descriptor.policy].reclaim, q.target, now, victims)
            && b.nextAllocation == s.books.nextAllocation
            && RecordsStamped(s.books.allocations, b.allocations, Order.Elements(victims), AllocationState.Reclaimed, now)
  {
    hide BooksOk, BuildPlan, FenceAll, RecordsStamped, Chosen, Policy.Valid, PlanAdmission;
    PlanAdmitted(s, q);
    var policy := s.policies[s.books.pools[q.pool].descriptor.policy];
    var victims := Victims(s, q, now);
    PlanChooses(s.books, s.queues, q.pool, policy, q.target, now);
    FenceAllStamps(s.books, s.queues, victims, AnyHolding, AllocationState.Reclaimed, now);
    ChosenHold(s.books, q.pool, policy.reclaim, q.target, now, victims);
    assert Selected(s.books.allocations, Order.Elements(victims), AnyHolding) == Order.Elements(victims);
  }

  lemma PlanAdmitted(s: Fabric, q: ReclaimRequest)
    requires PlanAdmission(s, q) == OK
    ensures q.pool in s.books.pools && s.books.pools[q.pool].descriptor.policy in s.policies
  {
  }

  lemma ChosenHold(b: Books, p: u64, reclaim: ReclaimPolicy, target: u64, now: u64, victims: seq<u64>)
    requires p in b.pools && Chosen(b, p, reclaim, target, now, victims)
    ensures forall id :: id in victims ==> id in b.allocations && b.allocations[id].Holds()
  {
    hide NoneOutranked, NothingMore, Enough, ReclaimPlans.UnitsOf;
  }

  /** apply_reclaim, for every request: the victims are chosen as stated and exactly they are
      revoked; the answer says whether the pool's usage is within its allowance afterwards. */
  lemma ReclaimAnswers(s: Fabric, q: ReclaimRequest, now: u64)
    requires Inv(s)
    ensures exists victims ::
              ReclaimAnswer(s, ApplyReclaim(s, q, now).0, q, victims, ApplyReclaim(s, q, now).1, now)
  {
    hide Inv, PlanAdmission, ApplyReclaim, Reclaims, ReclaimObjection, Revoked, RecordsStamped, Chosen, Overdrawn, PoolCloses, Victims;
    var (s', code) := ApplyReclaim(s, q, now);
    GuardOfReclaim(s, q);
    if Reclaims(s, q) {
      var victims := Victims(s, q, now);
      PlanAdmitted(s, q);
      RevokedKeepsInv(s, q, now);
      RevokedStamps(s, q, now);
      ReclaimShape(s, q, now);
      ReclaimFrame(s, q, now);
      ReclaimCloses(s, q, now);
      var s1 := s.(books := Revoked(s, q, now).0);
      InvForest(s1);
      OverdrawnIs(s1, q.pool);
      OverdrawnIs(s', q.pool);
      assert ReclaimAnswer(s, s', q, victims, code, now);
    } else {
      ReclaimRefused(s, q, now);
      assert ReclaimAnswer(s, s', q, [], code, now);
    }
  }

  lemma ReclaimFrame(s: Fabric, q: ReclaimRequest, now: u64)
    ensures var s' := ApplyReclaim(s, q, now).0; s' == s.(books := s'.books, shuttingDown := s'.shuttingDown)
  {
    hide BuildPlan, FenceAll, PoolCloses, PlanAdmission;
    if PlanAdmission(s, q) == OK { PlanAdmitted(s, q); }
  }

  lemma ReclaimRefused(s: Fabric, q: ReclaimRequest, now: u64)
    requires !(!s.Refusing() && PlanAdmission(s, q) == OK)
    ensures ApplyReclaim(s, q, now) == (s, if s.Refusing() then SHUTTING_DOWN else PlanAdmission(s, q))
  {
    hide PlanAdmission;
  }
}
