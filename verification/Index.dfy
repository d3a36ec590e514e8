/** The member index of a pool: what keeps it complete, what a partial release strands
    outside it, and exactly when a resize ends within the pool's allowance. */
module Index {
  import opened Arithmetic
  import opened Sums
  import opened Model
  import opened Grants
  import opened Ledger
  import opened Topology
  import opened Aggregates
  import opened Invariant
  import opened Transitions
  import opened AllocationSteps
  import opened TopologySteps
  import opened Steps
  import opened Split
  import Order

  /** Every record that holds units is listed by its pool. */
  ghost predicate Complete(b: Books) {
    forall id :: id in b.allocations && b.allocations[id].Holds() && b.allocations[id].pool in b.pools ==>
      id in b.pools[b.allocations[id].pool].members
  }

  lemma ShrunkComplete(b: Books, b': Books)
    requires Shrunk(b, b') && Complete(b)
    ensures Complete(b')
  {
    forall id | id in b'.allocations && b'.allocations[id].Holds() && b'.allocations[id].pool in b'.pools
      ensures id in b'.pools[b'.allocations[id].pool].members
    {
      assert LetGo(b.allocations[id], b'.allocations[id]);
    }
  }

  lemma EnteredComplete(b: Books, b': Books, r: Allocation)
    requires EnteredBooks(b, b', r) && Complete(b)
    ensures Complete(b')
  {
  }

  lemma PromotedComplete(b: Books, id: u64, now: u64)
    requires id in b.allocations && b.allocations[id].Holds() && b.allocations[id].pool in b.pools && Complete(b)
    ensures Complete(Promoted(b, id, now))
  {
  }

  lemma ReboundComplete(b: Books, id: u64, bound: Bound, now: u64)
    requires id in b.allocations && b.allocations[id].Holds() && Complete(b)
    ensures Complete(Rebound(b, id, bound, now))
  {
  }

  lemma FullReleaseComplete(b: Books, queues: map<u64, Queue>, id: u64, now: u64)
    requires BooksOk(b, queues) && id in b.allocations && b.allocations[id].Holds() && Complete(b)
    ensures Complete(Returning(b, id, b.allocations[id].units, now).0)
  {
    hide Returning, Agrees;
    var r := b.allocations[id];
    ReturningShape(b, queues, id, r.units, now);
  }

  /** A change that leaves the index complete: anything but a partial release. */
  ghost predicate Whole(s: Fabric, c: Change) {
    c.GiveBack? && c.id in s.books.allocations ==> c.units == s.books.allocations[c.id].units
  }

  lemma ResizedComplete(b: Books, p: u64, raw: u64, protected: u64)
    requires p in b.pools && Complete(b)
    ensures Complete(ResizedBooks(b, p, raw, protected))
  {
  }

  lemma PoolAddedComplete(b: Books, b': Books, queues: map<u64, Queue>, p: u64, e: PoolEntry)
    requires RecordsOk(b.allocations, b.pools, queues) && Complete(b) && p !in b.pools
    requires b'.pools == b.pools[p := e] && b'.allocations == b.allocations
    ensures Complete(b')
  {
    forall id | id in b'.allocations && b'.allocations[id].Holds() && b'.allocations[id].pool in b'.pools
      ensures id in b'.pools[b'.allocations[id].pool].members
    {
      assert HolderOk(b.allocations[id], b.pools, queues);
    }
  }

  lemma PoolDroppedComplete(b: Books, b': Books, p: u64)
    requires Complete(b) && b'.pools == b.pools - {p} && b'.allocations == b.allocations
    ensures Complete(b')
  {
  }

  lemma TopologyComplete(s: Fabric, s': Fabric, c: Change, now: u64)
    requires Inv(s) && Changes(s, s', c, now) && Complete(s.books) && (c.AddPool? || c.DropPool?)
    ensures Complete(s'.books)
  {
    hide Complete, RecordsOk, Agrees, Forest, Indexed, PoolGuard, RemovalGuard;
    if c.AddPool? {
      PoolGuardFacts(s, c.descriptor);
      PoolAddedComplete(s.books, s'.books, s.queues, c.descriptor.id, EmptyEntry(c.descriptor, 1));
    } else {
      PoolDroppedComplete(s.books, s'.books, c.pool);
    }
  }

  lemma SameComplete(b: Books, b': Books)
    requires SameBooks(b, b') && Complete(b)
    ensures Complete(b')
  {
  }

  lemma ResizeComplete(s: Fabric, s': Fabric, p: u64, raw: u64, protected: u64, now: u64)
    requires Inv(s) && ResizedTo(s, s', p, raw, protected, now) && Complete(s.books)
    ensures Complete(s'.books)
  {
    hide Inv, Complete, Shrunk, Becomes;
    ResizingKeepsInv(s, s', p, raw, protected, now);
    ResizedComplete(s.books, p, raw, protected);
    ShrunkComplete(ResizedBooks(s.books, p, raw, protected), s'.books);
  }

  /** Changes that rewrite one record. */
  lemma RewriteComplete(s: Fabric, s': Fabric, c: Change, now: u64)
    requires Inv(s) && Changes(s, s', c, now) && Complete(s.books) && Whole(s, c)
    requires c.Promote? || c.GiveBack? || c.Rebind?
    ensures Complete(s'.books)
  {
    hide BooksOk, Complete, Promoted, Returning, Rebound;
    match c
    case Promote(id) => PromotedComplete(s.books, id, now);
    case GiveBack(id, units) => FullReleaseComplete(s.books, s.queues, id, now);
    case Rebind(id) => ReboundComplete(s.books, id, RenewedFor(s, id), now);
  }

  /** Without partial releases a complete index stays complete. */
  lemma CompleteKept(s: Fabric, s': Fabric, c: Change, now: u64)
    requires Inv(s) && Changes(s, s', c, now) && Complete(s.books) && Whole(s, c)
    ensures Complete(s'.books)
  {
    hide Inv, Complete, PoolAdded, PoolDropped, ResizedTo, RetiredBy, RetargetedTo, Published, Promoted, Returning, Rebound;
    hide FenceAll, Shrunk, Whole;
    match c
    case Nothing => SameComplete(s.books, s'.books);
    case NewCapacity(capacity) => SameComplete(s.books, s'.books);
    case Enter(r) => EnteredComplete(s.books, s'.books, r);
    case Promote(id) => RewriteComplete(s, s', c, now);
    case GiveBack(id, units) => RewriteComplete(s, s', c, now);
    case Rebind(id) => RewriteComplete(s, s', c, now);
    case Shed(ids, sel, to) =>
      SheddingKeepsInv(s, s', ids, sel, to, now);
      ShrunkComplete(s.books, s'.books);
    case NewPolicy(policy, order) =>
      PublishedKeepsInv(s, s', policy, order, now);
      ShrunkComplete(s.books, s'.books);
    case AddPool(d) => TopologyComplete(s, s', c, now);
    case DropPool(p) => TopologyComplete(s, s', c, now);
    case Resize(p, raw, protected) => ResizeComplete(s, s', p, raw, protected, now);
    case AddQueue(q) => SameComplete(s.books, s'.books);
    case EditDemand(q) => SameComplete(s.books, s'.books);
    case Retire(id) =>
      RetiringKeepsInv(s, s', id, now);
      ShrunkComplete(s.books, s'.books);
    case Retarget(id, target) =>
      RetargetingKeepsInv(s, s', id, target, now);
      ShrunkComplete(s.books, s'.books);
  }

  // ----- What a resize can reach -----

  ghost function StrandedShare(b: Books, p: u64): u64 -> nat {
    (id: u64) =>
      if id in b.allocations && b.allocations[id].Holds() && b.allocations[id].pool == p && p in b.pools
         && id !in b.pools[p].members
      then b.allocations[id].Own() else 0
  }

  /** Own units of pool p held by records its member index does not list. */
  ghost function Stranded(b: Books, p: u64): nat { SumOver(b.allocations.Keys, StrandedShare(b, p)) }

  lemma CompleteStrandsNothing(b: Books, p: u64)
    requires Complete(b)
    ensures Stranded(b, p) == 0
  {
    SumZero(b.allocations.Keys, StrandedShare(b, p));
  }

  /** Fencing never touches a stranded record that is not itself a borrower from p. */
  lemma StrandedWithinUsage(b: Books, p: u64)
    requires Agrees(b.pools, b.allocations) && p in b.pools
    ensures Stranded(b, p) <= b.pools[p].ownUsage
  {
    SumMonotone(b.allocations.Keys, StrandedShare(b, p), Share(b.allocations, InOwn, p));
    assert Field(b.pools[p], InOwn) == Total(b.allocations, InOwn, p);
  }

  /** No listed member and no borrower of p holds units. */
  ghost predicate Exhausted(b: Books, p: u64) {
    && p in b.pools && b.pools[p].members == {}
    && forall id :: id in b.allocations && b.allocations[id].Holds() ==>
         !(b.allocations[id].lender == p && b.allocations[id].borrow != 0)
  }

  /** Then what is left of the pool's usage is exactly what is stranded. */
  lemma ExhaustedUsage(b: Books, p: u64)
    requires Agrees(b.pools, b.allocations) && p in b.pools && Exhausted(b, p)
    ensures b.pools[p].ownUsage == Stranded(b, p)
  {
    forall id | id in b.allocations ensures Share(b.allocations, InOwn, p)(id) == StrandedShare(b, p)(id) {
    }
    SumCongruent(b.allocations.Keys, Share(b.allocations, InOwn, p), StrandedShare(b, p));
    assert Field(b.pools[p], InOwn) == Total(b.allocations, InOwn, p);
  }

  /** A shrink loop touches only the ids it is given. */
  lemma {:induction false} ShrinkTouches(b: Books, queues: map<u64, Queue>, p: u64, ids: seq<u64>, allowance: u64,
                                         everything: bool, now: u64, id: u64)
    requires BooksOk(b, queues) && id !in ids && id in b.allocations
    ensures var b' := ShrinkAll(b, p, ids, allowance, everything, now).0;
            id in b'.allocations && b'.allocations[id] == b.allocations[id]
    decreases |ids|
  {
    hide BooksOk, Shrunk;
    if ids == [] || p !in b.pools || (!everything && b.pools[p].ownUsage <= allowance) {
    } else if ids[0] !in b.allocations || !b.allocations[ids[0]].Holds() {
      ShrinkTouches(b, queues, p, ids[1..], allowance, everything, now, id);
    } else {
      var b1 := FenceOne(b, ids[0], Fenced, now).0;
      FenceOneKeepsBooks(b, queues, ids[0], Fenced, now);
      FenceOneMarks(b, queues, ids[0], Fenced, now);
      ShrinkTouches(b1, queues, p, ids[1..], allowance, everything, now, id);
    }
  }

  lemma FenceOneMarks(b: Books, queues: map<u64, Queue>, id: u64, to: AllocationState, now: u64)
    requires BooksOk(b, queues) && id in b.allocations && b.allocations[id].Holds()
    ensures FenceOne(b, id, to, now).0.allocations == b.allocations[id := Marked(b.allocations[id], to, now)]
  {
    FenceOneShape(b, queues, id, to, now);
  }

  /** Unless usage came to fit, a shrink loop leaves nothing it was given holding units. */
  lemma {:induction false} ShrinkClears(b: Books, queues: map<u64, Queue>, p: u64, ids: seq<u64>, allowance: u64,
                                        everything: bool, now: u64, id: u64)
    requires BooksOk(b, queues) && p in b.pools && id in ids && id in b.allocations
    ensures var b' := ShrinkAll(b, p, ids, allowance, everything, now).0;
            && p in b'.pools && id in b'.allocations
            && (everything || b'.pools[p].ownUsage > allowance ==> !b'.allocations[id].Holds())
    decreases |ids|
  {
    hide BooksOk, IndexShrunk, FenceOne;
    ShrinkAllKeepsBooks(b, queues, p, ids, allowance, everything, now);
    if !everything && b.pools[p].ownUsage <= allowance {
    } else if ids[0] !in b.allocations || !b.allocations[ids[0]].Holds() {
      if id == ids[0] {
        ShrinkAllKeepsBooks(b, queues, p, ids[1..], allowance, everything, now);
        assert LetGo(b.allocations[id], ShrinkAll(b, p, ids[1..], allowance, everything, now).0.allocations[id]);
      } else {
        ShrinkClears(b, queues, p, ids[1..], allowance, everything, now, id);
      }
    } else {
      var b1 := FenceOne(b, ids[0], Fenced, now).0;
      FenceOneKeepsBooks(b, queues, ids[0], Fenced, now);
      FenceOneMarks(b, queues, ids[0], Fenced, now);
      if id == ids[0] {
        ShrinkAllKeepsBooks(b1, queues, p, ids[1..], allowance, everything, now);
        assert LetGo(b1.allocations[id], ShrinkAll(b1, p, ids[1..], allowance, everything, now).0.allocations[id]);
      } else {
        ShrinkClears(b1, queues, p, ids[1..], allowance, everything, now, id);
      }
    }
  }

  /** Only listed members of p, and records of other pools, were let go. */
  ghost predicate Spares(b: Books, b': Books, p: u64) {
    forall id :: id in b.allocations && id in b'.allocations && b'.allocations[id] != b.allocations[id] ==>
      b.allocations[id].pool != p || (p in b.pools && id in b.pools[p].members)
  }

  lemma StrandedKept(b: Books, b': Books, p: u64)
    requires Shrunk(b, b') && p in b.pools && Spares(b, b', p)
    ensures Stranded(b', p) == Stranded(b, p)
  {
    forall id | id in b.allocations ensures StrandedShare(b', p)(id) == StrandedShare(b, p)(id) {
      assert LetGo(b.allocations[id], b'.allocations[id]);
    }
    SumCongruent(b.allocations.Keys, StrandedShare(b', p), StrandedShare(b, p));
  }

  /** First phase: the members, in rank order. */
  lemma MembersPhase(b: Books, queues: map<u64, Queue>, p: u64, allowance: u64, everything: bool, now: u64)
    requires BooksOk(b, queues) && p in b.pools
    ensures var ids := Order.Ranked(b.pools[p].members, ShrinkRank(b.allocations));
            var b' := ShrinkAll(b, p, ids, allowance, everything, now).0;
            && BooksOk(b', queues) && Shrunk(b, b') && p in b'.pools && Stranded(b', p) == Stranded(b, p)
            && (everything || b'.pools[p].ownUsage > allowance ==> b'.pools[p].members == {})
  {
    hide BooksOk, Shrunk, ShrinkAll, Stranded;
    var ids := Order.Ranked(b.pools[p].members, ShrinkRank(b.allocations));
    var b' := ShrinkAll(b, p, ids, allowance, everything, now).0;
    ShrinkAllKeepsBooks(b, queues, p, ids, allowance, everything, now);
    forall id | id in b.allocations && id in b'.allocations && b'.allocations[id] != b.allocations[id]
      ensures id in b.pools[p].members
    {
      if id !in ids { ShrinkTouches(b, queues, p, ids, allowance, everything, now, id); }
      assert id in Order.Elements(ids);
    }
    StrandedKept(b, b', p);
    AllCleared(b, b', queues, p, ids, allowance, everything, now);
  }

  lemma AllCleared(b: Books, b': Books, queues: map<u64, Queue>, p: u64, ids: seq<u64>, allowance: u64,
                   everything: bool, now: u64)
    requires BooksOk(b, queues) && p in b.pools && Order.Elements(ids) == b.pools[p].members
    requires b' == ShrinkAll(b, p, ids, allowance, everything, now).0 && BooksOk(b', queues) && Shrunk(b, b')
    ensures p in b'.pools
    ensures everything || b'.pools[p].ownUsage > allowance ==> b'.pools[p].members == {}
  {
    hide Agrees, Forest, RecordsOk, ShrinkAll;
    assert SameTopology(b.pools, b'.pools);
    if everything || b'.pools[p].ownUsage > allowance {
      forall id: u64 ensures id !in b'.pools[p].members {
        assert id in b'.pools[p].members ==> id in b.pools[p].members;
        if id in b.pools[p].members {
          assert id in Order.Elements(ids);
          ShrinkClears(b, queues, p, ids, allowance, everything, now, id);
        }
      }
      assert b'.pools[p].members == {};
    }
  }

  /** Second phase: the borrowers, by id. */
  lemma BorrowersPhase(b: Books, queues: map<u64, Queue>, p: u64, allowance: u64, now: u64)
    requires BooksOk(b, queues) && p in b.pools && b.pools[p].members == {}
    ensures var b' := ShrinkAll(b, p, Order.Ascending(BorrowersOf(b, p)), allowance, false, now).0;
            && BooksOk(b', queues) && p in b'.pools && Stranded(b', p) == Stranded(b, p)
            && (b'.pools[p].ownUsage > allowance ==> Exhausted(b', p))
  {
    hide Agrees, Forest, ShrinkAll, Stranded;
    var ids := Order.Ascending(BorrowersOf(b, p));
    var b' := ShrinkAll(b, p, ids, allowance, false, now).0;
    ShrinkAllKeepsBooks(b, queues, p, ids, allowance, false, now);
    forall id | id in b.allocations && id in b'.allocations && b'.allocations[id] != b.allocations[id]
      ensures b.allocations[id].pool != p
    {
      if id !in ids { ShrinkTouches(b, queues, p, ids, allowance, false, now, id); }
      assert id in Order.Elements(ids);
      assert HolderOk(b.allocations[id], b.pools, queues);
    }
    StrandedKept(b, b', p);
    if b'.pools[p].ownUsage > allowance { NoBorrowersLeft(b, b', queues, p, ids, allowance, now); }
  }

  lemma MembersVanish(b: Books, b': Books, p: u64)
    requires Shrunk(b, b') && p in b.pools && b.pools[p].members == {}
    ensures p in b'.pools && b'.pools[p].members == {}
  {
    assert forall id: u64 :: id in b'.pools[p].members ==> id in b.pools[p].members;
  }

  lemma NoBorrowersLeft(b: Books, b': Books, queues: map<u64, Queue>, p: u64, ids: seq<u64>, allowance: u64, now: u64)
    requires BooksOk(b, queues) && p in b.pools && b.pools[p].members == {}
    requires Order.Elements(ids) == BorrowersOf(b, p)
    requires b' == ShrinkAll(b, p, ids, allowance, false, now).0 && Shrunk(b, b') && p in b'.pools
    requires b'.pools[p].ownUsage > allowance
    ensures Exhausted(b', p)
  {
    hide BooksOk, ShrinkAll;
    MembersVanish(b, b', p);
    forall id | id in b'.allocations && b'.allocations[id].lender == p && b'.allocations[id].borrow != 0
      ensures !b'.allocations[id].Holds()
    {
      assert LetGo(b.allocations[id], b'.allocations[id]);
      if b.allocations[id].Holds() {
        assert id in Order.Elements(ids);
        ShrinkClears(b, queues, p, ids, allowance, false, now, id);
      }
    }
  }

  /** Enforcing capacity ends within the allowance exactly when the stranded units alone
      are within it; otherwise nothing but the stranded units is left. */
  lemma EnforceFitsIff(b: Books, queues: map<u64, Queue>, p: u64, allowance: u64, everything: bool, now: u64)
    requires BooksOk(b, queues) && p in b.pools
    ensures var b' := EnforceCapacity(b, p, allowance, everything, now).0;
            && p in b'.pools
            && (b'.pools[p].ownUsage <= allowance <==> Stranded(b, p) <= allowance)
            && (b'.pools[p].ownUsage > allowance ==> b'.pools[p].ownUsage == Stranded(b, p))
            && (everything ==> b'.pools[p].members == {})
  {
    hide BooksOk, ShrinkAll, Stranded, Shrunk, Exhausted;
    var ids := Order.Ranked(b.pools[p].members, ShrinkRank(b.allocations));
    var b1 := ShrinkAll(b, p, ids, allowance, everything, now).0;
    ShrinkAllKeepsBooks(b, queues, p, ids, allowance, everything, now);
    MembersPhase(b, queues, p, allowance, everything, now);
    FloorOf(b1, queues, p);
    if b1.pools[p].ownUsage > allowance {
      var b2 := ShrinkAll(b1, p, Order.Ascending(BorrowersOf(b1, p)), allowance, false, now).0;
      BorrowersPhase(b1, queues, p, allowance, now);
      FloorOf(b2, queues, p);
      MembersStayEmpty(b1, queues, p, allowance, now);
    }
  }

  lemma MembersStayEmpty(b: Books, queues: map<u64, Queue>, p: u64, allowance: u64, now: u64)
    requires BooksOk(b, queues) && p in b.pools && b.pools[p].members == {}
    ensures var b' := ShrinkAll(b, p, Order.Ascending(BorrowersOf(b, p)), allowance, false, now).0;
            p in b'.pools && b'.pools[p].members == {}
  {
    hide BooksOk, ShrinkAll, Shrunk;
    var ids := Order.Ascending(BorrowersOf(b, p));
    ShrinkAllKeepsBooks(b, queues, p, ids, allowance, false, now);
    MembersVanish(b, ShrinkAll(b, p, ids, allowance, false, now).0, p);
  }

  lemma FloorOf(b: Books, queues: map<u64, Queue>, p: u64)
    requires BooksOk(b, queues) && p in b.pools
    ensures Stranded(b, p) <= b.pools[p].ownUsage
    ensures Exhausted(b, p) ==> b.pools[p].ownUsage == Stranded(b, p)
  {
    hide Agrees, Stranded, Forest;
    StrandedWithinUsage(b, p);
    if Exhausted(b, p) { ExhaustedUsage(b, p); }
  }

  lemma StrandedResized(b: Books, p: u64, raw: u64, protected: u64)
    requires p in b.pools
    ensures Stranded(ResizedBooks(b, p, raw, protected), p) == Stranded(b, p)
  {
    SumCongruent(b.allocations.Keys, StrandedShare(ResizedBooks(b, p, raw, protected), p), StrandedShare(b, p));
  }

  lemma EnforcedFitsIff(s: Fabric, p: u64, raw: u64, protected: u64, now: u64)
    requires Inv(s) && p in s.books.pools && 0 < raw <= MAX_UNITS && protected < raw
    ensures var policy := s.policies[s.books.pools[p].descriptor.policy];
            var b := Enforced(s, p, raw, protected, now).0;
            && p in b.pools && b.pools[p].descriptor == Resized(s.books.pools[p], raw, protected).descriptor
            && (WithinAllowance(b.pools[p], policy) <==> Stranded(s.books, p) <= raw - protected + policy.Allowance())
            && (policy.fenceOnChange ==> b.pools[p].members == {})
  {
    hide BooksOk, EnforceCapacity, Stranded;
    var e := Resized(s.books.pools[p], raw, protected);
    ResizedKeepsBooks(s.books, s.queues, p, raw, protected);
    EnforceFitsIff(ResizedBooks(s.books, p, raw, protected), s.queues, p, ShrinkAllowance(e, s.policies),
                   s.policies[e.descriptor.policy].fenceOnChange, now);
    StrandedResized(s.books, p, raw, protected);
    EnforcedKeepsInv(s, p, raw, protected, now);
  }

  /** The resize theorem, for every state and every admitted request: the resize succeeds,
      ending with usage within the new usable capacity plus the overcommit limit, if and
      only if the units its member index does not list are within that bound. If they are
      not, the closing check fails and the fabric shuts down. */
  lemma ResizeFitsIff(s: Fabric, p: u64, raw: u64, protected: u64, expected: u64, now: u64)
    requires Inv(s) && ResizeGuard(s, p, raw, protected, expected) == OK
    ensures p in s.books.pools && s.books.pools[p].descriptor.policy in s.policies && protected < raw
    ensures var policy := s.policies[s.books.pools[p].descriptor.policy];
            var fits := Stranded(s.books, p) <= raw - protected + policy.Allowance();
            var (s', code) := ResizePool(s, p, raw, protected, expected, now);
            && p in s'.books.pools && code == (if fits then OK else ACCOUNTING_VIOLATION)
            && s'.shuttingDown == (s.shuttingDown || !fits)
            && (fits <==> s'.books.pools[p].ownUsage <= raw - protected + policy.Allowance())
            && (policy.fenceOnChange ==> s'.books.pools[p].members == {})
  {
    hide Inv, ResizeGuard, Enforced, PoolCloses, ResizePool, Stranded;
    ResizeGuardFacts(s, p, raw, protected, expected);
    EnforcedKeepsInv(s, p, raw, protected, now);
    EnforcedFitsIff(s, p, raw, protected, now);
    ResizeShape(s, p, raw, protected, expected, now);
    ClosureIff(s.(books := Enforced(s, p, raw, protected, now).0), p);
  }

  /** With a complete index a resize always fits, so its closing check never fails. */
  lemma CompleteResizeFits(s: Fabric, p: u64, raw: u64, protected: u64, expected: u64, now: u64)
    requires Inv(s) && Complete(s.books) && ResizeGuard(s, p, raw, protected, expected) == OK
    ensures var (s', code) := ResizePool(s, p, raw, protected, expected, now);
            && code == OK && s'.shuttingDown == s.shuttingDown
            && p in s.books.pools && s.books.pools[p].descriptor.policy in s.policies && p in s'.books.pools
            && s'.books.pools[p].ownUsage <= raw - protected + s.policies[s.books.pools[p].descriptor.policy].Allowance()
  {
    hide Inv, Complete, ResizeGuard, ResizePool, Stranded;
    CompleteStrandsNothing(s.books, p);
    ResizeFitsIff(s, p, raw, protected, expected, now);
  }

  /** A partial release drops the record from the index, so what it keeps is stranded. */
  lemma PartialReleaseStrands(b: Books, queues: map<u64, Queue>, id: u64, release: u64, now: u64)
    requires BooksOk(b, queues) && id in b.allocations && b.allocations[id].Holds()
    requires 0 < release < b.allocations[id].units && SplitHolds(b.allocations[id], release)
    ensures var (b', code) := Returning(b, id, release, now);
            code == OK && Stranded(b', b.allocations[id].pool) >= RemainingHalf(b.allocations[id], release, now).Own()
  {
    hide Returning, Agrees, Forest;
    var r := b.allocations[id];
    ReturningShape(b, queues, id, release, now);
    SplitConserves(r, release, now);
    var b' := Returning(b, id, release, now).0;
    SumMember(b'.allocations.Keys, StrandedShare(b', r.pool), id);
  }

  /** So a pool can be shrunk below what a partial release left behind only at the price of
      a failed closing check and a shutdown. */
  lemma ShrinkBelowRemainderFails(s: Fabric, id: u64, release: u64, raw: u64, protected: u64, expected: u64, now: u64)
    requires Inv(s) && id in s.books.allocations && s.books.allocations[id].Holds()
    requires 0 < release < s.books.allocations[id].units && SplitHolds(s.books.allocations[id], release)
    requires var s1 := s.(books := Returning(s.books, id, release, now).0);
             var p := s.books.allocations[id].pool;
             && ResizeGuard(s1, p, raw, protected, expected) == OK && p in s.books.pools && protected < raw
             && s.books.pools[p].descriptor.policy in s.policies
             && raw - protected + s.policies[s.books.pools[p].descriptor.policy].Allowance()
                < RemainingHalf(s.books.allocations[id], release, now).Own()
    ensures var s1 := s.(books := Returning(s.books, id, release, now).0);
            var (s2, code) := ResizePool(s1, s.books.allocations[id].pool, raw, protected, expected, now);
            code == ACCOUNTING_VIOLATION && s2.shuttingDown
  {
    hide BooksOk, ResizeGuard, ResizePool, Stranded, Returning, RemainingHalf;
    var s1, p := s.(books := Returning(s.books, id, release, now).0), s.books.allocations[id].pool;
    ReturningKeepsBooks(s.books, s.queues, id, release, now);
    PartialReleaseStrands(s.books, s.queues, id, release, now);
    ResizeFitsIff(s1, p, raw, protected, expected, now);
  }

  // ----- Nothing is fenced once usage fits -----

  ghost function FencedFirst(b: Books, ids: seq<u64>, k: nat, now: u64): Books
    requires k <= |ids|
  {
    FenceAll(b, ids[..k], AnyHolding, Fenced, now).0
  }

  /** Outside fence-everything mode a shrink loop fences a prefix of its list: usage was
      still beyond the allowance before each victim, and either fits now or the list is
      used up. */
  lemma {:induction false} ShrinkStopsInTime(b: Books, queues: map<u64, Queue>, p: u64, ids: seq<u64>, allowance: u64, now: u64)
    returns (k: nat)
    requires BooksOk(b, queues) && p in b.pools
    ensures k <= |ids| && ShrinkAll(b, p, ids, allowance, false, now).0 == FencedFirst(b, ids, k, now)
    ensures forall j :: 0 <= j < k ==>
              p in FencedFirst(b, ids, j, now).pools && FencedFirst(b, ids, j, now).pools[p].ownUsage > allowance
    ensures p in FencedFirst(b, ids, k, now).pools
    ensures k < |ids| ==> FencedFirst(b, ids, k, now).pools[p].ownUsage <= allowance
    decreases |ids|
  {
    hide BooksOk, Shrunk, FenceOne;
    k := 0;
    assert ids[..0] == [];
    if ids != [] && b.pools[p].ownUsage > allowance {
      var b1 := b;
      if ids[0] in b.allocations && b.allocations[ids[0]].Holds() {
        FenceOneKeepsBooks(b, queues, ids[0], Fenced, now);
        b1 := FenceOne(b, ids[0], Fenced, now).0;
        KeepsPool(b, b1, p);
      }
      var j := ShrinkStopsInTime(b1, queues, p, ids[1..], allowance, now);
      k := j + 1;
      forall i: nat | i < k ensures FencedFirst(b, ids, i + 1, now) == FencedFirst(b1, ids[1..], i, now) {
        assert ids[..i + 1][1..] == ids[1..][..i];
        assert ids[..i + 1][0] == ids[0];
      }
      forall i | 0 <= i < k
        ensures p in FencedFirst(b, ids, i, now).pools && FencedFirst(b, ids, i, now).pools[p].ownUsage > allowance
      {
        if i > 0 { assert FencedFirst(b, ids, i, now) == FencedFirst(b1, ids[1..], i - 1, now); }
      }
      assert FencedFirst(b, ids, k, now) == FencedFirst(b1, ids[1..], j, now);
    }
  }

  lemma KeepsPool(b: Books, b': Books, p: u64)
    requires Shrunk(b, b') && p in b.pools
    ensures p in b'.pools
  {
  }
}
