/** Limit compliance: usage within usable capacity plus the overcommit allowance. Where it
    holds, no violation branch is reachable; where a policy takes allowance away, exactly
    what follows. */
module Limits {
  import opened Arithmetic
  import opened Model
  import opened Grants
  import opened Ledger
  import opened Topology
  import opened Aggregates
  import opened Invariant
  import opened Transitions
  import opened AllocationSteps
  import opened TopologySteps
  import opened Steps
  import opened Index

  ghost predicate Compliant(e: PoolEntry, policies: map<u64, Policy>) {
    e.descriptor.policy in policies && WithinAllowance(e, policies[e.descriptor.policy])
  }

  ghost predicate Limited(pools: Pools, policies: map<u64, Policy>) {
    forall p :: p in pools ==> Compliant(pools[p], policies)
  }

  /** A policy change never takes allowance away from the pools it governs. */
  ghost predicate Generous(s: Fabric, c: Change) {
    c.NewPolicy? && c.policy.id in s.policies ==> c.policy.Allowance() >= s.policies[c.policy.id].Allowance()
  }

  lemma LessUsageLimited(pools: Pools, pools': Pools, policies: map<u64, Policy>)
    requires Limited(pools, policies) && SameTopology(pools, pools')
    requires forall p :: p in pools ==> pools'[p].ownUsage <= pools[p].ownUsage
    ensures Limited(pools', policies)
  {
    forall p | p in pools' ensures Compliant(pools'[p], policies) {
      assert Compliant(pools[p], policies);
    }
  }

  lemma ShrunkLimited(b: Books, b': Books, policies: map<u64, Policy>)
    requires Limited(b.pools, policies) && Shrunk(b, b')
    ensures Limited(b'.pools, policies)
  {
    hide Limited, RecordsShrunk, IndexShrunk;
    forall p | p in b.pools ensures b'.pools[p].ownUsage <= b.pools[p].ownUsage {
      assert Field(b'.pools[p], InOwn) <= Field(b.pools[p], InOwn);
    }
    LessUsageLimited(b.pools, b'.pools, policies);
  }

  lemma MovedLimited(b: Books, b': Books, policies: map<u64, Policy>, id: u64, r': Allocation)
    requires Limited(b.pools, policies) && ReplacedBooks(b, b', id, r')
    requires id in b.allocations && Eases(b.allocations[id], r')
    ensures Limited(b'.pools, policies)
  {
    hide Limited;
    forall p | p in b.pools ensures b'.pools[p].ownUsage <= b.pools[p].ownUsage {
      assert Field(b'.pools[p], InOwn)
          == Field(b.pools[p], InOwn) - Contribution(b.allocations[id], InOwn, p) + Contribution(r', InOwn, p);
    }
    LessUsageLimited(b.pools, b'.pools, policies);
  }

  lemma EnteredElsewhere(s: Fabric, s': Fabric, r: Allocation, p: u64)
    requires Entered(s, s', r) && p in s.books.pools && p != r.pool && Compliant(s.books.pools[p], s.policies)
    ensures p in s'.books.pools && Compliant(s'.books.pools[p], s.policies)
  {
    hide PoolCloses, Stored, BoundNow, HolderOk, QueueHeld;
    assert Field(s'.books.pools[p], InOwn) == Field(s.books.pools[p], InOwn) + Contribution(r, InOwn, p);
  }

  lemma EnteredKeys(s: Fabric, s': Fabric, r: Allocation)
    requires Entered(s, s', r)
    ensures s'.books.pools.Keys == s.books.pools.Keys && s'.policies == s.policies
    ensures r.pool in s'.books.pools && PoolCloses(s'.policies, s'.books.pools[r.pool])
  {
    hide PoolCloses, BoundNow, HolderOk, QueueHeld;
  }

  lemma ClosedCompliant(s: Fabric, p: u64)
    requires Inv(s) && p in s.books.pools && PoolCloses(s.policies, s.books.pools[p])
    ensures Compliant(s.books.pools[p], s.policies)
  {
    hide PoolCloses, BooksOk;
    ClosureIff(s, p);
  }

  lemma EnteredLimited(s: Fabric, s': Fabric, r: Allocation)
    requires Inv(s) && NextIdFree(s.books) && Entered(s, s', r) && Limited(s.books.pools, s.policies)
    ensures Limited(s'.books.pools, s.policies)
  {
    hide PoolCloses, Inv, Entered, Compliant;
    EnteredKeepsInv(s, s', r);
    EnteredKeys(s, s', r);
    forall p | p in s'.books.pools ensures Compliant(s'.books.pools[p], s.policies) {
      if p == r.pool { ClosedCompliant(s', p); } else { EnteredElsewhere(s, s', r, p); }
    }
  }

  lemma RewriteLimited(s: Fabric, s': Fabric, c: Change, now: u64)
    requires Inv(s) && Changes(s, s', c, now) && Limited(s.books.pools, s.policies) && c.Rewrites()
    ensures Limited(s'.books.pools, s'.policies)
  {
    hide Inv, Limited, Changes, ReplacedBooks;
    var id, r' := RewriteStep(s, s', c, now);
    MovedLimited(s.books, s'.books, s.policies, id, r');
  }

  lemma PolicyLimited(pools: Pools, policies: map<u64, Policy>, policy: Policy)
    requires Limited(pools, policies)
    requires policy.id in policies ==> policy.Allowance() >= policies[policy.id].Allowance()
    ensures Limited(pools, policies[policy.id := policy])
  {
    forall p | p in pools ensures Compliant(pools[p], policies[policy.id := policy]) {
      assert Compliant(pools[p], policies);
    }
  }

  lemma PublishedLimited(s: Fabric, s': Fabric, policy: Policy, order: seq<u64>, now: u64)
    requires Inv(s) && Published(s, s', policy, order, now) && Limited(s.books.pools, s.policies)
    requires policy.id in s.policies ==> policy.Allowance() >= s.policies[policy.id].Allowance()
    ensures Limited(s'.books.pools, s'.policies)
  {
    hide Inv, Limited, Shrunk, Policy.Valid;
    PublishedKeepsInv(s, s', policy, order, now);
    ShrunkLimited(s.books, s'.books, s.policies);
    PolicyLimited(s'.books.pools, s.policies, policy);
  }

  lemma PoolAddedLimited(s: Fabric, s': Fabric, d: PoolDescriptor)
    requires PoolAdded(s, s', d) && Limited(s.books.pools, s.policies)
    ensures Limited(s'.books.pools, s'.policies)
  {
    hide PoolGuard;
    PoolGuardFacts(s, d);
    forall p | p in s'.books.pools ensures Compliant(s'.books.pools[p], s.policies) {
      if p != d.id { assert Compliant(s.books.pools[p], s.policies); }
    }
  }

  lemma PoolDroppedLimited(s: Fabric, s': Fabric, p: u64)
    requires PoolDropped(s, s', p) && Limited(s.books.pools, s.policies)
    ensures Limited(s'.books.pools, s'.policies)
  {
    hide RemovalGuard, Compliant;
  }

  /** What the member index of p does not list fits the allowance of its new size. */
  ghost predicate ShrinkFits(s: Fabric, p: u64, raw: u64, protected: u64) {
    p in s.books.pools && s.books.pools[p].descriptor.policy in s.policies ==>
      Stranded(s.books, p) <= raw - protected + s.policies[s.books.pools[p].descriptor.policy].Allowance()
  }

  lemma ResizedLimited(s: Fabric, s': Fabric, p: u64, raw: u64, protected: u64, now: u64)
    requires Inv(s) && ShrinkFits(s, p, raw, protected) && ResizedTo(s, s', p, raw, protected, now)
    requires Limited(s.books.pools, s.policies)
    ensures Limited(s'.books.pools, s'.policies)
  {
    hide Inv, ResizeGuard, Enforced, Limited, Shrunk, ResizedBooks, Stranded;
    ResizeGuardFacts(s, p, raw, protected, 0);
    EnforcedFitsIff(s, p, raw, protected, now);
    ResizingKeepsInv(s, s', p, raw, protected, now);
    OthersLimited(s.books, s'.books, s.policies, p, raw, protected);
  }

  lemma OthersLimited(b: Books, b': Books, policies: map<u64, Policy>, p: u64, raw: u64, protected: u64)
    requires p in b.pools && Limited(b.pools, policies) && Shrunk(ResizedBooks(b, p, raw, protected), b')
    requires p in b'.pools && Compliant(b'.pools[p], policies)
    ensures Limited(b'.pools, policies)
  {
    hide RecordsShrunk, IndexShrunk;
    var b1 := ResizedBooks(b, p, raw, protected);
    forall k | k in b'.pools ensures Compliant(b'.pools[k], policies) {
      if k != p {
        assert Compliant(b.pools[k], policies);
        assert Field(b'.pools[k], InOwn) <= Field(b1.pools[k], InOwn);
      }
    }
  }

  /** Limit compliance survives every change, provided no policy takes allowance away and a
      resize leaves room for what its index does not list. */
  lemma LimitedKept(s: Fabric, s': Fabric, c: Change, now: u64)
    requires Inv(s) && Changes(s, s', c, now) && Generous(s, c)
    requires c.Resize? ==> ShrinkFits(s, c.pool, c.raw, c.protected)
    requires Limited(s.books.pools, s.policies)
    ensures Limited(s'.books.pools, s'.policies)
  {
    hide Inv, ShrinkFits, Limited, PoolAdded, PoolDropped, ResizedTo, RetiredBy, RetargetedTo, Published;
    hide Promoted, Returning, Rebound, FenceAll, Shrunk, Becomes, EnteredBooks, HolderOk;
    match c
    case Nothing =>
    case NewCapacity(capacity) =>
    case Enter(r) => EnteredLimited(s, s', r);
    case Promote(id) => RewriteLimited(s, s', c, now);
    case GiveBack(id, units) => RewriteLimited(s, s', c, now);
    case Rebind(id) => RewriteLimited(s, s', c, now);
    case Shed(ids, sel, to) =>
      SheddingKeepsInv(s, s', ids, sel, to, now);
      ShrunkLimited(s.books, s'.books, s.policies);
      BecomesTables(s, s', FenceAll(s.books, ids, sel, to, now).0);
    case NewPolicy(policy, order) => PublishedLimited(s, s', policy, order, now);
    case AddPool(d) => PoolAddedLimited(s, s', d);
    case DropPool(p) => PoolDroppedLimited(s, s', p);
    case Resize(p, raw, protected) => ResizedLimited(s, s', p, raw, protected, now);
    case AddQueue(q) =>
    case EditDemand(q) =>
    case Retire(id) =>
      RetiringKeepsInv(s, s', id, now);
      ShrunkLimited(s.books, s'.books, s.policies);
      RetiredTables(s, s', id, now);
    case Retarget(id, target) =>
      RetargetingKeepsInv(s, s', id, target, now);
      ShrunkLimited(s.books, s'.books, s.policies);
      RetargetedTables(s, s', id, target, now);
  }
}
