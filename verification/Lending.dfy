/** Borrowing: the ancestry of a pool, the lender it finds, and the bounds on a grant. */
module Lending {
  import opened Arithmetic
  import opened Model
  import opened Grants
  import opened Invariant

  /** Number of ancestors of p, when it is rooted within n steps. */
  ghost function Depth(pools: Pools, p: u64, n: nat): nat
    requires RootedWithin(pools, p, n)
    decreases n
  {
    if pools[p].descriptor.parent == 0 then 0 else 1 + Depth(pools, pools[p].descriptor.parent, n - 1)
  }

  lemma {:induction false} DepthUnique(pools: Pools, p: u64, n: nat, m: nat)
    requires RootedWithin(pools, p, n) && RootedWithin(pools, p, m)
    ensures Depth(pools, p, n) == Depth(pools, p, m)
    decreases n
  {
    if pools[p].descriptor.parent != 0 { DepthUnique(pools, pools[p].descriptor.parent, n - 1, m - 1); }
  }

  lemma {:induction false} DepthBound(pools: Pools, p: u64, n: nat)
    requires RootedWithin(pools, p, n)
    ensures Depth(pools, p, n) <= n
    decreases n
  {
    if pools[p].descriptor.parent != 0 { DepthBound(pools, pools[p].descriptor.parent, n - 1); }
  }

  /** The pool is not retired, and its own usage leaves some of its usable capacity. */
  ghost predicate CanLendAny(e: PoolEntry) {
    !e.descriptor.retired && e.ownUsage + e.descriptor.protected < e.descriptor.raw
  }

  /** The k-th pool on the way up from `cursor`; 0 past the root. */
  ghost function Up(pools: Pools, cursor: u64, k: nat): (p: u64)
    ensures p == 0 || p in pools
    decreases k
  {
    if cursor == 0 || cursor !in pools then 0
    else if k == 0 then cursor
    else Up(pools, pools[cursor].descriptor.parent, k - 1)
  }

  ghost predicate NoLenderAbove(pools: Pools, cursor: u64) {
    forall k: nat :: Up(pools, cursor, k) != 0 ==> !CanLendAny(pools[Up(pools, cursor, k)])
  }

  /** l is the k-th pool on the way up and the first that can lend. */
  ghost predicate FirstLender(pools: Pools, cursor: u64, l: u64, k: nat) {
    && Up(pools, cursor, k) == l && l in pools && CanLendAny(pools[l])
    && forall j: nat :: j < k ==> Up(pools, cursor, j) in pools && !CanLendAny(pools[Up(pools, cursor, j)])
  }

  /** The lender is the first pool on the way up that is not retired and has free
      capacity. The depth cut-off never hides one: in a forest of bounded depth the
      search fails only when no ancestor at all qualifies. */
  lemma {:induction false} LenderIsNearest(pools: Pools, cursor: u64, depth: nat)
    requires PoolsOk(pools) && cursor != 0
    requires RootedWithin(pools, cursor, MAX_DEPTH) && depth + Depth(pools, cursor, MAX_DEPTH) < MAX_DEPTH
    ensures var l := NearestLender(pools, cursor, depth);
            if l == 0 then NoLenderAbove(pools, cursor) else exists k: nat :: FirstLender(pools, cursor, l, k)
    decreases MAX_DEPTH - depth
  {
    var l := NearestLender(pools, cursor, depth);
    var parent := pools[cursor].descriptor.parent;
    if CanLendAny(pools[cursor]) {
      assert FirstLender(pools, cursor, l, 0);
    } else {
      assert l == NearestLender(pools, parent, depth + 1);
      assert Up(pools, cursor, 0) == cursor;
      if parent != 0 {
        RootedMore(pools, parent, MAX_DEPTH - 1, MAX_DEPTH);
        DepthUnique(pools, parent, MAX_DEPTH - 1, MAX_DEPTH);
        LenderIsNearest(pools, parent, depth + 1);
      }
      if l == 0 {
        forall k: nat | Up(pools, cursor, k) != 0 ensures !CanLendAny(pools[Up(pools, cursor, k)]) {
          if k > 0 { assert Up(pools, cursor, k) == Up(pools, parent, k - 1); }
        }
      } else {
        var k: nat :| FirstLender(pools, parent, l, k);
        forall j: nat | j < k + 1 ensures Up(pools, cursor, j) in pools && !CanLendAny(pools[Up(pools, cursor, j)]) {
          if j > 0 { assert Up(pools, cursor, j) == Up(pools, parent, j - 1); }
        }
        assert FirstLender(pools, cursor, l, k + 1);
      }
    }
  }

  lemma {:induction false} RootedMore(pools: Pools, p: u64, n: nat, m: nat)
    requires RootedWithin(pools, p, n) && n <= m
    ensures RootedWithin(pools, p, m)
    decreases n
  {
    if pools[p].descriptor.parent != 0 { RootedMore(pools, pools[p].descriptor.parent, n - 1, m - 1); }
  }

  /** A lender found above a pool is shallower than it, hence a different pool. */
  lemma {:induction false} LenderShallower(pools: Pools, cursor: u64, depth: nat)
    requires PoolsOk(pools) && RootedWithin(pools, cursor, MAX_DEPTH)
    ensures var l := NearestLender(pools, cursor, depth);
            l != 0 ==> && l in pools && CanLendAny(pools[l]) && RootedWithin(pools, l, MAX_DEPTH)
                       && Depth(pools, l, MAX_DEPTH) <= Depth(pools, cursor, MAX_DEPTH)
    decreases MAX_DEPTH - depth
  {
    if depth < MAX_DEPTH {
      var parent := pools[cursor].descriptor.parent;
      if parent != 0 && !CanLendAny(pools[cursor]) {
        RootedMore(pools, parent, MAX_DEPTH - 1, MAX_DEPTH);
        DepthUnique(pools, parent, MAX_DEPTH - 1, MAX_DEPTH);
        LenderShallower(pools, parent, depth + 1);
      }
    }
  }

  /** Registration keeps the forest acyclic: a pool never borrows from itself. */
  lemma LenderOf(pools: Pools, p: u64)
    requires PoolsOk(pools) && Forest(pools) && p in pools
    ensures var l := NearestLender(pools, pools[p].descriptor.parent, 0);
            l != 0 ==> l in pools && l != p && CanLendAny(pools[l])
  {
    var parent := pools[p].descriptor.parent;
    assert RootedWithin(pools, p, MAX_DEPTH);
    if parent != 0 {
      RootedMore(pools, parent, MAX_DEPTH - 1, MAX_DEPTH);
      DepthUnique(pools, parent, MAX_DEPTH - 1, MAX_DEPTH);
      LenderShallower(pools, parent, 0);
    }
  }

  /** The search from a registered pool's parent covers its whole ancestry. */
  lemma LenderOfPoolIsNearest(pools: Pools, p: u64)
    requires PoolsOk(pools) && Forest(pools) && p in pools && pools[p].descriptor.parent != 0
    ensures var parent := pools[p].descriptor.parent;
            var l := NearestLender(pools, parent, 0);
            if l == 0 then NoLenderAbove(pools, parent) else exists k: nat :: FirstLender(pools, parent, l, k)
  {
    var parent := pools[p].descriptor.parent;
    assert RootedWithin(pools, p, MAX_DEPTH);
    RootedMore(pools, parent, MAX_DEPTH - 1, MAX_DEPTH);
    DepthUnique(pools, parent, MAX_DEPTH - 1, MAX_DEPTH);
    DepthBound(pools, parent, MAX_DEPTH - 1);
    LenderIsNearest(pools, parent, 0);
  }

  /** A grant within the computed maximum keeps the owner's usage within the larger of
      what it was and its allowance, its borrowing within its limit, and the lender
      within its own usable capacity. */
  lemma GrantBounds(pools: Pools, p: u64, policy: Policy, grant: u64)
    requires PoolsOk(pools) && Forest(pools) && p in pools && policy.Valid()
    requires grant <= ComputeGrant(pools, pools[p], policy).maxGrant
    ensures var e := pools[p];
            var g := ComputeGrant(pools, e, policy);
            var borrow := BorrowFor(g, grant);
            && borrow <= grant
            && (e.ownUsage + grant - borrow <= e.Usable() + policy.Allowance() || grant == borrow)
            && (borrow != 0 ==> e.borrowedIn + borrow <= policy.borrow.limit)
            && (borrow != 0 ==> g.lender in pools && g.lender != 0 && g.lender != p
                                && pools[g.lender].ownUsage + borrow <= pools[g.lender].Usable())
  {
    LenderOf(pools, p);
  }
}
