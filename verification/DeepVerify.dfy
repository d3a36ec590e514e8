/** deep_verify: the accounting recomputed from the records and checked pool by pool and in
    total. It never looks at the live totals; that they agree is the ledger's invariant. */
module DeepVerify {
  import opened Arithmetic
  import opened Sums
  import opened Model
  import opened Grants
  import opened Ledger
  import opened Aggregates
  import opened Invariant
  import opened Limits
  import opened Recovery

  /** The limit deep_verify reports for a pool. */
  function LimitOf(e: PoolEntry, policies: map<u64, Policy>): u64 {
    if e.descriptor.policy in policies then policies[e.descriptor.policy].Allowance() else 0
  }

  /** An accounting derived from recomputed sums alone: usage is what was not borrowed plus
      what was lent. */
  function DeepAccount(e: PoolEntry, limit: u64): Accounting {
    var total := e.Allocated();
    var own := SatAdd(if total >= e.borrowedIn then total - e.borrowedIn else 0, e.lentOut);
    var over := if own > e.Usable() then own - e.Usable() else 0;
    Accounting(e.descriptor.raw, e.descriptor.protected, e.Usable(), total, e.reserved, e.committed, e.pinned,
               e.reclaimable, e.borrowedIn, e.lentOut, over, limit, Wrap(e.Usable() + over - own))
  }

  /** On a consistent entry the recomputed accounting is the live one. */
  lemma DeepIsLive(e: PoolEntry, limit: u64)
    requires EntryConsistent(e)
    ensures DeepAccount(e, limit) == AccountingOf(e, limit)
  {
  }

  datatype Column = Raw | Protected | Allocated | Free | BorrowedIn | LentOut | OvercommitUsed

  function Of(a: Accounting, c: Column): nat {
    match c
    case Raw => a.raw
    case Protected => a.protected
    case Allocated => a.allocatedUnits
    case Free => a.free
    case BorrowedIn => a.borrowedIn
    case LentOut => a.lentOut
    case OvercommitUsed => a.overcommitUsed
  }

  ghost function ColumnOf(pools: Pools, policies: map<u64, Policy>, c: Column): u64 -> nat {
    (p: u64) => if p in pools then Of(DeepAccount(pools[p], LimitOf(pools[p], policies)), c) else 0
  }

  ghost function Sum(pools: Pools, policies: map<u64, Policy>, ids: set<u64>, c: Column): nat {
    SumOver(ids, ColumnOf(pools, policies, c))
  }

  predicate PoolDeepCloses(e: PoolEntry, policies: map<u64, Policy>) {
    Closes(DeepAccount(e, LimitOf(e, policies)), Bounded, LimitOf(e, policies))
  }

  /** check_global_accounting finds nothing: every pool closes, no total overflows, lending
      balances, and the global identity holds. */
  ghost predicate GlobalCloses(pools: Pools, policies: map<u64, Policy>) {
    && (forall p :: p in pools ==> PoolDeepCloses(pools[p], policies))
    && (forall c :: Sum(pools, policies, pools.Keys, c) < TWO64)
    && Sum(pools, policies, pools.Keys, BorrowedIn) == Sum(pools, policies, pools.Keys, LentOut)
    && Sum(pools, policies, pools.Keys, Raw) + Sum(pools, policies, pools.Keys, OvercommitUsed) < TWO64
    && Sum(pools, policies, pools.Keys, Protected) + Sum(pools, policies, pools.Keys, Allocated)
       + Sum(pools, policies, pools.Keys, Free) < TWO64
    && Sum(pools, policies, pools.Keys, Raw) + Sum(pools, policies, pools.Keys, OvercommitUsed)
       == Sum(pools, policies, pools.Keys, Protected) + Sum(pools, policies, pools.Keys, Allocated)
          + Sum(pools, policies, pools.Keys, Free)
  }

  /** One running total of the loop. */
  method AddColumn(total: u64, value: u64) returns (ok: bool, sum: u64)
    ensures ok == (total + value < TWO64) && (ok ==> sum == total + value)
  {
    AddOverflowIsExact(total, value);
    return !AddOverflows(total, value), Wrap(total + value);
  }

  lemma SumGrows(pools: Pools, policies: map<u64, Policy>, done: set<u64>, p: u64, c: Column)
    requires p in pools && p !in done && done <= pools.Keys
    ensures Sum(pools, policies, done + {p}, c)
         == Sum(pools, policies, done, c) + Of(DeepAccount(pools[p], LimitOf(pools[p], policies)), c)
    ensures Sum(pools, policies, done + {p}, c) <= Sum(pools, policies, pools.Keys, c)
  {
    hide SumOver, DeepAccount;
    SumInsert(done, ColumnOf(pools, policies, c), p);
    SumSubset(done + {p}, pools.Keys, ColumnOf(pools, policies, c), ColumnOf(pools, policies, c));
  }

  /** The running totals of check_global_accounting over the pools visited so far. */
  datatype Totals = Totals(raw: u64, protected: u64, allocatedUnits: u64, free: u64, borrowed: u64, lent: u64, over: u64)

  ghost predicate TotalsOf(t: Totals, pools: Pools, policies: map<u64, Policy>, ids: set<u64>) {
    && t.raw == Sum(pools, policies, ids, Raw) && t.protected == Sum(pools, policies, ids, Protected)
    && t.allocatedUnits == Sum(pools, policies, ids, Allocated) && t.free == Sum(pools, policies, ids, Free)
    && t.borrowed == Sum(pools, policies, ids, BorrowedIn) && t.lent == Sum(pools, policies, ids, LentOut)
    && t.over == Sum(pools, policies, ids, OvercommitUsed)
  }

  /** Seven running totals at once; false when any of them overflows. */
  method AddPool(t: Totals, a: Accounting) returns (ok: bool, t': Totals)
    ensures ok == (&& t.raw + a.raw < TWO64 && t.protected + a.protected < TWO64
                   && t.allocatedUnits + a.allocatedUnits < TWO64 && t.free + a.free < TWO64
                   && t.borrowed + a.borrowedIn < TWO64 && t.lent + a.lentOut < TWO64
                   && t.over + a.overcommitUsed < TWO64)
    ensures ok ==> t' == Totals(t.raw + a.raw, t.protected + a.protected, t.allocatedUnits + a.allocatedUnits,
                                t.free + a.free, t.borrowed + a.borrowedIn, t.lent + a.lentOut, t.over + a.overcommitUsed)
  {
    t' := t;
    var raw, protected, units, free, borrowed, lent, over;
    ok, raw := AddColumn(t.raw, a.raw);
    if !ok { return; }
    ok, protected := AddColumn(t.protected, a.protected);
    if !ok { return; }
    ok, units := AddColumn(t.allocatedUnits, a.allocatedUnits);
    if !ok { return; }
    ok, free := AddColumn(t.free, a.free);
    if !ok { return; }
    ok, borrowed := AddColumn(t.borrowed, a.borrowedIn);
    if !ok { return; }
    ok, lent := AddColumn(t.lent, a.lentOut);
    if !ok { return; }
    ok, over := AddColumn(t.over, a.overcommitUsed);
    if !ok { return; }
    t' := Totals(raw, protected, units, free, borrowed, lent, over);
  }

  lemma VisitPool(t: Totals, pools: Pools, policies: map<u64, Policy>, done: set<u64>, p: u64)
    requires TotalsOf(t, pools, policies, done) && p in pools && p !in done && done <= pools.Keys
    ensures var a := DeepAccount(pools[p], LimitOf(pools[p], policies));
            && Sum(pools, policies, done + {p}, Raw) == t.raw + a.raw
            && Sum(pools, policies, done + {p}, Protected) == t.protected + a.protected
            && Sum(pools, policies, done + {p}, Allocated) == t.allocatedUnits + a.allocatedUnits
            && Sum(pools, policies, done + {p}, Free) == t.free + a.free
            && Sum(pools, policies, done + {p}, BorrowedIn) == t.borrowed + a.borrowedIn
            && Sum(pools, policies, done + {p}, LentOut) == t.lent + a.lentOut
            && Sum(pools, policies, done + {p}, OvercommitUsed) == t.over + a.overcommitUsed
    ensures forall c :: Sum(pools, policies, done + {p}, c) <= Sum(pools, policies, pools.Keys, c)
  {
    hide Sum, DeepAccount;
    forall c ensures Sum(pools, policies, done + {p}, c)
                  == Sum(pools, policies, done, c) + Of(DeepAccount(pools[p], LimitOf(pools[p], policies)), c)
             ensures Sum(pools, policies, done + {p}, c) <= Sum(pools, policies, pools.Keys, c)
    {
      SumGrows(pools, policies, done, p, c);
    }
  }

  lemma NoTotals(pools: Pools, policies: map<u64, Policy>)
    ensures TotalsOf(Totals(0, 0, 0, 0, 0, 0, 0), pools, policies, {})
  {
  }

  lemma Overflowed(t: Totals, pools: Pools, policies: map<u64, Policy>, done: set<u64>, p: u64)
    requires TotalsOf(t, pools, policies, done) && p in pools && p !in done && done <= pools.Keys
    requires var a := DeepAccount(pools[p], LimitOf(pools[p], policies));
             !(&& t.raw + a.raw < TWO64 && t.protected + a.protected < TWO64
               && t.allocatedUnits + a.allocatedUnits < TWO64 && t.free + a.free < TWO64
               && t.borrowed + a.borrowedIn < TWO64 && t.lent + a.lentOut < TWO64 && t.over + a.overcommitUsed < TWO64)
    ensures !GlobalCloses(pools, policies)
  {
    hide Sum, DeepAccount, PoolDeepCloses, TotalsOf;
    VisitPool(t, pools, policies, done, p);
    assert exists c :: Sum(pools, policies, done + {p}, c) >= TWO64;
    var c :| Sum(pools, policies, done + {p}, c) >= TWO64;
    assert Sum(pools, policies, pools.Keys, c) >= TWO64;
  }

  /** check_global_accounting, over pools visited in whatever order. */
  method CheckGlobal(pools: Pools, policies: map<u64, Policy>) returns (closed: bool)
    ensures closed == GlobalCloses(pools, policies)
  {
    hide Sum, DeepAccount, PoolDeepCloses, TotalsOf;
    var t := Totals(0, 0, 0, 0, 0, 0, 0);
    NoTotals(pools, policies);
    var todo := pools.Keys;
    ghost var done: set<u64> := {};
    while todo != {}
      invariant done + todo == pools.Keys && done !! todo && TotalsOf(t, pools, policies, done)
      invariant forall p :: p in done ==> PoolDeepCloses(pools[p], policies)
      decreases todo
    {
      var p :| p in todo;
      var single := CheckPool(pools[p], policies);
      if !single { return false; }
      VisitPool(t, pools, policies, done, p);
      var ok, next := AddPool(t, DeepAccount(pools[p], LimitOf(pools[p], policies)));
      if !ok {
        Overflowed(t, pools, policies, done, p);
        return false;
      }
      Visited(t, next, pools, policies, done, p);
      t := next;
      todo := todo - {p};
      done := done + {p};
    }
    assert done == pools.Keys;
    closed := Conclude(t, pools, policies);
  }

  method CheckPool(e: PoolEntry, policies: map<u64, Policy>) returns (closed: bool)
    ensures closed == PoolDeepCloses(e, policies)
  {
    closed := PoolDeepCloses(e, policies);
  }

  lemma Visited(t: Totals, next: Totals, pools: Pools, policies: map<u64, Policy>, done: set<u64>, p: u64)
    requires TotalsOf(t, pools, policies, done) && p in pools && p !in done && done <= pools.Keys
    requires var a := DeepAccount(pools[p], LimitOf(pools[p], policies));
             && t.raw + a.raw < TWO64 && t.protected + a.protected < TWO64
             && t.allocatedUnits + a.allocatedUnits < TWO64 && t.free + a.free < TWO64
             && t.borrowed + a.borrowedIn < TWO64 && t.lent + a.lentOut < TWO64 && t.over + a.overcommitUsed < TWO64
             && next == Totals(t.raw + a.raw, t.protected + a.protected, t.allocatedUnits + a.allocatedUnits,
                               t.free + a.free, t.borrowed + a.borrowedIn, t.lent + a.lentOut, t.over + a.overcommitUsed)
    ensures TotalsOf(next, pools, policies, done + {p})
  {
    hide Sum, DeepAccount;
    VisitPool(t, pools, policies, done, p);
  }

  /** The two comparisons after the loop. */
  method Conclude(t: Totals, pools: Pools, policies: map<u64, Policy>) returns (closed: bool)
    requires TotalsOf(t, pools, policies, pools.Keys)
    requires forall p :: p in pools ==> PoolDeepCloses(pools[p], policies)
    ensures closed == GlobalCloses(pools, policies)
  {
    hide Sum, DeepAccount, PoolDeepCloses;
    forall c ensures Sum(pools, policies, pools.Keys, c) < TWO64 {
      match c
      case Raw => assert Sum(pools, policies, pools.Keys, Raw) == t.raw;
      case Protected => assert Sum(pools, policies, pools.Keys, Protected) == t.protected;
      case Allocated => assert Sum(pools, policies, pools.Keys, Allocated) == t.allocatedUnits;
      case Free => assert Sum(pools, policies, pools.Keys, Free) == t.free;
      case BorrowedIn => assert Sum(pools, policies, pools.Keys, BorrowedIn) == t.borrowed;
      case LentOut => assert Sum(pools, policies, pools.Keys, LentOut) == t.lent;
      case OvercommitUsed => assert Sum(pools, policies, pools.Keys, OvercommitUsed) == t.over;
    }
    if t.borrowed != t.lent { return false; }
    var okL, lhs := AddColumn(t.raw, t.over);
    var okR, part := AddColumn(t.protected, t.allocatedUnits);
    if !okL || !okR { return false; }
    var okS, rhs := AddColumn(part, t.free);
    return okS && lhs == rhs;
  }

  // ----- What deep_verify decides -----

  /** Closing pool by pool means what it means for the live check. */
  lemma DeepClosesIff(s: Fabric, p: u64)
    requires Inv(s) && p in s.books.pools
    ensures PoolDeepCloses(s.books.pools[p], s.policies) <==> Compliant(s.books.pools[p], s.policies)
  {
    hide Agrees, Forest, RecordsOk, Indexed, DeepAccount, Closes;
    var e := s.books.pools[p];
    var policy := s.policies[e.descriptor.policy];
    EntryFacts(s.books.pools, s.books.allocations, p);
    DeepIsLive(e, policy.Allowance());
    assert PoolOk(e, p);
    BoundedSame(e, policy);
    ClosesIffWithinAllowance(e, policy);
  }

  /** With no allowance, forbidding overcommit and bounding it by zero are the same. */
  lemma BoundedSame(e: PoolEntry, policy: Policy)
    requires policy.Valid()
    ensures Closes(AccountingOf(e, policy.Allowance()), Bounded, policy.Allowance())
       <==> Closes(AccountingOf(e, policy.Allowance()), policy.overcommit.mode, policy.overcommit.limit)
  {
  }

  /** The identity of one pool. */
  lemma ColumnIdentity(s: Fabric, p: u64)
    requires Inv(s) && p in s.books.pools
    ensures var a := DeepAccount(s.books.pools[p], LimitOf(s.books.pools[p], s.policies));
            && a.raw + a.overcommitUsed + a.borrowedIn == a.protected + a.allocatedUnits + a.free + a.lentOut
            && a.borrowedIn <= a.allocatedUnits
            && a.borrowedIn == Field(s.books.pools[p], InBorrowed) && a.lentOut == Field(s.books.pools[p], InLent)
  {
    hide Agrees, Forest, RecordsOk, Indexed, DeepAccount;
    var e := s.books.pools[p];
    EntryFacts(s.books.pools, s.books.allocations, p);
    DeepIsLive(e, LimitOf(e, s.policies));
    assert PoolOk(e, p);
  }

  /** Seven columns added up side by side. */
  lemma SumSeven(ids: set<u64>, a: u64 -> nat, b: u64 -> nat, c: u64 -> nat, d: u64 -> nat, f: u64 -> nat, g: u64 -> nat, h: u64 -> nat)
    requires forall p :: p in ids ==> a(p) + b(p) + c(p) == d(p) + f(p) + g(p) + h(p)
    ensures SumOver(ids, a) + SumOver(ids, b) + SumOver(ids, c) == SumOver(ids, d) + SumOver(ids, f) + SumOver(ids, g) + SumOver(ids, h)
  {
    hide SumOver;
    var ab := (p: u64) => a(p) + b(p);
    var abc := (p: u64) => ab(p) + c(p);
    var df := (p: u64) => d(p) + f(p);
    var dfg := (p: u64) => df(p) + g(p);
    var dfgh := (p: u64) => dfg(p) + h(p);
    SumPlus(ids, a, b, ab);
    SumPlus(ids, ab, c, abc);
    SumPlus(ids, d, f, df);
    SumPlus(ids, df, g, dfg);
    SumPlus(ids, dfg, h, dfgh);
    SumCongruent(ids, abc, dfgh);
  }

  lemma ColumnsAt(s: Fabric, p: u64)
    requires Inv(s) && p in s.books.pools
    ensures var pools, policies := s.books.pools, s.policies;
            && ColumnOf(pools, policies, Raw)(p) + ColumnOf(pools, policies, OvercommitUsed)(p) + ColumnOf(pools, policies, BorrowedIn)(p)
               == ColumnOf(pools, policies, Protected)(p) + ColumnOf(pools, policies, Allocated)(p)
                  + ColumnOf(pools, policies, Free)(p) + ColumnOf(pools, policies, LentOut)(p)
            && ColumnOf(pools, policies, BorrowedIn)(p) <= ColumnOf(pools, policies, Allocated)(p)
            && ColumnOf(pools, policies, BorrowedIn)(p) == PoolField(pools, InBorrowed)(p)
            && ColumnOf(pools, policies, LentOut)(p) == PoolField(pools, InLent)(p)
  {
    hide Inv, DeepAccount, Field;
    ColumnIdentity(s, p);
  }

  lemma GlobalIdentity(s: Fabric)
    requires Inv(s)
    ensures var pools, policies, ids := s.books.pools, s.policies, s.books.pools.Keys;
            && Sum(pools, policies, ids, BorrowedIn) == Sum(pools, policies, ids, LentOut)
            && Sum(pools, policies, ids, BorrowedIn) <= Sum(pools, policies, ids, Allocated)
            && Sum(pools, policies, ids, Raw) + Sum(pools, policies, ids, OvercommitUsed)
               == Sum(pools, policies, ids, Protected) + Sum(pools, policies, ids, Allocated) + Sum(pools, policies, ids, Free)
  {
    hide SumOver, BooksOk, ColumnOf, PoolField;
    var pools, ids := s.books.pools, s.books.pools.Keys;
    var raw, over, borrowed := ColumnOf(pools, s.policies, Raw), ColumnOf(pools, s.policies, OvercommitUsed), ColumnOf(pools, s.policies, BorrowedIn);
    var prot, units, free := ColumnOf(pools, s.policies, Protected), ColumnOf(pools, s.policies, Allocated), ColumnOf(pools, s.policies, Free);
    var lent := ColumnOf(pools, s.policies, LentOut);
    forall p | p in ids
      ensures raw(p) + over(p) + borrowed(p) == prot(p) + units(p) + free(p) + lent(p) && borrowed(p) <= units(p)
      ensures borrowed(p) == PoolField(pools, InBorrowed)(p) && lent(p) == PoolField(pools, InLent)(p)
    {
      ColumnsAt(s, p);
    }
    SumSeven(ids, raw, over, borrowed, prot, units, free, lent);
    SumMonotone(ids, borrowed, units);
    SumCongruent(ids, borrowed, PoolField(pools, InBorrowed));
    SumCongruent(ids, lent, PoolField(pools, InLent));
    BalancedBooks(s.books, s.queues);
  }

  /** In every state satisfying the invariant, deep_verify reports closure if and only if
      every pool is within its allowance and the raw and overcommitted units of all pools
      add up within 64 bits. */
  lemma DeepVerifyIff(s: Fabric)
    requires Inv(s)
    ensures GlobalCloses(s.books.pools, s.policies) <==>
              && Limited(s.books.pools, s.policies)
              && Sum(s.books.pools, s.policies, s.books.pools.Keys, Raw)
                 + Sum(s.books.pools, s.policies, s.books.pools.Keys, OvercommitUsed) < TWO64
  {
    hide Sum, PoolDeepCloses, BooksOk, Compliant;
    var pools, policies, ids := s.books.pools, s.policies, s.books.pools.Keys;
    forall p | p in pools ensures PoolDeepCloses(pools[p], policies) <==> Compliant(pools[p], policies) {
      DeepClosesIff(s, p);
    }
    GlobalIdentity(s);
    if Sum(pools, policies, ids, Raw) + Sum(pools, policies, ids, OvercommitUsed) < TWO64 {
      forall c ensures Sum(pools, policies, ids, c) < TWO64 {
        match c
        case Raw =>
        case Protected =>
        case Allocated =>
        case Free =>
        case BorrowedIn =>
        case LentOut =>
        case OvercommitUsed =>
      }
    }
  }

  lemma OneMore(n: nat, v: nat)
    ensures (n + 1) * v == n * v + v
  {
  }

  lemma {:induction false} SumOfConstant(ids: set<u64>, f: u64 -> nat, v: nat)
    requires forall p :: p in ids ==> f(p) >= v
    ensures SumOver(ids, f) >= |ids| * v
    decreases ids
  {
    if ids != {} {
      hide SumOver;
      var p :| p in ids;
      SumRemove(ids, f, p);
      SumOfConstant(ids - {p}, f, v);
      OneMore(|ids - {p}|, v);
    }
  }

  /** So sixteen or more pools of the largest legal size are always reported as a
      violation, however idle they are. */
  lemma LargePoolsSaturate(s: Fabric)
    requires Inv(s) && |s.books.pools| >= 16
    requires forall p :: p in s.books.pools ==> s.books.pools[p].descriptor.raw == MAX_UNITS
    ensures !GlobalCloses(s.books.pools, s.policies)
  {
    hide SumOver, GlobalCloses, BooksOk;
    var ids := s.books.pools.Keys;
    SumOfConstant(ids, ColumnOf(s.books.pools, s.policies, Raw), MAX_UNITS);
    assert |ids| == |s.books.pools|;
    assert |ids| * MAX_UNITS >= 16 * MAX_UNITS == TWO64;
    DeepVerifyIff(s);
  }

  // ----- From the records -----

  lemma SameAccount(e: PoolEntry, e': PoolEntry, limit: u64)
    requires e'.descriptor == e.descriptor && forall a :: Field(e', a) == Field(e, a)
    ensures DeepAccount(e', limit) == DeepAccount(e, limit)
  {
    assert Field(e', InReserved) == Field(e, InReserved) && Field(e', InCommitted) == Field(e, InCommitted);
    assert Field(e', InPinned) == Field(e, InPinned) && Field(e', InReclaimable) == Field(e, InReclaimable);
    assert Field(e', InBorrowed) == Field(e, InBorrowed) && Field(e', InLent) == Field(e, InLent);
  }

  lemma SameSum(pools: Pools, pools': Pools, policies: map<u64, Policy>, c: Column)
    requires pools'.Keys == pools.Keys
    requires forall p :: p in pools ==>
               DeepAccount(pools'[p], LimitOf(pools'[p], policies)) == DeepAccount(pools[p], LimitOf(pools[p], policies))
    ensures Sum(pools', policies, pools'.Keys, c) == Sum(pools, policies, pools.Keys, c)
  {
    hide DeepAccount, SumOver, LimitOf;
    SumCongruent(pools.Keys, ColumnOf(pools', policies, c), ColumnOf(pools, policies, c));
  }

  lemma SamePool(pools: Pools, pools': Pools, policies: map<u64, Policy>, p: u64)
    requires SameTopology(pools, pools') && p in pools && forall a :: Field(pools'[p], a) == Field(pools[p], a)
    ensures DeepAccount(pools'[p], LimitOf(pools'[p], policies)) == DeepAccount(pools[p], LimitOf(pools[p], policies))
    ensures PoolDeepCloses(pools'[p], policies) <==> PoolDeepCloses(pools[p], policies)
  {
    hide DeepAccount, Closes, Field;
    SameAccount(pools[p], pools'[p], LimitOf(pools[p], policies));
  }

  lemma SameGlobal(pools: Pools, pools': Pools, policies: map<u64, Policy>)
    requires SameTopology(pools, pools') && forall p, a :: p in pools ==> Field(pools'[p], a) == Field(pools[p], a)
    ensures GlobalCloses(pools', policies) <==> GlobalCloses(pools, policies)
  {
    hide DeepAccount, Sum, PoolDeepCloses, Field, LimitOf;
    forall p | p in pools
      ensures DeepAccount(pools'[p], LimitOf(pools'[p], policies)) == DeepAccount(pools[p], LimitOf(pools[p], policies))
      ensures PoolDeepCloses(pools'[p], policies) <==> PoolDeepCloses(pools[p], policies)
    {
      SamePool(pools, pools', policies, p);
    }
    forall c ensures Sum(pools', policies, pools'.Keys, c) == Sum(pools, policies, pools.Keys, c) {
      SameSum(pools, pools', policies, c);
    }
  }

  /** deep_verify: recompute everything from the records, then check. On books whose live
      totals agree with the records its verdict is the verdict on the live totals. */
  method Verify(b: Books, policies: map<u64, Policy>) returns (closed: bool)
    ensures Countable(b.pools, b.allocations) && Agrees(b.pools, b.allocations) ==> closed == GlobalCloses(b.pools, policies)
  {
    hide GlobalCloses;
    var recomputed := RebuildAggregates(b.pools, b.allocations);
    closed := CheckGlobal(recomputed, policies);
    if Countable(b.pools, b.allocations) && Agrees(b.pools, b.allocations) {
      forall p, a | p in b.pools ensures Field(recomputed[p], a) == Field(b.pools[p], a) {
        assert Field(recomputed[p], a) == Total(b.allocations, a, p);
      }
      SameGlobal(b.pools, recomputed, policies);
    }
  }
}
