/** What a reclamation plan is, and what applying it does. */
module ReclaimPlans {
  import opened Arithmetic
  import opened Model
  import opened Ledger
  import opened Reclaim
  import opened Aggregates
  import opened Invariant
  import opened TopologySteps
  import opened Index
  import opened Bindings
  import Order

  function UnitsAt(records: Records, id: u64): nat { if id in records then records[id].units else 0 }

  function OwnAt(records: Records, id: u64): nat { if id in records then records[id].Own() else 0 }

  /** The units of a list of records. */
  function UnitsOf(records: Records, ids: seq<u64>): nat {
    if ids == [] then 0 else UnitsAt(records, ids[0]) + UnitsOf(records, ids[1..])
  }

  /** Their units that are not borrowed. */
  function OwnOf(records: Records, ids: seq<u64>): nat {
    if ids == [] then 0 else OwnAt(records, ids[0]) + OwnOf(records, ids[1..])
  }

  lemma {:induction false} UnitsAppend(records: Records, ids: seq<u64>, id: u64)
    ensures UnitsOf(records, ids + [id]) == UnitsOf(records, ids) + UnitsAt(records, id)
  {
    if ids != [] {
      assert (ids + [id])[1..] == ids[1..] + [id];
      UnitsAppend(records, ids[1..], id);
    } else {
      assert ([id])[1..] == [];
    }
  }

  /** A plan under construction counts what it lists, within the policy's maximum. */
  ghost predicate Counts(records: Records, plan: Plan, policy: Policy) {
    plan.planned == UnitsOf(records, plan.victims) && plan.planned <= policy.reclaim.maxUnits <= MAX_UNITS
  }

  ghost predicate Listable(records: Records, ids: seq<u64>) {
    forall i :: 0 <= i < |ids| ==> ids[i] in records && records[ids[i]].units <= MAX_UNITS
  }

  /** The loop takes ids in order: a prefix, each taken while more was needed. */
  ghost predicate Greedy(records: Records, ids: seq<u64>, plan: Plan, r: Plan, k: nat, target: u64, free: u64, policy: Policy) {
    && k <= |ids| && r.victims == plan.victims + ids[..k] && Counts(records, r, policy)
    && (k > 0 ==> r.planned >= UnitsAt(records, ids[k - 1])
                  && NeedsMore(r.planned - UnitsAt(records, ids[k - 1]), target, free, policy.reclaim.reserve))
    && (k < |ids| ==> r.truncated || !NeedsMore(r.planned, target, free, policy.reclaim.reserve))
    && (plan.truncated ==> r.truncated)
    && (r.truncated && !plan.truncated ==>
          && k < |ids| && NeedsMore(r.planned, target, free, policy.reclaim.reserve)
          && (|r.victims| >= MAX_VICTIMS || r.planned + UnitsAt(records, ids[k]) > policy.reclaim.maxUnits))
  }

  lemma {:induction false} TakeIsGreedy(b: Books, ids: seq<u64>, plan: Plan, target: u64, free: u64, policy: Policy)
    returns (k: nat)
    requires Listable(b.allocations, ids) && Counts(b.allocations, plan, policy)
    ensures Greedy(b.allocations, ids, plan, Take(b, ids, plan, target, free, policy), k, target, free, policy)
    decreases |ids|
  {
    hide UnitsOf;
    k := 0;
    if ids != [] && NeedsMore(plan.planned, target, free, policy.reclaim.reserve) {
      var id := ids[0];
      var units := b.allocations[id].units;
      if |plan.victims| < MAX_VICTIMS && plan.planned + units <= policy.reclaim.maxUnits {
        var next := plan.(victims := plan.victims + [id], planned := plan.planned + units,
                          protectedUsed := plan.protectedUsed || b.allocations[id].reclaimClass.Pinned?);
        UnitsAppend(b.allocations, plan.victims, id);
        var j := TakeIsGreedy(b, ids[1..], next, target, free, policy);
        k := j + 1;
        GreedyCons(b.allocations, ids, plan, next, Take(b, ids, plan, target, free, policy), j, target, free, policy);
      }
    }
  }

  lemma GreedyCons(records: Records, ids: seq<u64>, plan: Plan, next: Plan, r: Plan, j: nat, target: u64, free: u64,
                   policy: Policy)
    requires ids != [] && ids[0] in records && NeedsMore(plan.planned, target, free, policy.reclaim.reserve)
    requires next.victims == plan.victims + [ids[0]] && next.planned == plan.planned + records[ids[0]].units
    requires next.truncated == plan.truncated
    requires Greedy(records, ids[1..], next, r, j, target, free, policy)
    requires Counts(records, next, policy)
    ensures Greedy(records, ids, plan, r, j + 1, target, free, policy)
  {
    hide UnitsOf;
    assert ids[..j + 1] == [ids[0]] + ids[1..][..j];
    assert j == 0 ==> r.victims == next.victims;
    assert j > 0 ==> ids[1..][j - 1] == ids[j];
    assert j < |ids| - 1 ==> ids[1..][j] == ids[j + 1];
  }

  // ----- The whole plan -----

  ghost function Ordered(b: Books, p: u64, policy: Policy, c: ReclaimClass, now: u64): seq<u64>
    requires p in b.pools
  {
    Order.Ranked(Candidates(b, p, policy, c, now), ReclaimRank(b.allocations))
  }

  lemma CandidateFacts(b: Books, queues: map<u64, Queue>, p: u64, policy: Policy, c: ReclaimClass, now: u64, id: u64)
    requires BooksOk(b, queues) && p in b.pools && id in Candidates(b, p, policy, c, now)
    ensures id in b.allocations && b.allocations[id].Holds() && b.allocations[id].pool == p
    ensures b.allocations[id].reclaimClass == c && b.allocations[id].units <= MAX_UNITS
  {
    hide Agrees, Forest;
    assert HolderOk(b.allocations[id], b.pools, queues);
  }

  lemma CandidateParts(b: Books, p: u64, policy: Policy, c: ReclaimClass, now: u64, id: u64)
    requires p in b.pools && id in Candidates(b, p, policy, c, now)
    ensures Eligible(b, id, policy, now) && id in b.pools[p].members
  {
  }

  lemma RankedDistinct(ids: set<u64>, key: u64 -> Order.Rank)
    requires Order.TotalRanking(key)
    ensures Order.Distinct(Order.Ranked(ids, key))
    ensures forall id :: id in Order.Ranked(ids, key) <==> id in ids
  {
    var r := Order.Ranked(ids, key);
    assert forall id :: id in r <==> id in Order.Elements(r);
    forall i, j | 0 <= i < j < |r| ensures r[i] != r[j] {
      assert Order.Before(key(r[i]), key(r[j]));
    }
  }

  /** The ranked candidates of one class. */
  ghost predicate Facts(b: Books, p: u64, policy: Policy, c: ReclaimClass, now: u64, ids: seq<u64>)
    requires p in b.pools
  {
    && Listable(b.allocations, ids) && Order.Distinct(ids)
    && (forall id :: id in ids <==> id in Candidates(b, p, policy, c, now))
    && (forall id :: id in ids ==> b.allocations[id].Holds() && b.allocations[id].pool == p && b.allocations[id].reclaimClass == c)
  }

  lemma OrderedFacts(b: Books, queues: map<u64, Queue>, p: u64, policy: Policy, c: ReclaimClass, now: u64)
    requires BooksOk(b, queues) && p in b.pools
    ensures Facts(b, p, policy, c, now, Ordered(b, p, policy, c, now))
  {
    hide BooksOk, Candidates, Order.Ranked;
    var ids := Ordered(b, p, policy, c, now);
    RankedDistinct(Candidates(b, p, policy, c, now), ReclaimRank(b.allocations));
    forall id | id in ids
      ensures id in b.allocations && b.allocations[id].Holds() && b.allocations[id].pool == p
      ensures b.allocations[id].reclaimClass == c && b.allocations[id].units <= MAX_UNITS
    {
      CandidateFacts(b, queues, p, policy, c, now, id);
    }
  }

  /** What a plan promises. */
  ghost predicate WellPlanned(b: Books, p: u64, policy: Policy, target: u64, now: u64, plan: Plan)
    requires p in b.pools
  {
    && Order.Distinct(plan.victims)
    && (forall id :: id in plan.victims ==>
          Eligible(b, id, policy, now) && id in b.pools[p].members && b.allocations[id].pool == p)
    && plan.planned == UnitsOf(b.allocations, plan.victims) <= policy.reclaim.maxUnits
    // Minimal: without its last victim the plan would fall short.
    && (plan.victims != [] ==>
          var last := UnitsAt(b.allocations, plan.victims[|plan.victims| - 1]);
          last <= plan.planned && NeedsMore(plan.planned - last, target, b.pools[p].Free(), policy.reclaim.reserve))
    // Complete: an untruncated plan meets its goal or has taken every candidate it may.
    && (!plan.truncated && NeedsMore(plan.planned, target, b.pools[p].Free(), policy.reclaim.reserve) ==>
          && (forall id :: id in Candidates(b, p, policy, Reclaimable, now) ==> id in plan.victims)
          && (policy.reclaim.allowProtected ==> forall id :: id in Candidates(b, p, policy, Pinned, now) ==> id in plan.victims))
    // Pinned victims need an explicit policy and, unless truncated, come after every
    // eligible reclaimable one.
    && (forall id :: id in plan.victims && b.allocations[id].reclaimClass.Pinned? ==> policy.reclaim.allowProtected)
    && (!plan.truncated && (exists id :: id in plan.victims && b.allocations[id].reclaimClass.Pinned?) ==>
          forall id :: id in Candidates(b, p, policy, Reclaimable, now) ==> id in plan.victims)
  }

  lemma EmptyPlanCounts(records: Records, policy: Policy)
    requires policy.Valid()
    ensures Counts(records, Plan([], 0, false, false), policy)
  {
  }

  /** The first phase alone. */
  lemma FirstPhaseGreedy(b: Books, queues: map<u64, Queue>, p: u64, policy: Policy, target: u64, now: u64) returns (j: nat)
    requires BooksOk(b, queues) && p in b.pools && policy.Valid()
    ensures Greedy(b.allocations, Ordered(b, p, policy, Reclaimable, now), Plan([], 0, false, false),
                   FirstPhase(b, p, policy, target, now), j, target, b.pools[p].Free(), policy)
  {
    hide BooksOk, Take, Greedy, Ordered, Policy.Valid, Candidates;
    OrderedFacts(b, queues, p, policy, Reclaimable, now);
    EmptyPlanCounts(b.allocations, policy);
    j := TakeIsGreedy(b, Ordered(b, p, policy, Reclaimable, now), Plan([], 0, false, false), target, b.pools[p].Free(), policy);
    FirstPhaseIs(b, p, policy, target, now);
  }

  lemma FirstPhaseIs(b: Books, p: u64, policy: Policy, target: u64, now: u64)
    requires p in b.pools
    ensures FirstPhase(b, p, policy, target, now)
         == Take(b, Ordered(b, p, policy, Reclaimable, now), Plan([], 0, false, false), target, b.pools[p].Free(), policy)
  {
    hide Take;
  }

  lemma BuildPlanIs(b: Books, p: u64, policy: Policy, target: u64, now: u64)
    requires p in b.pools
    ensures var first := FirstPhase(b, p, policy, target, now);
            BuildPlan(b, p, policy, target, now)
            == if NeedsMore(first.planned, target, b.pools[p].Free(), policy.reclaim.reserve) && policy.reclaim.allowProtected
               then Take(b, Ordered(b, p, policy, Pinned, now), first, target, b.pools[p].Free(), policy) else first
  {
    hide Take, FirstPhase;
  }

  lemma PhasesDistinct(b: Books, p: u64, soft: seq<u64>, hard: seq<u64>, j: nat, k: nat)
    requires Order.Distinct(soft) && Order.Distinct(hard) && j <= |soft| && k <= |hard|
    requires forall id :: id in soft ==> id in b.allocations && b.allocations[id].reclaimClass.Reclaimable?
    requires forall id :: id in hard ==> id in b.allocations && b.allocations[id].reclaimClass.Pinned?
    ensures Order.Distinct(soft[..j] + hard[..k])
  {
    var ids := soft[..j] + hard[..k];
    forall x, y | 0 <= x < y < |ids| ensures ids[x] != ids[y] {
      if x < j && j <= y { assert ids[x] in soft && ids[y] in hard; }
    }
  }

  /** Every plan is well formed: distinct eligible victims summing to the planned units
      within the policy's maximum, minimal, complete unless truncated, with pinned victims
      only by policy and last. */
  lemma PlanTheorem(b: Books, queues: map<u64, Queue>, p: u64, policy: Policy, target: u64, now: u64)
    requires BooksOk(b, queues) && p in b.pools && policy.Valid()
    ensures WellPlanned(b, p, policy, target, now, BuildPlan(b, p, policy, target, now))
  {
    hide BooksOk, Take, Ordered, Policy.Valid, FirstPhase, BuildPlan, Greedy;
    var free, first, plan := b.pools[p].Free(), FirstPhase(b, p, policy, target, now), BuildPlan(b, p, policy, target, now);
    var j := FirstPhaseGreedy(b, queues, p, policy, target, now);
    BuildPlanIs(b, p, policy, target, now);
    OrderedFacts(b, queues, p, policy, Reclaimable, now);
    OrderedFacts(b, queues, p, policy, Pinned, now);
    if NeedsMore(first.planned, target, free, policy.reclaim.reserve) && policy.reclaim.allowProtected {
      GreedyCounts(b.allocations, Ordered(b, p, policy, Reclaimable, now), first, j, target, free, policy);
      var k := TakeIsGreedy(b, Ordered(b, p, policy, Pinned, now), first, target, free, policy);
      TwoPhasePlan(b, p, policy, target, now, first, plan, j, k);
    } else {
      OnePhasePlan(b, p, policy, target, now, first, j);
    }
  }

  lemma GreedyCounts(records: Records, ids: seq<u64>, r: Plan, k: nat, target: u64, free: u64, policy: Policy)
    requires Greedy(records, ids, Plan([], 0, false, false), r, k, target, free, policy)
    ensures Counts(records, r, policy)
  {
  }

  lemma OnePhasePlan(b: Books, p: u64, policy: Policy, target: u64, now: u64, plan: Plan, j: nat)
    requires p in b.pools
    requires Facts(b, p, policy, Reclaimable, now, Ordered(b, p, policy, Reclaimable, now))
    requires Greedy(b.allocations, Ordered(b, p, policy, Reclaimable, now), Plan([], 0, false, false), plan, j, target,
                    b.pools[p].Free(), policy)
    requires !(NeedsMore(plan.planned, target, b.pools[p].Free(), policy.reclaim.reserve) && policy.reclaim.allowProtected)
    ensures WellPlanned(b, p, policy, target, now, plan)
  {
    hide Ordered, UnitsOf, NeedsMore, PoolEntry.Free, Eligible;
    var soft := Ordered(b, p, policy, Reclaimable, now);
    assert plan.victims == soft[..j];
    forall id | id in plan.victims ensures id in soft && id in Candidates(b, p, policy, Reclaimable, now) {
    }
    assert j == |soft| ==> soft[..j] == soft;
  }

  lemma TwoPhasePlan(b: Books, p: u64, policy: Policy, target: u64, now: u64, first: Plan, plan: Plan, j: nat, k: nat)
    requires p in b.pools && policy.reclaim.allowProtected
    requires Facts(b, p, policy, Reclaimable, now, Ordered(b, p, policy, Reclaimable, now))
    requires Facts(b, p, policy, Pinned, now, Ordered(b, p, policy, Pinned, now))
    requires Greedy(b.allocations, Ordered(b, p, policy, Reclaimable, now), Plan([], 0, false, false), first, j, target,
                    b.pools[p].Free(), policy)
    requires Greedy(b.allocations, Ordered(b, p, policy, Pinned, now), first, plan, k, target, b.pools[p].Free(), policy)
    requires NeedsMore(first.planned, target, b.pools[p].Free(), policy.reclaim.reserve)
    ensures WellPlanned(b, p, policy, target, now, plan)
  {
    hide Ordered, UnitsOf, NeedsMore, PoolEntry.Free, Eligible, Candidates;
    var soft, hard := Ordered(b, p, policy, Reclaimable, now), Ordered(b, p, policy, Pinned, now);
    assert plan.victims == soft[..j] + hard[..k];
    PhasesDistinct(b, p, soft, hard, j, k);
    forall id | id in plan.victims ensures Eligible(b, id, policy, now) && id in b.pools[p].members && b.allocations[id].pool == p {
      if id in soft { CandidateParts(b, p, policy, Reclaimable, now, id); } else { CandidateParts(b, p, policy, Pinned, now, id); }
    }
    assert k == 0 ==> plan.victims == first.victims;
    assert j < |soft| ==> plan.truncated;
    assert j == |soft| ==> soft[..j] == soft;
    assert k == |hard| ==> hard[..k] == hard;
    assert k == 0 ==> forall id :: id in plan.victims ==> id in soft;
  }

  // ----- Applying a plan -----

  /** Distinct holders of one pool. */
  ghost predicate Revocable(b: Books, p: u64, ids: seq<u64>) {
    && p in b.pools && Order.Distinct(ids)
    && forall i :: 0 <= i < |ids| ==> ids[i] in b.allocations && b.allocations[ids[i]].Holds() && b.allocations[ids[i]].pool == p
  }

  lemma FenceOneUsage(b: Books, queues: map<u64, Queue>, id: u64, to: AllocationState, now: u64)
    requires BooksOk(b, queues) && id in b.allocations && b.allocations[id].Holds()
    ensures var r, b' := b.allocations[id], FenceOne(b, id, to, now).0;
            && r.pool in b.pools && r.pool in b'.pools
            && b'.pools[r.pool].descriptor == b.pools[r.pool].descriptor
            && b'.pools[r.pool].ownUsage == b.pools[r.pool].ownUsage - r.Own()
            && b'.pools[r.pool].reserved + b'.pools[r.pool].committed
               == b.pools[r.pool].reserved + b.pools[r.pool].committed - r.units
  {
    hide Forest, Indexed, FenceOne, Agrees, InRange, PoolsOk;
    var r, b' := b.allocations[id], FenceOne(b, id, to, now).0;
    FenceOneShape(b, queues, id, to, now);
    assert HolderOk(r, b.pools, queues);
    assert Field(b'.pools[r.pool], InOwn) == Field(b.pools[r.pool], InOwn) - Contribution(r, InOwn, r.pool);
    assert Field(b'.pools[r.pool], InReserved) == Field(b.pools[r.pool], InReserved) - Contribution(r, InReserved, r.pool);
    assert Field(b'.pools[r.pool], InCommitted) == Field(b.pools[r.pool], InCommitted) - Contribution(r, InCommitted, r.pool);
  }

  lemma {:induction false} SumsAgree(records: Records, records': Records, ids: seq<u64>)
    requires forall i :: 0 <= i < |ids| ==> ids[i] in records && ids[i] in records' && records'[ids[i]] == records[ids[i]]
    ensures UnitsOf(records', ids) == UnitsOf(records, ids) && OwnOf(records', ids) == OwnOf(records, ids)
  {
    if ids != [] {
      forall i | 0 <= i < |ids[1..]| ensures ids[1..][i] in records && records'[ids[1..][i]] == records[ids[1..][i]] {
        assert ids[1..][i] == ids[i + 1];
      }
      SumsAgree(records, records', ids[1..]);
    }
  }

  lemma TailRevocable(b: Books, b': Books, p: u64, ids: seq<u64>, r': Allocation)
    requires ids != [] && Revocable(b, p, ids) && p in b'.pools
    requires b'.allocations == b.allocations[ids[0] := r']
    ensures Revocable(b', p, ids[1..])
    ensures forall i :: 0 <= i < |ids[1..]| ==> b'.allocations[ids[1..][i]] == b.allocations[ids[1..][i]]
  {
    forall i | 0 <= i < |ids[1..]| ensures ids[1..][i] == ids[i + 1] && ids[i + 1] != ids[0] {
    }
  }

  /** Revoking a list of holders of one pool takes exactly their units from what it has
      allocated and exactly their non-borrowed units from its usage, and marks them. */
  lemma {:induction false} RevokeEffect(b: Books, queues: map<u64, Queue>, p: u64, ids: seq<u64>, to: AllocationState, now: u64)
    requires BooksOk(b, queues) && Revocable(b, p, ids) && !to.Holds()
    ensures var b' := FenceAll(b, ids, AnyHolding, to, now).0;
            && p in b'.pools && b'.pools[p].descriptor == b.pools[p].descriptor
            && b'.pools[p].ownUsage + OwnOf(b.allocations, ids) == b.pools[p].ownUsage
            && b'.pools[p].reserved + b'.pools[p].committed + UnitsOf(b.allocations, ids)
               == b.pools[p].reserved + b.pools[p].committed
            && forall i :: 0 <= i < |ids| ==>
                 ids[i] in b'.allocations && b'.allocations[ids[i]] == Marked(b.allocations[ids[i]], to, now)
    decreases |ids|
  {
    hide BooksOk, FenceOne, Shrunk;
    if ids != [] {
      var b1 := FenceOne(b, ids[0], to, now).0;
      var r' := Marked(b.allocations[ids[0]], to, now);
      FenceOneKeepsBooks(b, queues, ids[0], to, now);
      FenceOneMarks(b, queues, ids[0], to, now);
      FenceOneUsage(b, queues, ids[0], to, now);
      TailRevocable(b, b1, p, ids, r');
      RevokeEffect(b1, queues, p, ids[1..], to, now);
      SumsAgree(b.allocations, b1.allocations, ids[1..]);
      FenceAllSpares(b1, queues, ids[1..], AnyHolding, to, now, ids[0]);
      RevokedMarks(b, b1, FenceAll(b, ids, AnyHolding, to, now).0, ids, to, now);
    }
  }

  lemma RevokedMarks(b: Books, b1: Books, b': Books, ids: seq<u64>, to: AllocationState, now: u64)
    requires ids != [] && ids[0] in b.allocations && ids[0] in b'.allocations
    requires b'.allocations[ids[0]] == Marked(b.allocations[ids[0]], to, now)
    requires forall i :: 0 <= i < |ids[1..]| ==>
               && ids[1..][i] in b.allocations && ids[1..][i] in b1.allocations
               && b1.allocations[ids[1..][i]] == b.allocations[ids[1..][i]]
               && ids[1..][i] in b'.allocations
               && b'.allocations[ids[1..][i]] == Marked(b1.allocations[ids[1..][i]], to, now)
    ensures forall i :: 0 <= i < |ids| ==>
              ids[i] in b.allocations && ids[i] in b'.allocations && b'.allocations[ids[i]] == Marked(b.allocations[ids[i]], to, now)
  {
    forall i | 0 <= i < |ids|
      ensures ids[i] in b.allocations && ids[i] in b'.allocations && b'.allocations[ids[i]] == Marked(b.allocations[ids[i]], to, now)
    {
      if i > 0 { assert ids[i] == ids[1..][i - 1]; }
    }
  }

  /** Free capacity less overcommitted capacity: the pool's distance from its limit. */
  function Slack(e: PoolEntry): int { e.Free() - e.OvercommitUsed() }

  /** Applying a plan revokes exactly the planned units, and raises the pool's free capacity
      less its overcommitted capacity by exactly the victims' non-borrowed units. */
  lemma ApplyTheorem(s: Fabric, q: ReclaimRequest, now: u64)
    requires Inv(s) && PlanAdmission(s, q) == OK
    ensures var policy := s.policies[s.books.pools[q.pool].descriptor.policy];
            var plan := BuildPlan(s.books, q.pool, policy, q.target, now);
            var e, b := s.books.pools[q.pool], Revoked(s, q, now).0;
            && q.pool in b.pools
            && e.reserved + e.committed - (b.pools[q.pool].reserved + b.pools[q.pool].committed) == plan.planned
            && Slack(b.pools[q.pool]) == Slack(e) + OwnOf(s.books.allocations, plan.victims)
            && forall id :: id in plan.victims ==> id in b.allocations && b.allocations[id].state.Reclaimed?
  {
    hide BooksOk, BuildPlan, FenceAll, UnitsOf, OwnOf, Candidates, NeedsMore, Revocable;
    var policy := s.policies[s.books.pools[q.pool].descriptor.policy];
    var ids := Victims(s, q, now);
    PlanTheorem(s.books, s.queues, q.pool, policy, q.target, now);
    PlannedRevocable(s.books, q.pool, policy, q.target, now, BuildPlan(s.books, q.pool, policy, q.target, now));
    RevokeEffect(s.books, s.queues, q.pool, ids, AllocationState.Reclaimed, now);
  }

  lemma PlannedRevocable(b: Books, p: u64, policy: Policy, target: u64, now: u64, plan: Plan)
    requires p in b.pools && WellPlanned(b, p, policy, target, now, plan)
    ensures Revocable(b, p, plan.victims)
  {
    hide UnitsOf, Candidates, NeedsMore;
    forall i | 0 <= i < |plan.victims|
      ensures plan.victims[i] in b.allocations && b.allocations[plan.victims[i]].Holds() && b.allocations[plan.victims[i]].pool == p
    {
      assert plan.victims[i] in plan.victims;
    }
  }

  // ----- A truncated plan may take a pinned allocation first -----

  /** The code says a pinned allocation is considered only once every reclaimable one is
      taken. It is taken out of turn if one is a victim while an eligible one is left. */
  ghost predicate OutOfTurn(b: Books, p: u64, policy: Policy, now: u64, victims: seq<u64>)
    requires p in b.pools
  {
    && (exists id :: id in victims && id in b.allocations && b.allocations[id].reclaimClass.Pinned?)
    && (exists id :: id in Candidates(b, p, policy, Reclaimable, now) && id !in victims)
  }

  /** At rank j the reclaimable phase still needs more and is stopped by the per-operation
      maximum, not by the victim count, and the first pinned candidate would fit instead. */
  ghost predicate StopsShort(b: Books, policy: Policy, target: u64, free: u64, soft: seq<u64>, hard: seq<u64>, j: nat) {
    && j < |soft| && j < MAX_VICTIMS && hard != []
    && var taken := UnitsOf(b.allocations, soft[..j]);
       && taken <= policy.reclaim.maxUnits < taken + UnitsAt(b.allocations, soft[j])
       && NeedsMore(taken, target, free, policy.reclaim.reserve)
       && taken + UnitsAt(b.allocations, hard[0]) <= policy.reclaim.maxUnits
  }

  lemma {:induction false} UnitsMonotone(records: Records, ids: seq<u64>, i: nat, j: nat)
    requires i <= j <= |ids|
    ensures UnitsOf(records, ids[..i]) <= UnitsOf(records, ids[..j])
    decreases j
  {
    if i < j {
      UnitsMonotone(records, ids, i, j - 1);
      UnitsAppend(records, ids[..j - 1], ids[j - 1]);
      assert ids[..j] == ids[..j - 1] + [ids[j - 1]];
    }
  }

  lemma UnitsNext(records: Records, ids: seq<u64>, j: nat)
    requires j < |ids|
    ensures UnitsOf(records, ids[..j + 1]) == UnitsOf(records, ids[..j]) + UnitsAt(records, ids[j])
  {
    UnitsAppend(records, ids[..j], ids[j]);
    assert ids[..j + 1] == ids[..j] + [ids[j]];
  }

  /** The first phase stops exactly where the maximum stops it. */
  lemma CutOff(records: Records, soft: seq<u64>, first: Plan, k: nat, target: u64, free: u64, policy: Policy, j: nat)
    requires Greedy(records, soft, Plan([], 0, false, false), first, k, target, free, policy)
    requires free <= MAX_UNITS && j < |soft| && j < MAX_VICTIMS
    requires var taken := UnitsOf(records, soft[..j]);
             && taken <= policy.reclaim.maxUnits < taken + UnitsAt(records, soft[j])
             && NeedsMore(taken, target, free, policy.reclaim.reserve)
    ensures k == j
  {
    hide UnitsOf, UnitsAt;
    assert first.victims == soft[..k];
    if k < j {
      UnitsMonotone(records, soft, k, j);
      UnitsMonotone(records, soft, k + 1, j);
      UnitsNext(records, soft, k);
    } else if k > j {
      UnitsMonotone(records, soft, j + 1, k);
      UnitsNext(records, soft, j);
    }
  }

  /** A phase takes nothing exactly if its first candidate is not wanted or does not fit. */
  lemma TakeHead(b: Books, ids: seq<u64>, plan: Plan, target: u64, free: u64, policy: Policy)
    requires Listable(b.allocations, ids) && Counts(b.allocations, plan, policy)
    requires NeedsMore(plan.planned, target, free, policy.reclaim.reserve)
    ensures var r := Take(b, ids, plan, target, free, policy);
            var fits := ids != [] && |plan.victims| < MAX_VICTIMS
                        && plan.planned + UnitsAt(b.allocations, ids[0]) <= policy.reclaim.maxUnits;
            && (fits ==> ids[0] in r.victims) && (!fits ==> r.victims == plan.victims)
            && (forall id :: id in r.victims ==> id in plan.victims || id in ids)
            && (forall id :: id in plan.victims ==> id in r.victims)
  {
    hide UnitsOf, NeedsMore;
    var k := TakeIsGreedy(b, ids, plan, target, free, policy);
    var r := Take(b, ids, plan, target, free, policy);
    if ids != [] && |plan.victims| < MAX_VICTIMS && plan.planned + UnitsAt(b.allocations, ids[0]) <= policy.reclaim.maxUnits {
      TakeFirst(b, ids, plan, target, free, policy);
    }
  }

  lemma TakeFirst(b: Books, ids: seq<u64>, plan: Plan, target: u64, free: u64, policy: Policy)
    requires Listable(b.allocations, ids) && Counts(b.allocations, plan, policy) && ids != []
    requires NeedsMore(plan.planned, target, free, policy.reclaim.reserve) && |plan.victims| < MAX_VICTIMS
    requires plan.planned + UnitsAt(b.allocations, ids[0]) <= policy.reclaim.maxUnits
    ensures ids[0] in Take(b, ids, plan, target, free, policy).victims
  {
    hide UnitsOf, NeedsMore;
    var next := plan.(victims := plan.victims + [ids[0]], planned := plan.planned + b.allocations[ids[0]].units,
                      protectedUsed := plan.protectedUsed || b.allocations[ids[0]].reclaimClass.Pinned?);
    UnitsAppend(b.allocations, plan.victims, ids[0]);
    var j := TakeIsGreedy(b, ids[1..], next, target, free, policy);
    assert ids[0] in next.victims;
  }

  lemma FreeBound(b: Books, queues: map<u64, Queue>, p: u64)
    requires BooksOk(b, queues) && p in b.pools
    ensures b.pools[p].Free() <= MAX_UNITS
  {
    hide Agrees, RecordsOk, Indexed, Forest;
    assert PoolOk(b.pools[p], p);
  }

  /** Exactly when a pinned allocation is taken while an eligible reclaimable one is left:
      the policy allows pinned victims, and somewhere in the ranking the next reclaimable
      candidate is too large for what remains of the maximum while the first pinned one is
      not. The truncation of the first phase does not stop the second. */
  lemma PinnedTakenFirstIff(b: Books, queues: map<u64, Queue>, p: u64, policy: Policy, target: u64, now: u64)
    requires BooksOk(b, queues) && p in b.pools && policy.Valid()
    ensures var soft, hard := Ordered(b, p, policy, Reclaimable, now), Ordered(b, p, policy, Pinned, now);
            && (OutOfTurn(b, p, policy, now, BuildPlan(b, p, policy, target, now).victims)
                <==> (policy.reclaim.allowProtected
                      && exists j :: StopsShort(b, policy, target, b.pools[p].Free(), soft, hard, j)))
  {
    hide BooksOk, Take, Ordered, Policy.Valid, FirstPhase, BuildPlan, Greedy, NeedsMore, StopsShort, Candidates, PoolEntry.Free, Facts;
    var free, first := b.pools[p].Free(), FirstPhase(b, p, policy, target, now);
    var soft, hard := Ordered(b, p, policy, Reclaimable, now), Ordered(b, p, policy, Pinned, now);
    var k := FirstPhaseGreedy(b, queues, p, policy, target, now);
    BuildPlanIs(b, p, policy, target, now);
    OrderedFacts(b, queues, p, policy, Reclaimable, now);
    OrderedFacts(b, queues, p, policy, Pinned, now);
    FreeBound(b, queues, p);
    OnlySoft(b, p, policy, target, now, first, k);
    forall j | StopsShort(b, policy, target, free, soft, hard, j) ensures j == k { ShortCut(b, policy, target, free, soft, hard, first, k, j); }
    if NeedsMore(first.planned, target, free, policy.reclaim.reserve) && policy.reclaim.allowProtected {
      SecondPhase(b, p, policy, target, now, first, k);
    } else {
      ShortNeeds(b, policy, target, free, soft, hard, first, k);
    }
  }

  lemma ShortCut(b: Books, policy: Policy, target: u64, free: u64, soft: seq<u64>, hard: seq<u64>, first: Plan, k: nat, j: nat)
    requires Greedy(b.allocations, soft, Plan([], 0, false, false), first, k, target, free, policy) && free <= MAX_UNITS
    requires StopsShort(b, policy, target, free, soft, hard, j)
    ensures j == k
  {
    hide Greedy, NeedsMore, UnitsOf;
    CutOff(b.allocations, soft, first, k, target, free, policy, j);
  }

  lemma ShortNeeds(b: Books, policy: Policy, target: u64, free: u64, soft: seq<u64>, hard: seq<u64>, first: Plan, k: nat)
    requires Greedy(b.allocations, soft, Plan([], 0, false, false), first, k, target, free, policy)
    ensures StopsShort(b, policy, target, free, soft, hard, k) ==> NeedsMore(first.planned, target, free, policy.reclaim.reserve)
  {
    hide NeedsMore, UnitsOf;
    assert first.victims == soft[..k];
  }

  /** The first phase takes no pinned victim. */
  lemma OnlySoft(b: Books, p: u64, policy: Policy, target: u64, now: u64, first: Plan, k: nat)
    requires p in b.pools && Facts(b, p, policy, Reclaimable, now, Ordered(b, p, policy, Reclaimable, now))
    requires Greedy(b.allocations, Ordered(b, p, policy, Reclaimable, now), Plan([], 0, false, false), first, k, target,
                    b.pools[p].Free(), policy)
    ensures forall id :: id in first.victims ==> id in b.allocations && b.allocations[id].reclaimClass.Reclaimable?
  {
    hide Ordered, UnitsOf, NeedsMore, PoolEntry.Free, Candidates;
    var soft := Ordered(b, p, policy, Reclaimable, now);
    assert first.victims == soft[..k];
    forall id | id in first.victims ensures id in soft {}
  }

  lemma SecondPhase(b: Books, p: u64, policy: Policy, target: u64, now: u64, first: Plan, k: nat)
    requires p in b.pools
    requires Facts(b, p, policy, Reclaimable, now, Ordered(b, p, policy, Reclaimable, now))
    requires Facts(b, p, policy, Pinned, now, Ordered(b, p, policy, Pinned, now))
    requires Greedy(b.allocations, Ordered(b, p, policy, Reclaimable, now), Plan([], 0, false, false), first, k, target,
                    b.pools[p].Free(), policy)
    requires NeedsMore(first.planned, target, b.pools[p].Free(), policy.reclaim.reserve)
    ensures var soft, hard := Ordered(b, p, policy, Reclaimable, now), Ordered(b, p, policy, Pinned, now);
            var plan := Take(b, hard, first, target, b.pools[p].Free(), policy);
            OutOfTurn(b, p, policy, now, plan.victims) <==> StopsShort(b, policy, target, b.pools[p].Free(), soft, hard, k)
  {
    hide Ordered, UnitsOf, NeedsMore, PoolEntry.Free, Candidates, Take, UnitsAt, Facts, Greedy;
    var soft, hard := Ordered(b, p, policy, Reclaimable, now), Ordered(b, p, policy, Pinned, now);
    var plan := Take(b, hard, first, target, b.pools[p].Free(), policy);
    GreedyCounts(b.allocations, soft, first, k, target, b.pools[p].Free(), policy);
    FactsListable(b, p, policy, now, hard);
    TakeHead(b, hard, first, target, b.pools[p].Free(), policy);
    OnlySoft(b, p, policy, target, now, first, k);
    PinnedIn(b, p, policy, now, first.victims, hard, plan.victims);
    LeftOver(b, p, policy, now, soft, hard, k, plan.victims) by { GreedyVictims(b.allocations, soft, first, k, target, b.pools[p].Free(), policy); }
    GreedyStop(b.allocations, soft, first, k, target, b.pools[p].Free(), policy);
  }

  lemma FactsListable(b: Books, p: u64, policy: Policy, now: u64, hard: seq<u64>)
    requires p in b.pools && Facts(b, p, policy, Pinned, now, hard)
    ensures Listable(b.allocations, hard)
  {
  }

  lemma GreedyVictims(records: Records, soft: seq<u64>, first: Plan, k: nat, target: u64, free: u64, policy: Policy)
    requires Greedy(records, soft, Plan([], 0, false, false), first, k, target, free, policy)
    ensures k <= |soft| && first.victims == soft[..k]
  {
    hide UnitsOf, NeedsMore, UnitsAt;
  }

  /** Where a phase that needs more stops, and why. */
  lemma GreedyStop(records: Records, soft: seq<u64>, first: Plan, k: nat, target: u64, free: u64, policy: Policy)
    requires Greedy(records, soft, Plan([], 0, false, false), first, k, target, free, policy)
    requires NeedsMore(first.planned, target, free, policy.reclaim.reserve)
    ensures k <= |soft| && first.planned == UnitsOf(records, soft[..k]) <= policy.reclaim.maxUnits && |first.victims| == k
    ensures k < |soft| && k < MAX_VICTIMS ==> first.planned + UnitsAt(records, soft[k]) > policy.reclaim.maxUnits
  {
    hide UnitsOf, NeedsMore, UnitsAt;
    assert first.victims == soft[..k];
  }

  lemma PinnedIn(b: Books, p: u64, policy: Policy, now: u64, before: seq<u64>, hard: seq<u64>, victims: seq<u64>)
    requires p in b.pools && Facts(b, p, policy, Pinned, now, hard)
    requires forall id :: id in before ==> id in b.allocations && b.allocations[id].reclaimClass.Reclaimable?
    requires victims == before || (hard != [] && hard[0] in victims)
    ensures (exists id :: id in victims && id in b.allocations && b.allocations[id].reclaimClass.Pinned?) <==> victims != before
    ensures victims != before <==> hard != [] && hard[0] in victims
  {
    hide Candidates;
    if hard != [] { assert hard[0] in hard; }
  }

  lemma LeftOver(b: Books, p: u64, policy: Policy, now: u64, soft: seq<u64>, hard: seq<u64>, k: nat, victims: seq<u64>)
    requires p in b.pools && Facts(b, p, policy, Reclaimable, now, soft) && Facts(b, p, policy, Pinned, now, hard)
    requires k <= |soft| && (forall id :: id in victims ==> id in soft[..k] || id in hard)
    requires forall id :: id in soft[..k] ==> id in victims
    ensures (exists id :: id in Candidates(b, p, policy, Reclaimable, now) && id !in victims) <==> k < |soft|
  {
    hide Candidates;
    if k < |soft| {
      assert soft[k] in soft && soft[k] !in soft[..k];
      assert soft[k] !in hard;
    } else {
      assert soft[..k] == soft;
    }
  }

  /** When the first reclaimable candidate alone exceeds the per-operation maximum, the
      reclaimable phase stops at once, yet the pinned phase still runs: a pinned allocation
      that fits is taken while an eligible reclaimable one is left. */
  lemma PinnedTakenFirst(b: Books, queues: map<u64, Queue>, p: u64, policy: Policy, target: u64, now: u64, soft: u64, hard: u64)
    requires BooksOk(b, queues) && p in b.pools && policy.Valid() && policy.reclaim.allowProtected && target > 0
    requires Candidates(b, p, policy, Reclaimable, now) == {soft} && Candidates(b, p, policy, Pinned, now) == {hard}
    requires UnitsAt(b.allocations, soft) > policy.reclaim.maxUnits >= UnitsAt(b.allocations, hard)
    ensures var plan := BuildPlan(b, p, policy, target, now);
            plan.truncated && plan.victims == [hard] && soft !in plan.victims
  {
    hide BooksOk, Candidates;
    SingleRanked(soft, ReclaimRank(b.allocations));
    SingleRanked(hard, ReclaimRank(b.allocations));
    OrderedFacts(b, queues, p, policy, Reclaimable, now);
    OrderedFacts(b, queues, p, policy, Pinned, now);
    FirstPhaseIs(b, p, policy, target, now);
    BuildPlanIs(b, p, policy, target, now);
    assert soft in Ordered(b, p, policy, Reclaimable, now) && hard in Ordered(b, p, policy, Pinned, now);
    assert FirstPhase(b, p, policy, target, now) == Plan([], 0, true, false);
    assert b.allocations[soft].reclaimClass.Reclaimable? && b.allocations[hard].reclaimClass.Pinned?;
    TakeOne(b, hard, Plan([], 0, true, false), target, b.pools[p].Free(), policy);
  }

  lemma SingleRanked(id: u64, key: u64 -> Order.Rank)
    requires Order.TotalRanking(key)
    ensures Order.Ranked({id}, key) == [id]
  {
    var r := Order.Ranked({id}, key);
    assert Order.Elements([id]) == {id};
    Order.SortedUnique(r, [id], key);
  }

  lemma TakeOne(b: Books, id: u64, plan: Plan, target: u64, free: u64, policy: Policy)
    requires id in b.allocations && plan.victims == [] && plan.planned == 0 && target > 0
    requires b.allocations[id].units <= policy.reclaim.maxUnits
    ensures var r := Take(b, [id], plan, target, free, policy);
            r.victims == [id] && r.truncated == plan.truncated
  {
    var next := plan.(victims := [id], planned := b.allocations[id].units,
                      protectedUsed := plan.protectedUsed || b.allocations[id].reclaimClass.Pinned?);
    assert Take(b, [], next, target, free, policy) == next;
    assert [id][1..] == [];
  }
}
