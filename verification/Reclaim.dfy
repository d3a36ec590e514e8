/** Reclamation: building a plan and applying it. */
module Reclaim {
  import opened Arithmetic
  import opened Model
  import opened Grants
  import opened Ledger
  import Order

  datatype Plan = Plan(victims: seq<u64>, planned: u64, truncated: bool, protectedUsed: bool)

  datatype ReclaimRequest = ReclaimRequest(pool: u64, target: u64, expectedPool: u64, expectedEpoch: u64)

  /** Victim order: priority, then least recently touched, then id. */
  function ReclaimRank(allocations: map<u64, Allocation>): u64 -> Order.Rank {
    (id: u64) =>
      if id in allocations then Order.Rank(allocations[id].priority, allocations[id].lastTouched, id)
      else Order.Rank(0, 0, id)
  }

  predicate Eligible(b: Books, id: u64, policy: Policy, now: u64) {
    && id in b.allocations
    && var r := b.allocations[id];
       && r.Holds()
       && (policy.reclaim.minHold != 0 ==>
             (if now >= r.lastTouched then now - r.lastTouched else 0) >= policy.reclaim.minHold)
  }

  function Candidates(b: Books, p: u64, policy: Policy, c: ReclaimClass, now: u64): set<u64>
    requires p in b.pools
  {
    set id | id in b.pools[p].members && Eligible(b, id, policy, now) && b.allocations[id].reclaimClass == c
  }

  predicate NeedsMore(planned: u64, target: u64, startingFree: u64, reserve: u64) {
    planned < target || Wrap(startingFree + planned) < reserve
  }

  /** The greedy loop over one class of candidates. */
  function Take(b: Books, ids: seq<u64>, plan: Plan, target: u64, startingFree: u64, policy: Policy): Plan
    decreases |ids|
  {
    if ids == [] || !NeedsMore(plan.planned, target, startingFree, policy.reclaim.reserve) then plan
    else if ids[0] !in b.allocations then Take(b, ids[1..], plan, target, startingFree, policy)
    else
      var units := b.allocations[ids[0]].units;
      if |plan.victims| >= MAX_VICTIMS || Wrap(plan.planned + units) > policy.reclaim.maxUnits
      then plan.(truncated := true)
      else Take(b, ids[1..],
                plan.(victims := plan.victims + [ids[0]], planned := Wrap(plan.planned + units),
                      protectedUsed := plan.protectedUsed || b.allocations[ids[0]].reclaimClass.Pinned?),
                target, startingFree, policy)
  }

  ghost function FirstPhase(b: Books, p: u64, policy: Policy, target: u64, now: u64): Plan
    requires p in b.pools
  {
    var order := Order.Ranked(Candidates(b, p, policy, Reclaimable, now), ReclaimRank(b.allocations));
    Take(b, order, Plan([], 0, false, false), target, b.pools[p].Free(), policy)
  }

  /** plan_reclaim: reclaimable allocations first, then, if the policy allows it and more
      is still needed, pinned ones. */
  ghost function BuildPlan(b: Books, p: u64, policy: Policy, target: u64, now: u64): Plan
    requires p in b.pools
  {
    var first := FirstPhase(b, p, policy, target, now);
    if NeedsMore(first.planned, target, b.pools[p].Free(), policy.reclaim.reserve) && policy.reclaim.allowProtected
    then Take(b, Order.Ranked(Candidates(b, p, policy, Pinned, now), ReclaimRank(b.allocations)),
              first, target, b.pools[p].Free(), policy)
    else first
  }

  function PlanAdmission(s: Fabric, q: ReclaimRequest): Code {
    if q.target == 0 then INVALID_ARGUMENT
    else if q.target > MAX_UNITS then OVERFLOW
    else if q.pool == 0 then INVALID_ARGUMENT
    else if q.pool !in s.books.pools then UNKNOWN_POOL
    else if Mismatch(q.expectedEpoch, s.epoch) then STALE_EPOCH
    else if Mismatch(q.expectedPool, s.books.pools[q.pool].descriptor.generation) then STALE_GENERATION
    else if s.books.pools[q.pool].descriptor.policy !in s.policies then UNKNOWN_POLICY
    else if !s.policies[s.books.pools[q.pool].descriptor.policy].reclaim.enabled then POLICY_FORBIDS
    else OK
  }

  /** apply_reclaim: the plan's victims are revoked, then closure is checked. */
  ghost function ApplyReclaim(s: Fabric, q: ReclaimRequest, now: u64): (Fabric, Code) {
    if s.Refusing() then (s, SHUTTING_DOWN)
    else if PlanAdmission(s, q) != OK then (s, PlanAdmission(s, q))
    else
      var plan := BuildPlan(s.books, q.pool, s.policies[s.books.pools[q.pool].descriptor.policy], q.target, now);
      var (b, code) := FenceAll(s.books, plan.victims, AnyHolding, AllocationState.Reclaimed, now);
      if code != OK then (s.(books := b), code)
      else if q.pool in b.pools && !PoolCloses(s.policies, b.pools[q.pool])
      then (s.(books := b, shuttingDown := true), ACCOUNTING_VIOLATION)
      else (s.(books := b), OK)
  }
}
