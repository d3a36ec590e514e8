/** Capacity arithmetic: who may lend, how much may be granted, and whether a pool's
    accounting closes. */
module Grants {
  import opened Arithmetic
  import opened Pressure
  import opened Model

  type Pools = map<u64, PoolEntry>

  // ----- Lender search -----

  /** Walks the ancestry from `cursor`, at most MAX_DEPTH steps, to the first pool that is
      not retired and has free capacity; 0 when there is none. */
  function NearestLender(pools: Pools, cursor: u64, depth: nat): u64
    decreases MAX_DEPTH - depth
  {
    if cursor == 0 || depth >= MAX_DEPTH || cursor !in pools then 0
    else if !pools[cursor].descriptor.retired && pools[cursor].Free() != 0 then pools[cursor].descriptor.id
    else NearestLender(pools, pools[cursor].descriptor.parent, depth + 1)
  }

  datatype Grant = Grant(ownFree: u64, headroom: u64, borrowRemaining: u64, lender: u64,
                         lenderFree: u64, borrowable: u64, maxGrant: u64)

  function Headroom(e: PoolEntry, policy: Policy): u64 {
    if policy.overcommit.mode.Bounded? && policy.overcommit.limit > e.OvercommitUsed()
    then policy.overcommit.limit - e.OvercommitUsed() else 0
  }

  function ComputeGrant(pools: Pools, e: PoolEntry, policy: Policy): Grant {
    var ownFree, headroom := e.Free(), Headroom(e, policy);
    var allowance := SatAdd(ownFree, headroom);
    if policy.borrow.mode.FromAncestorFree? then
      var remaining := if policy.borrow.limit > e.borrowedIn then policy.borrow.limit - e.borrowedIn else 0;
      var lender := NearestLender(pools, e.descriptor.parent, 0);
      var lenderFree := if lender != 0 && lender in pools then pools[lender].Free() else 0;
      var borrowable := Min(lenderFree, remaining);
      Grant(ownFree, headroom, remaining, lender, lenderFree, borrowable, SatAdd(allowance, borrowable))
    else
      Grant(ownFree, headroom, 0, 0, 0, 0, allowance)
  }

  /** Units a grant draws from the lender: own free capacity first, overcommit last. */
  function BorrowFor(g: Grant, grant: u64): u64 {
    if grant > g.ownFree then Min(grant - g.ownFree, g.borrowable) else 0
  }

  // ----- Caps -----

  function QueueHeld(e: PoolEntry, q: u64): u64 { Wrap(Bucket(e.queueCommitted, q) + Bucket(e.queueReserved, q)) }

  function Room(cap: u64, held: u64): u64 { if cap > held then cap - held else 0 }

  function PolicyCap(policy: Policy, limit: u64): u64 {
    var a := if policy.maxSingleRequest != 0 then Min(policy.maxSingleRequest, limit) else limit;
    if policy.maxSingleAllocation != 0 then Min(policy.maxSingleAllocation, a) else a
  }

  function QueueCap(e: PoolEntry, queue: Queue, limit: u64): u64 {
    if queue.maxCommitted != 0 then Min(Room(queue.maxCommitted, QueueHeld(e, queue.id)), limit)
    else if queue.demand != 0 then Min(Room(queue.demand, QueueHeld(e, queue.id)), limit)
    else limit
  }

  predicate SoftLimitApplies(e: PoolEntry, policy: Policy, state: PressureState) {
    policy.softLimit != 0 && e.Usable() != 0 && state.AtLeast(High)
  }

  function SoftCap(e: PoolEntry, policy: Policy, state: PressureState, limit: u64): u64 {
    if SoftLimitApplies(e, policy, state)
    then Min(Room(SatMul(e.Usable(), policy.softLimit) / SCALE, e.ownUsage), limit) else limit
  }

  function Partial(policy: Policy, requested: u64, limit: u64): u64 {
    var grant := Min(requested, limit);
    if !policy.allowPartial && grant < requested then 0 else grant
  }

  /** The units an allocate decides on. */
  function AllocateUnits(pools: Pools, e: PoolEntry, queue: Queue, policy: Policy,
                         state: PressureState, requested: u64): u64 {
    var limit := QueueCap(e, queue, PolicyCap(policy, ComputeGrant(pools, e, policy).maxGrant));
    Partial(policy, requested, SoftCap(e, policy, state, limit))
  }

  /** The units an evaluate reports: the same computation without the soft limit. */
  function EvaluateUnits(pools: Pools, e: PoolEntry, queue: Queue, policy: Policy, requested: u64): u64 {
    Partial(policy, requested, QueueCap(e, queue, PolicyCap(policy, ComputeGrant(pools, e, policy).maxGrant)))
  }

  // ----- Accounting closure -----

  datatype Accounting = Accounting(
    raw: u64, protected: u64, usable: u64, allocatedUnits: u64, reserved: u64, committed: u64,
    pinned: u64, reclaimable: u64, borrowedIn: u64, lentOut: u64,
    overcommitUsed: u64, overcommitLimit: u64, free: u64)
  {
    function OwnUsage(): u64 { SatAdd(if allocatedUnits >= borrowedIn then allocatedUnits - borrowedIn else 0, lentOut) }
  }

  function AccountingOf(e: PoolEntry, limit: u64): Accounting {
    Accounting(e.descriptor.raw, e.descriptor.protected, e.Usable(), e.Allocated(), e.reserved, e.committed,
               e.pinned, e.reclaimable, e.borrowedIn, e.lentOut, e.OvercommitUsed(), limit, e.Free())
  }

  predicate SumFits(a: u64, b: u64, total: u64) { !AddOverflows(a, b) && Wrap(a + b) == total }

  /** The closure identity, with each partial sum refused rather than wrapped. */
  predicate IdentityCloses(a: Accounting) {
    && !AddOverflows(a.raw, a.borrowedIn)
    && !AddOverflows(Wrap(a.raw + a.borrowedIn), a.overcommitUsed)
    && !AddOverflows(a.protected, a.allocatedUnits)
    && !AddOverflows(Wrap(a.protected + a.allocatedUnits), a.free)
    && !AddOverflows(Wrap(Wrap(a.protected + a.allocatedUnits) + a.free), a.lentOut)
    && Wrap(Wrap(a.raw + a.borrowedIn) + a.overcommitUsed)
       == Wrap(Wrap(Wrap(a.protected + a.allocatedUnits) + a.free) + a.lentOut)
  }

  /** check_pool_accounting finds no violation. */
  predicate Closes(a: Accounting, mode: OvercommitMode, limit: u64) {
    && a.protected <= a.raw
    && a.usable == (if a.raw >= a.protected then a.raw - a.protected else 0)
    && SumFits(a.reserved, a.committed, a.allocatedUnits)
    && SumFits(a.pinned, a.reclaimable, a.allocatedUnits)
    && IdentityCloses(a)
    && (a.free == 0 || a.overcommitUsed == 0)
    && (a.overcommitUsed == 0 || mode.Bounded?)
    && a.overcommitUsed <= limit
    && a.free <= SatAdd(a.usable, a.overcommitUsed)
    && a.OwnUsage() <= SatAdd(a.usable, limit)
  }

  /** check_closure for one pool under the policy table. */
  predicate PoolCloses(policies: map<u64, Policy>, e: PoolEntry) {
    var known := e.descriptor.policy in policies;
    var mode := if known then policies[e.descriptor.policy].overcommit.mode else ForbidOvercommit;
    var limit: u64 := if known then policies[e.descriptor.policy].overcommit.limit else 0;
    var reported: u64 := if known then policies[e.descriptor.policy].Allowance() else 0;
    Closes(AccountingOf(e, reported), mode, limit)
  }

  // ----- Evidence -----

  datatype Evidence = Evidence(state: PressureState, reason: Code)

  predicate IsFresh(now: u64, observedAt: u64, ttl: u64) {
    ttl != 0 && observedAt <= now && now - observedAt <= ttl
  }

  function ResolveEvidence(pressure: map<u64, PressureSnapshot>, policies: map<u64, Policy>, epoch: u64,
                           e: PoolEntry, now: u64): Evidence {
    var thresholds := if e.descriptor.policy in policies then policies[e.descriptor.policy].pressure.thresholds
                      else Thresholds(7000, 8500, 9500);
    if e.descriptor.id !in pressure then Evidence(Unknown, EVIDENCE_UNKNOWN)
    else
      var snapshot := pressure[e.descriptor.id];
      if snapshot.epoch != epoch then Evidence(Stale, STALE_EPOCH)
      else if snapshot.poolGeneration != e.descriptor.generation then Evidence(Stale, STALE_GENERATION)
      else if !IsFresh(now, snapshot.observedAt, snapshot.ttl) then Evidence(Stale, STALE_EVIDENCE)
      else if snapshot.assertCommitted && snapshot.committed != e.ownUsage then Evidence(Stale, STALE_EVIDENCE)
      else Evidence(Classify(thresholds, e.ownUsage, e.Usable(), e.OvercommitUsed() != 0).state, OK)
  }

  // ----- Properties of the grant arithmetic -----

  /** Own free capacity goes first, then the lender's, and overcommit grows only once
      everything borrowable is taken. */
  lemma GrantComposition(pools: Pools, e: PoolEntry, policy: Policy, grant: u64)
    requires grant <= ComputeGrant(pools, e, policy).maxGrant
    ensures var g := ComputeGrant(pools, e, policy);
            var borrow := BorrowFor(g, grant);
            && borrow <= grant && borrow <= g.lenderFree && borrow <= g.borrowRemaining
            && (borrow > 0 ==> grant > e.Free() && g.lender != 0 && g.lender in pools)
            && grant - borrow <= g.ownFree + g.headroom
            && (grant - borrow > g.ownFree ==> borrow == g.borrowable)
  {
  }

  /** The soft limit is the only difference between what evaluate reports and what
      allocate decides. */
  lemma EvaluateMatchesAllocate(pools: Pools, e: PoolEntry, queue: Queue, policy: Policy,
                                state: PressureState, requested: u64)
    ensures !SoftLimitApplies(e, policy, state) ==>
              AllocateUnits(pools, e, queue, policy, state, requested)
              == EvaluateUnits(pools, e, queue, policy, requested)
    ensures AllocateUnits(pools, e, queue, policy, state, requested)
         <= EvaluateUnits(pools, e, queue, policy, requested)
  {
  }

  /** The closure check on one entry comes down to one comparison. When the aggregates
      are consistent, in range and the pool is well formed, it succeeds exactly when own
      usage is within usable capacity plus the overcommit allowance. */
  lemma ClosesIffWithinAllowance(e: PoolEntry, policy: Policy)
    requires e.descriptor.protected <= e.descriptor.raw <= MAX_UNITS
    requires policy.Valid()
    requires e.ownUsage <= TWO61 && e.borrowedIn <= TWO60
    requires e.reserved + e.committed == e.pinned + e.reclaimable
    requires e.reserved + e.committed + e.lentOut == e.ownUsage + e.borrowedIn
    requires e.borrowedIn <= e.reserved + e.committed
    ensures Closes(AccountingOf(e, policy.Allowance()), policy.overcommit.mode, policy.overcommit.limit)
       <==> e.ownUsage <= e.Usable() + policy.Allowance()
  {
    var a := AccountingOf(e, policy.Allowance());
    AddOverflowIsExact(a.raw, a.borrowedIn);
    AddOverflowIsExact(Wrap(a.raw + a.borrowedIn), a.overcommitUsed);
    AddOverflowIsExact(a.protected, a.allocatedUnits);
    AddOverflowIsExact(Wrap(a.protected + a.allocatedUnits), a.free);
    AddOverflowIsExact(Wrap(Wrap(a.protected + a.allocatedUnits) + a.free), a.lentOut);
    AddOverflowIsExact(a.reserved, a.committed);
    AddOverflowIsExact(a.pinned, a.reclaimable);
  }
}
