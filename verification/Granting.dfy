/** What allocate and evaluate answer, from the fields of the tables: which evidence counts, how
    many units may be granted, and which record is stored. */
module Granting {
  import opened Arithmetic
  import opened Pressure
  import opened Model
  import opened Attempts
  import opened Grants
  import opened Ledger
  import opened Topology
  import opened Aggregates
  import opened Invariant
  import opened Transitions
  import opened Lending
  import opened AllocationSteps
  import opened Soundness
  import opened Handlers
  import opened Answers
  import opened Layout

  // ----- Evidence -----

  /** The pool has an observation of this session and of its present generation, no older than
      its lifetime, and true to the usage it asserts. */
  ghost predicate Known(s: Fabric, p: u64, now: u64)
    requires p in s.books.pools
  {
    var e := s.books.pools[p];
    && p in s.pressure
    && var o := s.pressure[p];
       && o.epoch == s.epoch && o.poolGeneration == e.descriptor.generation
       && 0 < o.ttl && o.observedAt <= now <= o.observedAt + o.ttl
       && (o.assertCommitted ==> o.committed == e.ownUsage)
  }

  /** What is wrong with evidence that is not known. */
  ghost function Doubt(s: Fabric, p: u64): Code
    requires p in s.books.pools
  {
    if p !in s.pressure then EVIDENCE_UNKNOWN
    else if s.pressure[p].epoch != s.epoch then STALE_EPOCH
    else if s.pressure[p].poolGeneration != s.books.pools[p].descriptor.generation then STALE_GENERATION
    else STALE_EVIDENCE
  }

  /** Own usage has reached so many hundredths of a percent of usable capacity, exactly. */
  ghost predicate Reaches(e: PoolEntry, basisPoints: u32) {
    e.ownUsage * 10000 >= basisPoints * (e.descriptor.raw - e.descriptor.protected)
  }

  /** Present usage lies in the band or above it. */
  ghost predicate AtBand(e: PoolEntry, t: Thresholds, band: PressureState) {
    match band
    case Unknown => true
    case Clear => true
    case Elevated => Reaches(e, t.elevated)
    case High => Reaches(e, t.high)
    case Critical => Reaches(e, t.critical)
    case Stale => false
  }

  lemma BandIs(e: PoolEntry, t: Thresholds, band: PressureState)
    requires t.Valid() && e.descriptor.protected < e.descriptor.raw
    ensures var state := Classify(t, e.ownUsage, e.Usable(), e.OvercommitUsed() != 0).state;
            state.Known() && (state.AtLeast(band) <==> AtBand(e, t, band))
  {
    hide Classify, UtilizationAtLeast;
    var usable := e.Usable();
    ClassifyIsExact(t, e.ownUsage, usable, e.OvercommitUsed() != 0);
    MulMonotone(t.elevated, t.high, usable);
    MulMonotone(t.high, t.critical, usable);
  }

  /** Evidence counts exactly while it is known, and then as the exact band of present usage;
      otherwise it says what is wrong with it. */
  lemma EvidenceIs(s: Fabric, p: u64, now: u64)
    requires PoolsOk(s.books.pools) && p in s.books.pools && s.books.pools[p].descriptor.policy in s.policies
    requires PoliciesOk(s.policies)
    ensures var e := s.books.pools[p];
            var t := s.policies[e.descriptor.policy].pressure.thresholds;
            var found := ResolveEvidence(s.pressure, s.policies, s.epoch, e, now);
            && (found.state.Known() <==> Known(s, p, now))
            && (!Known(s, p, now) ==> found.reason == Doubt(s, p))
            && (Known(s, p, now) ==> forall band: PressureState :: found.state.AtLeast(band) <==> AtBand(e, t, band))
  {
    hide Classify, AtBand, Policy.Valid, ResolveEvidence, Known;
    var e := s.books.pools[p];
    var t := s.policies[e.descriptor.policy].pressure.thresholds;
    assert PoolOk(e, p);
    ValidThresholds(s.policies[e.descriptor.policy]);
    EvidenceFound(s, p, now);
    BandIs(e, t, Clear);
    forall band: PressureState | Known(s, p, now)
      ensures ResolveEvidence(s.pressure, s.policies, s.epoch, e, now).state.AtLeast(band) <==> AtBand(e, t, band)
    {
      BandIs(e, t, band);
    }
  }

  lemma EvidenceFound(s: Fabric, p: u64, now: u64)
    requires p in s.books.pools && s.books.pools[p].descriptor.policy in s.policies && s.books.pools[p].descriptor.id == p
    ensures var e := s.books.pools[p];
            var t := s.policies[e.descriptor.policy].pressure.thresholds;
            var found := ResolveEvidence(s.pressure, s.policies, s.epoch, e, now);
            if Known(s, p, now) then found == Evidence(Classify(t, e.ownUsage, e.Usable(), e.OvercommitUsed() != 0).state, OK)
            else !found.state.Known() && found.reason == Doubt(s, p)
  {
    hide Classify;
  }

  lemma ValidThresholds(policy: Policy)
    requires policy.Valid()
    ensures policy.pressure.thresholds.Valid()
  {
  }

  // ----- How many units -----

  /** Usable capacity that own usage leaves. */
  ghost function Spare(e: PoolEntry): nat {
    var left := e.descriptor.raw - e.descriptor.protected - e.ownUsage;
    if left > 0 then left else 0
  }

  /** Overcommit the policy still leaves open. */
  ghost function Open(e: PoolEntry, policy: Policy): nat {
    var over := e.ownUsage + e.descriptor.protected - e.descriptor.raw;
    if policy.overcommit.mode.ForbidOvercommit? then 0
    else if over <= 0 then policy.overcommit.limit
    else if over < policy.overcommit.limit then policy.overcommit.limit - over else 0
  }

  /** The nearest ancestor that can lend, and how many units: what it can spare, within what is
      left of the policy's borrowing limit. Without one, or where borrowing is forbidden, none. */
  ghost predicate Lends(pools: Pools, e: PoolEntry, policy: Policy, lender: u64, lent: nat) {
    if policy.borrow.mode.ForbidBorrow? then lender == 0 && lent == 0
    else if lender == 0 then NoLenderAbove(pools, e.descriptor.parent) && lent == 0
    else
      && (exists k: nat :: FirstLender(pools, e.descriptor.parent, lender, k))
      && lender in pools
      && var left := if e.borrowedIn < policy.borrow.limit then policy.borrow.limit - e.borrowedIn else 0;
         lent == Min(Spare(pools[lender]), left)
  }

  ghost predicate Asks(s: Fabric, p: u64, queue: u64) {
    p in s.books.pools && queue in s.queues && s.books.pools[p].descriptor.policy in s.policies
  }

  /** So many units are within what the policy allows at once, and within the queue's cap, which
      is its hard cap or else its demand. */
  ghost predicate WithinCaps(s: Fabric, p: u64, queue: u64, n: nat)
    requires Asks(s, p, queue)
  {
    var e, q := s.books.pools[p], s.queues[queue];
    var policy := s.policies[e.descriptor.policy];
    var held := Bucket(e.queueCommitted, queue) + Bucket(e.queueReserved, queue);
    && (policy.maxSingleRequest != 0 ==> n <= policy.maxSingleRequest)
    && (policy.maxSingleAllocation != 0 ==> n <= policy.maxSingleAllocation)
    && (q.maxCommitted != 0 ==> held + n <= q.maxCommitted)
    && (q.maxCommitted == 0 && q.demand != 0 ==> held + n <= q.demand)
  }

  /** From the High band on, own usage is to stay within the soft limit, a share of usable
      capacity computed with a product capped at the largest 64-bit number. */
  ghost predicate WithinSoftLimit(s: Fabric, p: u64, n: nat, now: u64)
    requires p in s.books.pools && s.books.pools[p].descriptor.policy in s.policies
  {
    var e := s.books.pools[p];
    var policy := s.policies[e.descriptor.policy];
    policy.softLimit != 0 && Known(s, p, now) && Reaches(e, policy.pressure.thresholds.high) ==>
      e.ownUsage + n <= Min((e.descriptor.raw - e.descriptor.protected) * policy.softLimit, MAX_U64) / 10000
  }

  /** The soft limit is the stated share of usable capacity if and only if the product stays below
      the first multiple of 10000 beyond 64 bits: on a larger pool the cap on the product makes
      it a fixed number of units. */
  lemma SoftShareExactIff(usable: u64, share: u32)
    ensures Min(usable * share, MAX_U64) / 10000 == usable * share / 10000 <==> usable * share < 18446744073709560000
  {
    var x := usable * share;
    MulMonotone(0, usable, share);
    assert MAX_U64 / 10000 == 1844674407370955;
    if x > MAX_U64 { FloorDivision(x, 10000, 1844674407370956); }
    assert x >= MAX_U64 ==> x / 10000 >= 1844674407370955;
  }

  /** A pool of the largest size has its soft limit of nine tenths put at less than a five
      hundredth of it. */
  lemma SoftShareFallsShort()
    ensures Min(TWO60 * 9000, MAX_U64) / 10000 * 500 < TWO60
  {
  }

  /** n units are within what the pool has and may borrow, within the caps, and, where it counts,
      within the soft limit. */
  ghost predicate Room(s: Fabric, p: u64, queue: u64, lent: nat, now: u64, soft: bool, n: nat)
    requires Asks(s, p, queue)
  {
    && n <= Spare(s.books.pools[p]) + Open(s.books.pools[p], s.policies[s.books.pools[p].descriptor.policy]) + lent
    && WithinCaps(s, p, queue, n) && (soft ==> WithinSoftLimit(s, p, n, now))
  }

  /** n units may be granted to a request for `units`, when up to `lent` may be borrowed: all of
      them, where the policy allows no less. */
  ghost predicate MayGrant(s: Fabric, p: u64, queue: u64, units: u64, lent: nat, now: u64, soft: bool, n: nat)
    requires Asks(s, p, queue)
  {
    && 0 < n <= units && (!s.policies[s.books.pools[p].descriptor.policy].allowPartial ==> n == units)
    && Room(s, p, queue, lent, now, soft, n)
  }

  // ----- The arithmetic finds the most -----

  lemma PolicyCapIs(policy: Policy, limit: u64, n: nat)
    ensures n <= PolicyCap(policy, limit) <==>
            && n <= limit && (policy.maxSingleRequest != 0 ==> n <= policy.maxSingleRequest)
            && (policy.maxSingleAllocation != 0 ==> n <= policy.maxSingleAllocation)
  {
  }

  lemma QueueCapIs(e: PoolEntry, queue: Queue, limit: u64, n: nat)
    requires n > 0 && Bucket(e.queueCommitted, queue.id) + Bucket(e.queueReserved, queue.id) < TWO64
    ensures var held := Bucket(e.queueCommitted, queue.id) + Bucket(e.queueReserved, queue.id);
            n <= QueueCap(e, queue, limit) <==>
            && n <= limit && (queue.maxCommitted != 0 ==> held + n <= queue.maxCommitted)
            && (queue.maxCommitted == 0 && queue.demand != 0 ==> held + n <= queue.demand)
  {
  }

  lemma SoftCapIs(e: PoolEntry, policy: Policy, state: PressureState, limit: u64, n: nat)
    requires n > 0 && e.descriptor.protected < e.descriptor.raw
    ensures n <= SoftCap(e, policy, state, limit) <==>
            && n <= limit
            && (policy.softLimit != 0 && state.AtLeast(High) ==>
                  e.ownUsage + n <= Min((e.descriptor.raw - e.descriptor.protected) * policy.softLimit, MAX_U64) / 10000)
  {
  }

  lemma BucketsFit(pools: Pools, records: Records, p: u64, q: u64)
    requires Agrees(pools, records) && InRange(pools) && p in pools
    ensures Bucket(pools[p].queueCommitted, q) + Bucket(pools[p].queueReserved, q) < TWO64
  {
    hide Agrees, Bucket;
    QueueBucketsBounded(pools, records, p, q);
    EntryFacts(pools, records, p);
  }

  /** The most that may be granted, whatever the caps say. */
  lemma MaxGrantIs(pools: Pools, p: u64, policy: Policy)
    requires PoolsOk(pools) && Forest(pools) && p in pools && policy.Valid()
    ensures var e, g := pools[p], ComputeGrant(pools, pools[p], policy);
            Lends(pools, e, policy, g.lender, g.borrowable) && g.maxGrant == Spare(e) + Open(e, policy) + g.borrowable
            && g.ownFree == Spare(e)
  {
    hide RootedWithin, NearestLender, FirstLender, NoLenderAbove;
    var e, g := pools[p], ComputeGrant(pools, pools[p], policy);
    assert PoolOk(e, p);
    if e.descriptor.parent != 0 {
      LenderOfPoolIsNearest(pools, p);
    } else {
      NothingAbove(pools);
    }
    if g.lender != 0 {
      LenderOf(pools, p);
      assert PoolOk(pools[g.lender], g.lender);
    }
  }

  lemma NothingAbove(pools: Pools)
    ensures NearestLender(pools, 0, 0) == 0 && NoLenderAbove(pools, 0)
  {
  }

  /** n units may be granted, and no more. */
  ghost predicate MostGrant(s: Fabric, p: u64, queue: u64, units: u64, lent: nat, now: u64, soft: bool, n: nat)
    requires Asks(s, p, queue)
  {
    && MayGrant(s, p, queue, units, lent, now, soft, n)
    && forall m: nat :: MayGrant(s, p, queue, units, lent, now, soft, m) ==> m <= n
  }

  ghost predicate NoGrant(s: Fabric, p: u64, queue: u64, units: u64, lent: nat, now: u64, soft: bool)
    requires Asks(s, p, queue)
  {
    forall m: nat :: !MayGrant(s, p, queue, units, lent, now, soft, m)
  }

  /** A numeric limit stands for all the bounds. */
  ghost predicate Limits(s: Fabric, p: u64, queue: u64, lent: nat, now: u64, soft: bool, most: nat)
    requires Asks(s, p, queue)
  {
    forall n: nat :: n > 0 ==> (n <= most <==> Room(s, p, queue, lent, now, soft, n))
  }

  lemma PartialIsMost(s: Fabric, p: u64, queue: u64, units: u64, lent: nat, now: u64, soft: bool, limit: u64)
    requires Asks(s, p, queue) && Limits(s, p, queue, lent, now, soft, limit)
    ensures var grant := Partial(s.policies[s.books.pools[p].descriptor.policy], units, limit);
            if grant == 0 then NoGrant(s, p, queue, units, lent, now, soft)
            else MostGrant(s, p, queue, units, lent, now, soft, grant)
  {
    hide Room;
    var policy := s.policies[s.books.pools[p].descriptor.policy];
    forall n: nat
      ensures MayGrant(s, p, queue, units, lent, now, soft, n) <==>
              0 < n <= units && (!policy.allowPartial ==> n == units) && n <= limit
    {
    }
  }

  /** The lender the grant arithmetic finds, and what it lends. */
  ghost function Found(s: Fabric, p: u64): Grant
    requires p in s.books.pools && s.books.pools[p].descriptor.policy in s.policies
  {
    ComputeGrant(s.books.pools, s.books.pools[p], s.policies[s.books.pools[p].descriptor.policy])
  }

  lemma FoundIs(s: Fabric, p: u64, queue: u64)
    requires Inv(s) && Asks(s, p, queue)
    ensures var e, g := s.books.pools[p], Found(s, p);
            var policy := s.policies[e.descriptor.policy];
            && Lends(s.books.pools, e, policy, g.lender, g.borrowable) && g.ownFree == Spare(e)
            && g.maxGrant == Spare(e) + Open(e, policy) + g.borrowable
  {
    hide Inv, ComputeGrant, Lends, Spare, Open;
    GrantingFacts(s, p, queue);
    MaxGrantIs(s.books.pools, p, s.policies[s.books.pools[p].descriptor.policy]);
  }

  /** The limit the arithmetic computes, with or without the soft limit. */
  ghost function LimitFor(s: Fabric, p: u64, queue: u64, now: u64, soft: bool): u64
    requires Asks(s, p, queue)
  {
    var e := s.books.pools[p];
    var policy := s.policies[e.descriptor.policy];
    var hard := QueueCap(e, s.queues[queue], PolicyCap(policy, Found(s, p).maxGrant));
    if soft then SoftCap(e, policy, ResolveEvidence(s.pressure, s.policies, s.epoch, e, now).state, hard) else hard
  }

  lemma LimitIs(s: Fabric, p: u64, queue: u64, now: u64, soft: bool, n: nat)
    requires Inv(s) && Asks(s, p, queue) && n > 0
    ensures n <= LimitFor(s, p, queue, now, soft) <==>
            n <= Found(s, p).maxGrant && WithinCaps(s, p, queue, n) && (soft ==> WithinSoftLimit(s, p, n, now))
  {
    hide Inv, ComputeGrant, ResolveEvidence, SoftCap, QueueCap, PolicyCap, Known, Reaches;
    var e, q := s.books.pools[p], s.queues[queue];
    var policy := s.policies[e.descriptor.policy];
    var state := ResolveEvidence(s.pressure, s.policies, s.epoch, e, now).state;
    var most := Found(s, p).maxGrant;
    GrantingFacts(s, p, queue);
    EvidenceIs(s, p, now);
    assert state.AtLeast(High) <==> Known(s, p, now) && AtBand(e, policy.pressure.thresholds, High);
    PolicyCapIs(policy, most, n);
    QueueCapIs(e, q, PolicyCap(policy, most), n);
    SoftCapIs(e, policy, state, QueueCap(e, q, PolicyCap(policy, most)), n);
  }

  lemma LimitIsRoom(s: Fabric, p: u64, queue: u64, now: u64, soft: bool, n: nat)
    requires Inv(s) && Asks(s, p, queue) && n > 0
    ensures n <= LimitFor(s, p, queue, now, soft) <==> Room(s, p, queue, Found(s, p).borrowable, now, soft, n)
  {
    hide Inv, LimitFor, Found, WithinCaps, WithinSoftLimit, Lends, Spare, Open;
    FoundIs(s, p, queue);
    LimitIs(s, p, queue, now, soft, n);
  }

  lemma LimitsFound(s: Fabric, p: u64, queue: u64, now: u64, soft: bool)
    requires Inv(s) && Asks(s, p, queue)
    ensures Limits(s, p, queue, Found(s, p).borrowable, now, soft, LimitFor(s, p, queue, now, soft))
  {
    hide Inv, Found, LimitFor, Room;
    forall n: nat | n > 0
      ensures n <= LimitFor(s, p, queue, now, soft) <==> Room(s, p, queue, Found(s, p).borrowable, now, soft, n)
    {
      LimitIsRoom(s, p, queue, now, soft, n);
    }
  }

  lemma GrantingFacts(s: Fabric, p: u64, queue: u64)
    requires Inv(s) && Asks(s, p, queue)
    ensures var e := s.books.pools[p];
            && PoolsOk(s.books.pools) && Forest(s.books.pools) && PoliciesOk(s.policies)
            && e.descriptor.id == p && e.descriptor.protected < e.descriptor.raw && s.queues[queue].id == queue
            && s.policies[e.descriptor.policy].Valid()
            && Bucket(e.queueCommitted, queue) + Bucket(e.queueReserved, queue) < TWO64
  {
    hide Policy.Valid, Bucket, Agrees, Forest, RecordsOk;
    assert PoolOk(s.books.pools[p], p);
    BucketsFit(s.books.pools, s.books.allocations, p, queue);
  }

  // ----- The decision -----

  /** Nothing is granted from a retired pool or queue, on evidence that is not known where the
      policy insists on it, or at a band the policy refuses at. */
  ghost predicate Barred(s: Fabric, p: u64, queue: u64, now: u64, kind: DecisionKind, status: Code)
    requires Asks(s, p, queue)
  {
    var e := s.books.pools[p];
    var policy := s.policies[e.descriptor.policy];
    if e.descriptor.retired || s.queues[queue].retired then kind == Refused && status == WRONG_STATE
    else if !Known(s, p, now) && policy.pressure.refuseOnUnknown then kind == RevalidateRequired && status == Doubt(s, p)
    else
      && Known(s, p, now) && !policy.refuseAt.Unknown? && AtBand(e, policy.pressure.thresholds, policy.refuseAt)
      && kind == ReduceUsage && status == POLICY_FORBIDS
  }

  ghost predicate IsBarred(s: Fabric, p: u64, queue: u64, now: u64)
    requires Asks(s, p, queue)
  {
    var e := s.books.pools[p];
    var policy := s.policies[e.descriptor.policy];
    || e.descriptor.retired || s.queues[queue].retired
    || (!Known(s, p, now) && policy.pressure.refuseOnUnknown)
    || (Known(s, p, now) && !policy.refuseAt.Unknown? && AtBand(e, policy.pressure.thresholds, policy.refuseAt))
  }

  /** What a request for units comes to: barred, or the most that may be granted, or, if that is
      nothing, a refusal, which at a band the policy reduces at asks for less usage. */
  ghost predicate Decision(s: Fabric, p: u64, queue: u64, units: u64, now: u64, lender: u64, lent: nat, verdict: Verdict)
    requires Asks(s, p, queue)
  {
    var e := s.books.pools[p];
    var policy := s.policies[e.descriptor.policy];
    if IsBarred(s, p, queue, now) then verdict.Deny? && Barred(s, p, queue, now, verdict.kind, verdict.status)
    else
      && Lends(s.books.pools, e, policy, lender, lent)
      && match verdict
         case Give(n) => MostGrant(s, p, queue, units, lent, now, true, n)
         case Deny(kind, status) =>
           && NoGrant(s, p, queue, units, lent, now, true)
           && if Known(s, p, now) && AtBand(e, policy.pressure.thresholds, policy.reduceAt)
              then kind == ReduceUsage && status == POLICY_FORBIDS
              else kind == Refused && status == CAPACITY_EXCEEDED
  }

  /** allocate decides on the most that may be granted, for every request. */
  lemma DecisionIsMost(s: Fabric, q: AllocateRequest, now: u64)
    requires Inv(s) && Asks(s, q.pool, q.queue)
    ensures Decision(s, q.pool, q.queue, q.units, now, Found(s, q.pool).lender, Found(s, q.pool).borrowable, Decide(s, q, now))
  {
    hide Inv, ComputeGrant, ResolveEvidence, SoftCap, QueueCap, PolicyCap, Known, AtBand, Lends, MostGrant, NoGrant, Limits,
      Partial, Doubt;
    var e := s.books.pools[q.pool];
    var policy := s.policies[e.descriptor.policy];
    var g := ComputeGrant(s.books.pools, e, policy);
    var state := ResolveEvidence(s.pressure, s.policies, s.epoch, e, now).state;
    GrantingFacts(s, q.pool, q.queue);
    EvidenceIs(s, q.pool, now);
    MaxGrantIs(s.books.pools, q.pool, policy);
    LimitsFound(s, q.pool, q.queue, now, true);
    PartialIsMost(s, q.pool, q.queue, q.units, g.borrowable, now, true, LimitFor(s, q.pool, q.queue, now, true));
    assert state.AtLeast(policy.refuseAt) ==> Known(s, q.pool, now);
    assert Known(s, q.pool, now) ==> (state.AtLeast(policy.refuseAt) <==> AtBand(e, policy.pressure.thresholds, policy.refuseAt));
    assert Known(s, q.pool, now) ==> (state.AtLeast(policy.reduceAt) <==> AtBand(e, policy.pressure.thresholds, policy.reduceAt));
  }

  // ----- Evaluate -----

  /** The request names a queue of a pool with a policy, for no more than the largest number of
      units. */
  ghost predicate Evaluable(s: Fabric, p: u64, queue: u64, units: u64) {
    units <= TWO60 && p != 0 && queue != 0 && Asks(s, p, queue) && s.queues[queue].pool == p
  }

  ghost predicate EvaluateObjection(s: Fabric, p: u64, queue: u64, units: u64, code: Code) {
    || (code == OVERFLOW && units > TWO60)
    || (code == INVALID_ARGUMENT && (p == 0 || queue == 0 || (queue in s.queues && s.queues[queue].pool != p)))
    || (code == UNKNOWN_POOL && p !in s.books.pools) || (code == UNKNOWN_QUEUE && queue !in s.queues)
    || (code == UNKNOWN_POLICY && p in s.books.pools && s.books.pools[p].descriptor.policy !in s.policies)
  }

  /** What evaluate reports of a request that makes sense: as a decision, but without the soft
      limit. */
  ghost predicate Report(s: Fabric, p: u64, queue: u64, units: u64, now: u64, lent: nat, outcome: Outcome)
    requires Asks(s, p, queue)
  {
    if s.books.pools[p].descriptor.retired || s.queues[queue].retired then outcome == Decided(Refused, WRONG_STATE, 0, 0)
    else if units == 0 then outcome == Decided(NoOp, OK, 0, 0)
    else if IsBarred(s, p, queue, now) then
      && outcome.Decided? && outcome == Decided(outcome.kind, outcome.status, 0, 0)
      && Barred(s, p, queue, now, outcome.kind, outcome.status)
    else
      || (outcome == Decided(Refused, CAPACITY_EXCEEDED, 0, 0) && NoGrant(s, p, queue, units, lent, now, false))
      || (outcome.Decided? && MostGrant(s, p, queue, units, lent, now, false, outcome.granted)
          && outcome == Decided(if outcome.granted == units then Granted else GrantedPartial, OK, outcome.granted, 0))
  }

  lemma EvaluateIsMost(s: Fabric, p: u64, queue: u64, units: u64, now: u64)
    requires Inv(s) && Asks(s, p, queue)
    ensures var e := s.books.pools[p];
            var grant := EvaluateUnits(s.books.pools, e, s.queues[queue], s.policies[e.descriptor.policy], units);
            if grant == 0 then NoGrant(s, p, queue, units, Found(s, p).borrowable, now, false)
            else MostGrant(s, p, queue, units, Found(s, p).borrowable, now, false, grant)
  {
    hide Inv, ComputeGrant, QueueCap, PolicyCap, SoftCap, ResolveEvidence, Partial, NoGrant, MostGrant, Limits;
    LimitsFound(s, p, queue, now, false);
    PartialIsMost(s, p, queue, units, Found(s, p).borrowable, now, false, LimitFor(s, p, queue, now, false));
  }

  /** evaluate, for every request: the most that may be given, or why nothing is. */
  lemma EvaluateAnswers(s: Fabric, p: u64, queue: u64, units: u64, expectedEpoch: u64, now: u64)
    requires Inv(s)
    ensures var outcome := Evaluate(s, p, queue, units, expectedEpoch, now);
            if !Evaluable(s, p, queue, units) then outcome.Failed? && EvaluateObjection(s, p, queue, units, outcome.code)
            else if !Asserted(expectedEpoch, s.epoch) then outcome == Decided(RevalidateRequired, STALE_EPOCH, 0, 0)
            else
              && Lends(s.books.pools, s.books.pools[p], s.policies[s.books.pools[p].descriptor.policy], Found(s, p).lender,
                       Found(s, p).borrowable)
              && Report(s, p, queue, units, now, Found(s, p).borrowable, outcome)
  {
    hide BooksOk, ResolveEvidence, EvaluateUnits, ComputeGrant, Known, AtBand, Lends, MostGrant, NoGrant, Doubt;
    if p in s.books.pools { PoolUnderId(s, p); }
    if Evaluable(s, p, queue, units) {
      var e := s.books.pools[p];
      var policy := s.policies[e.descriptor.policy];
      var state := ResolveEvidence(s.pressure, s.policies, s.epoch, e, now).state;
      GrantingFacts(s, p, queue);
      EvidenceIs(s, p, now);
      MaxGrantIs(s.books.pools, p, policy);
      EvaluateIsMost(s, p, queue, units, now);
      assert state.AtLeast(policy.refuseAt) ==> Known(s, p, now);
      assert Known(s, p, now) ==> (state.AtLeast(policy.refuseAt) <==> AtBand(e, policy.pressure.thresholds, policy.refuseAt));
    }
  }

  lemma PoolUnderId(s: Fabric, p: u64)
    requires Inv(s) && p in s.books.pools
    ensures s.books.pools[p].descriptor.id == p
  {
    assert PoolOk(s.books.pools[p], p);
  }

  // ----- Allocate -----

  /** The lineage of a new record: its own, or that of the parent it names. */
  ghost predicate LineageOf(s: Fabric, q: AllocateRequest, lineage: Lineage) {
    if q.parent == 0 then lineage == Lineage(s.books.nextAllocation, 0, 0, q.chain)
    else
      && q.parent in s.books.allocations
      && var parent := s.books.allocations[q.parent];
         && lineage.origin == (if parent.lineage.origin != 0 then parent.lineage.origin else q.parent)
         && lineage.parent == q.parent && lineage.depth == parent.lineage.depth + 1 <= 32 && lineage.chain == q.chain
  }

  /** The record of a grant of n units: what the request, its queue and its pool say, bound to the
      generations and epoch in force, borrowing only what own spare units do not cover. */
  ghost predicate RecordGranted(s: Fabric, q: AllocateRequest, n: u64, lender: u64, lent: nat, now: u64, r: Allocation)
    requires Asks(s, q.pool, q.queue)
  {
    var e, queue := s.books.pools[q.pool], s.queues[q.queue];
    var borrow := if n <= Spare(e) then 0 else Min(n - Spare(e), lent);
    && r.id == s.books.nextAllocation && r.pool == q.pool && r.queue == q.queue
    && r.tenant == queue.tenant && r.trafficClass == queue.trafficClass && r.units == n
    && r.state == (if q.commitNow then Committed else Reserved)
    && r.reclaimClass == q.reclaimClass && r.priority == q.priority && LineageOf(s, q, r.lineage)
    && r.bound == Bound(e.descriptor.generation, queue.generation, s.policies[e.descriptor.policy].generation,
                        e.capacityGeneration,
                        if e.descriptor.backend in s.backends then s.backends[e.descriptor.backend] else 0, s.epoch, s.boot)
    && r.attempt == q.attempt && r.provenance == q.provenance
    && r.borrow == borrow && r.lender == (if borrow != 0 then lender else 0)
    && r.createdAt == now && r.lastTouched == now && r.revision == 1
    && r.expiresAt == (if q.ttl != 0 then now + q.ttl else 0)
  }

  /** Why a grant that was decided on is not stored. */
  ghost predicate Unstorable(s: Fabric, q: AllocateRequest, now: u64, code: Code)
    requires Asks(s, q.pool, q.queue)
  {
    if s.books.nextAllocation == MAX_U64 || (q.ttl != 0 && now + q.ttl > MAX_U64) then code == OVERFLOW
    else if q.parent != 0 && q.parent !in s.books.allocations then code == UNKNOWN_ALLOCATION
    else if q.parent != 0 && s.books.allocations[q.parent].lineage.depth >= 32 then code == EXHAUSTED
    else Overdrawn(s, q.pool) && code == INVARIANT_VIOLATION
  }

  ghost predicate Storable(s: Fabric, q: AllocateRequest, now: u64)
    requires Asks(s, q.pool, q.queue)
  {
    && s.books.nextAllocation != MAX_U64 && (q.ttl != 0 ==> now + q.ttl <= MAX_U64)
    && (q.parent != 0 ==> q.parent in s.books.allocations && s.books.allocations[q.parent].lineage.depth < 32)
    && !Overdrawn(s, q.pool)
  }

  lemma DraftIs(s: Fabric, q: AllocateRequest, n: u64, now: u64)
    requires Inv(s) && Asks(s, q.pool, q.queue) && s.queues[q.queue].pool == q.pool
    ensures var draft := DraftRecord(s, q, n, now);
            && (draft.Drafted? ==>
                  && RecordGranted(s, q, n, Found(s, q.pool).lender, Found(s, q.pool).borrowable, now, draft.record)
                  && (Storable(s, q, now) <==> !Overdrawn(s, q.pool)))
            && (draft.Rejected? ==> !Storable(s, q, now) && Unstorable(s, q, now, draft.code))
  {
    hide Inv, ComputeGrant, Lends, Spare, Open, Overdrawn;
    GrantingFacts(s, q.pool, q.queue);
    FoundIs(s, q.pool, q.queue);
    RecordsNamed(s);
    AddOverflowIsExact(s.books.nextAllocation, 1);
    AddOverflowIsExact(now, q.ttl);
  }

  lemma RecordsNamed(s: Fabric)
    requires Inv(s)
    ensures forall id :: id in s.books.allocations ==> s.books.allocations[id].id == id
  {
    hide PoolsOk, Agrees, InRange, Indexed, Forest;
  }

  /** The pool of a drafted grant closes exactly if it was within its allowance before. */
  lemma ClosesUnlessOverdrawn(s: Fabric, q: AllocateRequest, n: u64, now: u64)
    requires Inv(s) && Grantable(s, q, n) && DraftRecord(s, q, n, now).Drafted?
    ensures PoolCloses(s.policies, Charged(s.books.pools[q.pool], DraftRecord(s, q, n, now).record)) <==> !Overdrawn(s, q.pool)
  {
    hide Inv, DraftRecord, Charged, Closes, AccountingOf, ComputeGrant, Grantable, Policy.Valid;
    GrantableAsks(s, q, n);
    var e, r := s.books.pools[q.pool], DraftRecord(s, q, n, now).record;
    var policy := s.policies[e.descriptor.policy];
    GrantingFacts(s, q.pool, q.queue);
    DraftedParts(s, q, n, now);
    ChargedConsistent(e, r);
    ClosesIffWithinAllowance(Charged(e, r), policy);
    UsageGranted(s, q, n, now);
  }

  lemma GrantableAsks(s: Fabric, q: AllocateRequest, n: u64)
    requires Grantable(s, q, n)
    ensures Asks(s, q.pool, q.queue) && 0 < n <= q.units
    ensures n <= Found(s, q.pool).maxGrant && s.queues[q.queue].pool == s.books.pools[q.pool].descriptor.id
  {
    hide ComputeGrant, QueueHeld;
  }

  lemma UsageGranted(s: Fabric, q: AllocateRequest, n: u64, now: u64)
    requires Inv(s) && Grantable(s, q, n) && DraftRecord(s, q, n, now).Drafted?
    ensures var e, r := s.books.pools[q.pool], DraftRecord(s, q, n, now).record;
            var allowed := e.Usable() + s.policies[e.descriptor.policy].Allowance();
            r.borrow <= r.units && (e.ownUsage + r.units - r.borrow <= allowed <==> e.ownUsage <= allowed)
  {
    hide Inv, ComputeGrant, Grantable;
    GrantableAsks(s, q, n);
    GrantingFacts(s, q.pool, q.queue);
    GrantBounds(s.books.pools, q.pool, s.policies[s.books.pools[q.pool].descriptor.policy], n);
  }

  /** One record was stored, exactly as described, and reported. */
  ghost predicate Awards(s: Fabric, s': Fabric, q: AllocateRequest, n: u64, lender: u64, lent: nat, outcome: Outcome, now: u64)
    requires Asks(s, q.pool, q.queue)
  {
    && outcome == Decided(if n == q.units then Granted else GrantedPartial, OK, n, s.books.nextAllocation)
    && GrantsOne(s, s', q, outcome) && s.books.nextAllocation in s'.books.allocations
    && RecordGranted(s, q, n, lender, lent, now, s'.books.allocations[s.books.nextAllocation])
    && Aftermath(s, s', AllocateAttempt, q.attempt, q.digest, outcome, now)
  }

  lemma GrantOutcome(s: Fabric, q: AllocateRequest, n: u64, now: u64)
    requires Inv(s) && Asks(s, q.pool, q.queue) && Grantable(s, q, n)
    ensures var (s', outcome) := GrantAndStore(s, q, n, now);
            if Storable(s, q, now) then Awards(s, s', q, n, Found(s, q.pool).lender, Found(s, q.pool).borrowable, outcome, now)
            else s' == s && outcome.Failed? && Unstorable(s, q, now, outcome.code)
  {
    hide Inv, GrantAndStore, DraftRecord, ComputeGrant, Found, Overdrawn, GrantsOne, Entered, Grantable, RecordGranted, Charged,
      PoolCloses, Storable, Unstorable, Aftermath;
    GrantableAsks(s, q, n);
    PoolUnderId(s, q.pool);
    DraftIs(s, q, n, now);
    GrantAndStoreStep(s, q, n, now);
    GrantMeans(s, q, n, now);
    var draft := DraftRecord(s, q, n, now);
    if draft.Drafted? {
      ClosesUnlessOverdrawn(s, q, n, now);
      GrantRefusal(s, q, n, now);
      if Overdrawn(s, q.pool) { OverdrawnUnstorable(s, q, n, now); }
      if GrantAndStore(s, q, n, now).1.Decided? {
        GrantedKind(s, q, n, now);
        GrantAftermath(s, q, n, now);
        EnteredUnder(s, GrantAndStore(s, q, n, now).0, draft.record);
        DraftMeans(s, q, n, now);
      }
    } else {
      RejectedOutcome(s, q, n, now);
    }
  }

  lemma GrantAftermath(s: Fabric, q: AllocateRequest, n: u64, now: u64)
    requires Asks(s, q.pool, q.queue) && GrantAndStore(s, q, n, now).1.Decided?
    ensures Aftermath(s, GrantAndStore(s, q, n, now).0, AllocateAttempt, q.attempt, q.digest, GrantAndStore(s, q, n, now).1, now)
  {
    hide DraftRecord, StoreRecord, Closes, PoolCloses, PlannedEntry, Record;
  }

  lemma OverdrawnUnstorable(s: Fabric, q: AllocateRequest, n: u64, now: u64)
    requires Asks(s, q.pool, q.queue) && DraftRecord(s, q, n, now).Drafted? && Overdrawn(s, q.pool)
    ensures Unstorable(s, q, now, INVARIANT_VIOLATION)
  {
    hide ComputeGrant, Overdrawn;
    AddOverflowIsExact(s.books.nextAllocation, 1);
    AddOverflowIsExact(now, q.ttl);
  }

  lemma RejectedOutcome(s: Fabric, q: AllocateRequest, n: u64, now: u64)
    requires Asks(s, q.pool, q.queue) && DraftRecord(s, q, n, now).Rejected?
    ensures GrantAndStore(s, q, n, now) == (s, Failed(DraftRecord(s, q, n, now).code))
  {
    hide DraftRecord, StoreRecord, PoolCloses, PlannedEntry, Closes;
  }

  lemma GrantRefusal(s: Fabric, q: AllocateRequest, n: u64, now: u64)
    requires Inv(s) && Grantable(s, q, n) && DraftRecord(s, q, n, now).Drafted?
    requires q.pool in s.books.pools
    ensures var r := DraftRecord(s, q, n, now).record;
            var (s', outcome) := GrantAndStore(s, q, n, now);
            && (outcome.Decided? <==> PoolCloses(s.policies, Charged(s.books.pools[q.pool], r)))
            && (outcome.Failed? ==> s' == s && outcome.code == INVARIANT_VIOLATION)
  {
    hide BooksOk, GrantAndStore, DraftRecord, ComputeGrant, PoolCloses, StoreRecord, Charged, Grantable;
    GrantableAsks(s, q, n);
    var r := DraftRecord(s, q, n, now).record;
    DraftIsAffordable(s, q, n, now);
    InvParts(s);
    StoreEffect(s.books, r);
    GrantAndStoreShape(s, q, n, now, r);
  }

  /** The request makes sense, and the fabric has room for another record. */
  ghost predicate Wellformed(s: Fabric, q: AllocateRequest) {
    && !Closed(s) && q.attempt != 0 && 0 < q.units <= TWO60 && |s.books.allocations| < 0x40_0000
    && (q.attempt in s.attempts.records ==> s.attempts.records[q.attempt].digest == q.digest)
    && q.pool != 0 && q.queue != 0 && Asks(s, q.pool, q.queue)
  }

  ghost predicate AllocateObjection(s: Fabric, q: AllocateRequest, code: Code) {
    || (code == SHUTTING_DOWN && Closed(s))
    || (code == INVALID_ARGUMENT && (q.attempt == 0 || q.units == 0 || q.pool == 0 || q.queue == 0))
    || (code == OVERFLOW && q.units > TWO60) || (code == EXHAUSTED && |s.books.allocations| >= 0x40_0000)
    || (code == ATTEMPT_CONFLICT && q.attempt in s.attempts.records && s.attempts.records[q.attempt].digest != q.digest)
    || (code == UNKNOWN_POOL && q.pool !in s.books.pools) || (code == UNKNOWN_QUEUE && q.queue !in s.queues)
    || (code == UNKNOWN_POLICY && q.pool in s.books.pools && s.books.pools[q.pool].descriptor.policy !in s.policies)
  }

  /** Every generation and the epoch that the request asserts is the present one. */
  ghost predicate AssertionsHold(s: Fabric, q: AllocateRequest)
    requires Asks(s, q.pool, q.queue)
  {
    var e := s.books.pools[q.pool];
    && Asserted(q.expectedEpoch, s.epoch) && Asserted(q.expectedPool, e.descriptor.generation)
    && Asserted(q.expectedPolicy, s.policies[e.descriptor.policy].generation)
    && Asserted(q.expectedCapacity, e.capacityGeneration) && Asserted(q.expectedQueue, s.queues[q.queue].generation)
  }

  /** What allocate answers, in full. */
  ghost predicate AllocateAnswer(s: Fabric, s': Fabric, q: AllocateRequest, lender: u64, lent: nat, outcome: Outcome, now: u64) {
    if !Wellformed(s, q) then s' == s && outcome.Failed? && AllocateObjection(s, q, outcome.code)
    else if q.attempt in s.attempts.records then
      var seen := s.attempts.records[q.attempt];
      s' == s && outcome == Decided(IdempotentReplay, seen.outcome, seen.granted, seen.allocation)
    else if !Asserted(q.expectedEpoch, s.epoch) then s' == s && outcome == Failed(STALE_EPOCH)
    else if !AssertionsHold(s, q) then s' == s && outcome == Failed(STALE_GENERATION)
    else if s.queues[q.queue].pool != q.pool then s' == s && outcome == Failed(INVALID_ARGUMENT)
    else DecidedAnswer(s, s', q, lender, lent, outcome, now)
  }

  /** The request was decided on: denied, leaving tables and books alone, or the most that may be
      granted is stored, if it can be. */
  ghost predicate DecidedAnswer(s: Fabric, s': Fabric, q: AllocateRequest, lender: u64, lent: nat, outcome: Outcome, now: u64)
    requires Asks(s, q.pool, q.queue)
  {
    || (exists kind, status :: Decision(s, q.pool, q.queue, q.units, now, lender, lent, Deny(kind, status))
                               && outcome == Decided(kind, status, 0, 0) && s'.books == s.books
                               && Aftermath(s, s', AllocateAttempt, q.attempt, q.digest, outcome, now))
    || (exists n: u64 :: Decision(s, q.pool, q.queue, q.units, now, lender, lent, Give(n))
                    && (if Storable(s, q, now) then Awards(s, s', q, n, lender, lent, outcome, now)
                        else s' == s && outcome.Failed? && Unstorable(s, q, now, outcome.code)))
  }

  lemma AllocateAdmitted(s: Fabric, q: AllocateRequest)
    ensures AllocateAdmission(s, q) == OK <==> Wellformed(s, q)
    ensures AllocateAdmission(s, q) != OK ==> AllocateObjection(s, q, AllocateAdmission(s, q))
  {
  }

  lemma BindingsHold(s: Fabric, q: AllocateRequest)
    requires PoolsOk(s.books.pools) && Asks(s, q.pool, q.queue)
    ensures AllocateBindings(s, q)
         == (if !Asserted(q.expectedEpoch, s.epoch) then STALE_EPOCH
             else if !AssertionsHold(s, q) then STALE_GENERATION
             else if s.queues[q.queue].pool != q.pool then INVALID_ARGUMENT else OK)
  {
    assert PoolOk(s.books.pools[q.pool], q.pool);
  }

  lemma DecidedAnswers(s: Fabric, q: AllocateRequest, now: u64)
    requires Inv(s) && AllocateAdmission(s, q) == OK && AllocateBindings(s, q) == OK && q.attempt !in s.attempts.records
    requires Asks(s, q.pool, q.queue)
    ensures DecidedAnswer(s, Allocate(s, q, now).0, q, Found(s, q.pool).lender, Found(s, q.pool).borrowable,
                          Allocate(s, q, now).1, now)
  {
    hide Inv, GrantAndStore, Decide, AllocateAdmission, AllocateBindings, Record, Found, Decision, Awards, Storable, Unstorable,
      Grantable;
    DecisionIsMost(s, q, now);
    var verdict := Decide(s, q, now);
    if verdict.Give? {
      DecisionIsSound(s, q, now);
      GrantOutcome(s, q, verdict.units, now);
    } else {
      assert Decision(s, q.pool, q.queue, q.units, now, Found(s, q.pool).lender, Found(s, q.pool).borrowable,
                      Deny(verdict.kind, verdict.status));
    }
  }

  /** allocate, for every request. */
  lemma AllocateAnswers(s: Fabric, q: AllocateRequest, now: u64)
    requires Inv(s)
    ensures var (s', outcome) := Allocate(s, q, now);
            exists lender, lent :: AllocateAnswer(s, s', q, lender, lent, outcome, now)
  {
    hide Inv, GrantAndStore, Decide, AllocateAdmission, AllocateBindings, Record, Found, DecidedAnswer, AssertionsHold,
      Wellformed, AllocateObjection;
    var (s', outcome) := Allocate(s, q, now);
    AllocateAdmitted(s, q);
    if Wellformed(s, q) {
      WellformedAsks(s, q);
      BindingsHold(s, q);
      var lender, lent := Found(s, q.pool).lender, Found(s, q.pool).borrowable;
      if q.attempt !in s.attempts.records && AllocateBindings(s, q) == OK { DecidedAnswers(s, q, now); }
      assert AllocateAnswer(s, s', q, lender, lent, outcome, now);
    } else {
      assert AllocateAnswer(s, s', q, 0, 0, outcome, now);
    }
  }

  lemma WellformedAsks(s: Fabric, q: AllocateRequest)
    requires Inv(s) && Wellformed(s, q)
    ensures Asks(s, q.pool, q.queue) && PoolsOk(s.books.pools)
    ensures q.attempt in s.attempts.records ==> s.attempts.records[q.attempt].digest == q.digest
  {
    hide RecordsOk, Agrees, InRange, Indexed, Forest, PoolOk;
  }

  // ----- Observing pressure -----

  /** The observation as it is stored: with an id, the session's boot, and, where the request left
      them open, the present tick and the lifetime the pool's policy gives. */
  ghost function Recorded(s: Fabric, o: PressureSnapshot, id: u64, now: u64): PressureSnapshot
    requires o.pool in s.books.pools && s.books.pools[o.pool].descriptor.policy in s.policies
  {
    PressureSnapshot(id, o.pool, o.poolGeneration, o.epoch, s.boot, if o.observedAt != 0 then o.observedAt else now,
                     if o.ttl != 0 then o.ttl else s.policies[s.books.pools[o.pool].descriptor.policy].pressure.evidenceTtl,
                     o.demand, o.committed, o.reclaimable, o.provenance, o.assertCommitted, o.digest)
  }

  ghost predicate Observable(s: Fabric, o: PressureSnapshot, id: u64, now: u64) {
    && !Closed(s) && o.pool != 0 && o.pool in s.books.pools && id != MAX_U64
    && o.epoch == s.epoch && o.poolGeneration == s.books.pools[o.pool].descriptor.generation
    && o.observedAt <= now && o.demand <= TWO60 && o.committed <= TWO61 && o.reclaimable <= TWO60
  }

  ghost predicate EvidenceObjection(s: Fabric, o: PressureSnapshot, id: u64, now: u64, code: Code) {
    || (code == SHUTTING_DOWN && Closed(s)) || (code == INVALID_ARGUMENT && (o.pool == 0 || o.observedAt > now))
    || (code == UNKNOWN_POOL && o.pool !in s.books.pools) || (code == STALE_EPOCH && o.epoch != s.epoch)
    || (code == STALE_GENERATION && o.pool in s.books.pools && o.poolGeneration != s.books.pools[o.pool].descriptor.generation)
    || (code == OVERFLOW && (id == MAX_U64 || o.demand > TWO60 || o.committed > TWO61 || o.reclaimable > TWO60))
  }

  /** From the observation on, the pool's evidence is known exactly while the observation is no
      older than its lifetime and true to the usage it asserts. */
  ghost predicate KnownWhileFresh(s: Fabric, o: PressureSnapshot)
    requires o.pool in s.books.pools
  {
    forall t: u64 :: Known(s, o.pool, t) <==>
      && 0 < o.ttl && o.observedAt <= t <= o.observedAt + o.ttl
      && (o.assertCommitted ==> o.committed == s.books.pools[o.pool].ownUsage)
  }

  /** What observe_pressure answers. */
  ghost predicate ObserveAnswer(s: Fabric, s': Fabric, request: PressureSnapshot, code: Code, now: u64) {
    var id := TakenId(request.id, s.counters.nextSnapshot);
    && (code == OK <==> Observable(s, request, id, now))
    && (code == OK ==>
          && request.pool in s.books.pools && request.pool in s'.books.pools
          && s.books.pools[request.pool].descriptor.policy in s.policies
          && s'.pressure == s.pressure[request.pool := Recorded(s, request, id, now)]
          && SameBooks(s.books, s'.books) && s' == s.(pressure := s'.pressure, books := s'.books,
                                                           counters := s.counters.(nextSnapshot := s'.counters.nextSnapshot))
          && s'.counters.nextSnapshot == NextAfter(id, s.counters.nextSnapshot)
          && KnownWhileFresh(s', Recorded(s, request, id, now)))
    && (code != OK ==> Unmoved(s, s') && EvidenceObjection(s, request, id, now, code))
  }

  /** observe_pressure, for every request: an observation of the present session and generation is
      stored for its pool, and nothing else changes; any other leaves the evidence as it was. */
  lemma ObserveAnswers(s: Fabric, request: PressureSnapshot, now: u64)
    requires Inv(s)
    ensures ObserveAnswer(s, ObservePressure(s, request, now).0, request, ObservePressure(s, request, now).1, now)
  {
    hide Inv, Observed, EvidenceGuard, EvidenceAdmission, Observable, EvidenceObjection, KnownWhileFresh;
    IdTaken(request.id, s.counters.nextSnapshot);
    var id := TakenId(request.id, s.counters.nextSnapshot);
    ObserveGuarded(s, request, id, now);
    if Observable(s, request, id, now) { RecordedInForce(s, ObservePressure(s, request, now).0, request, id, now); }
  }

  lemma ObserveGuarded(s: Fabric, request: PressureSnapshot, id: u64, now: u64)
    requires Inv(s) && id == TakenId(request.id, s.counters.nextSnapshot)
    ensures var admission := EvidenceAdmission(s, request);
            && (admission != OK ==> EvidenceObjection(s, request, id, now, admission) && !Observable(s, request, id, now))
            && (admission == OK ==>
                  && request.pool in s.books.pools && s.books.pools[request.pool].descriptor.policy in s.policies
                  && Observed(s, request, now) == Recorded(s, request, id, now)
                  && Advanced(id, s.counters.nextSnapshot) == NextAfter(id, s.counters.nextSnapshot)
                  && var guard := EvidenceGuard(s, Observed(s, request, now), now);
                     && (guard == OK <==> Observable(s, request, id, now))
                     && (guard != OK ==> EvidenceObjection(s, request, id, now, guard)))
  {
    hide BooksOk;
    IdTaken(request.id, s.counters.nextSnapshot);
  }

  lemma RecordedInForce(s: Fabric, s': Fabric, request: PressureSnapshot, id: u64, now: u64)
    requires Observable(s, request, id, now) && s.books.pools[request.pool].descriptor.policy in s.policies
    requires s'.pressure == s.pressure[request.pool := Recorded(s, request, id, now)]
    requires s'.books.pools == s.books.pools && s'.epoch == s.epoch
    ensures KnownWhileFresh(s', Recorded(s, request, id, now))
  {
  }
}
