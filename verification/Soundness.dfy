/** No violation is reachable as long as no overcommit allowance shrinks and every resize
    leaves room for what its index does not list; and what goes wrong otherwise, exactly when. */
module Soundness {
  import opened Arithmetic
  import opened Model
  import opened Attempts
  import opened Grants
  import opened Ledger
  import opened Topology
  import opened Reclaim
  import opened Aggregates
  import opened Invariant
  import opened Transitions
  import opened Lending
  import opened AllocationSteps
  import opened TopologySteps
  import opened Steps
  import opened Runs
  import opened Ids
  import opened Index
  import opened Limits
  import Order

  predicate Violation(code: Code) { code == INVARIANT_VIOLATION || code == ACCOUNTING_VIOLATION }

  predicate Violates(outcome: Outcome) { outcome.Failed? && Violation(outcome.code) }

  ghost predicate Sound(s: Fabric) { Inv(s) && Limited(s.books.pools, s.policies) }

  // ----- Allocate -----

  /** A decided grant to a compliant pool leaves it compliant, so the planned identity
      holds. */
  lemma GrantCloses(s: Fabric, q: AllocateRequest, grant: u64, now: u64)
    requires Inv(s) && Grantable(s, q, grant) && Compliant(s.books.pools[q.pool], s.policies)
    requires DraftRecord(s, q, grant, now).Drafted?
    ensures PoolCloses(s.policies, Charged(s.books.pools[q.pool], DraftRecord(s, q, grant, now).record))
  {
    hide DraftRecord, Charged, Closes, AccountingOf, BooksOk, ComputeGrant, QueueHeld, Affordable;
    var e, r := s.books.pools[q.pool], DraftRecord(s, q, grant, now).record;
    var policy := s.policies[e.descriptor.policy];
    DraftedParts(s, q, grant, now);
    DraftCompliant(s, q, grant, now);
    ChargedConsistent(e, r);
    ClosesIffWithinAllowance(Charged(e, r), policy);
  }

  lemma DraftedParts(s: Fabric, q: AllocateRequest, grant: u64, now: u64)
    requires Inv(s) && Grantable(s, q, grant) && DraftRecord(s, q, grant, now).Drafted?
    ensures var e, r := s.books.pools[q.pool], DraftRecord(s, q, grant, now).record;
            && EntryConsistent(e) && PoolOk(e, q.pool)
            && r.Holds() && r.borrow <= r.units <= MAX_UNITS
            && e.ownUsage + r.units - r.borrow <= TWO61 && e.borrowedIn + r.borrow <= TWO60
  {
    hide DraftRecord, RecordsOk, Indexed, Forest, EntryConsistent, ComputeGrant, QueueHeld;
    DraftIsAffordable(s, q, grant, now);
    EntryFacts(s.books.pools, s.books.allocations, q.pool);
    assert PoolOk(s.books.pools[q.pool], q.pool);
  }

  /** Charging a grant leaves the owner's totals consistent, wherever its record is stored. */
  lemma ChargedConsistent(e: PoolEntry, r: Allocation)
    requires EntryConsistent(e) && r.Holds() && r.borrow <= r.units <= MAX_UNITS
    requires e.ownUsage + r.units - r.borrow <= TWO61 && e.borrowedIn + r.borrow <= TWO60
    ensures EntryConsistent(Charged(e, r)) && Charged(e, r).descriptor == e.descriptor
    ensures Charged(e, r).ownUsage == e.ownUsage + r.units - r.borrow
  {
    hide AdjustBucket;
  }

  lemma DraftCompliant(s: Fabric, q: AllocateRequest, grant: u64, now: u64)
    requires Inv(s) && Grantable(s, q, grant) && Compliant(s.books.pools[q.pool], s.policies)
    requires DraftRecord(s, q, grant, now).Drafted?
    ensures var e, r := s.books.pools[q.pool], DraftRecord(s, q, grant, now).record;
            && r.borrow <= r.units && e.ownUsage + r.units < TWO64
            && e.ownUsage + r.units - r.borrow <= e.Usable() + s.policies[e.descriptor.policy].Allowance()
  {
    hide Agrees, Forest, RecordsOk, Indexed, NearestLender;
    var e := s.books.pools[q.pool];
    GrantBounds(s.books.pools, q.pool, s.policies[e.descriptor.policy], grant);
    assert PoolOk(e, q.pool);
  }

  lemma RejectionCode(s: Fabric, q: AllocateRequest, grant: u64, now: u64)
    requires q.pool in s.books.pools && q.queue in s.queues && s.books.pools[q.pool].descriptor.policy in s.policies
    requires DraftRecord(s, q, grant, now).Rejected?
    ensures !Violates(GrantAndStore(s, q, grant, now).1)
  {
    hide StoreRecord, PoolCloses, ComputeGrant;
  }

  lemma GrantNeverViolates(s: Fabric, q: AllocateRequest, grant: u64, now: u64)
    requires Inv(s) && Grantable(s, q, grant) && Compliant(s.books.pools[q.pool], s.policies)
    ensures !Violates(GrantAndStore(s, q, grant, now).1)
  {
    hide Inv, PoolCloses, StoreRecord, DraftRecord, Charged, GrantAndStore;
    if DraftRecord(s, q, grant, now).Drafted? {
      var r := DraftRecord(s, q, grant, now).record;
      DraftIsAffordable(s, q, grant, now);
      InvParts(s);
      StoreEffect(s.books, r);
      GrantCloses(s, q, grant, now);
      GrantAndStoreShape(s, q, grant, now, r);
    } else {
      RejectionCode(s, q, grant, now);
    }
  }

  lemma InvParts(s: Fabric)
    requires Inv(s)
    ensures Agrees(s.books.pools, s.books.allocations) && InRange(s.books.pools) && PoolsOk(s.books.pools)
  {
  }

  /** Allocate never meets the planned-identity failure nor any error branch of
      apply_commit_units, for the owner or the lender. */
  lemma AllocateNeverViolates(s: Fabric, q: AllocateRequest, now: u64)
    requires Inv(s) && Limited(s.books.pools, s.policies)
    ensures !Violates(Allocate(s, q, now).1) && Allocate(s, q, now).0.shuttingDown == s.shuttingDown
  {
    hide Inv, GrantAndStore, Decide;
    AllocateStep(s, q, now);
    if AllocateAdmission(s, q) == OK && !Find(s.attempts, q.attempt, q.digest).Replay?
       && AllocateBindings(s, q) == OK && Decide(s, q, now).Give? {
      DecisionIsSound(s, q, now);
      GrantNeverViolates(s, q, Decide(s, q, now).units, now);
    }
  }

  // ----- Commit and release -----

  lemma SettlesOk(s: Fabric, p: u64, res: (Fabric, Outcome), allocation: u64, units: u64)
    requires Inv(s) && p in s.books.pools && Limited(s.books.pools, s.policies) && Settled(s, p, res, allocation, units)
    ensures !Violates(res.1) && res.0.shuttingDown == s.shuttingDown
  {
    hide BooksOk;
    assert Compliant(s.books.pools[p], s.policies);
  }

  lemma CommitNeverViolates(s: Fabric, q: CommitRequest, now: u64)
    requires Inv(s) && Limited(s.books.pools, s.policies)
    ensures !Violates(Commit(s, q, now).1) && Commit(s, q, now).0.shuttingDown == s.shuttingDown
  {
    hide Inv, Limited, Settled, Promoted, Commit, Committing, ExistingAdmission;
    CommitStep(s, q, now);
    if Committing(s, q, now) {
      CommittingFacts(s, q, now);
      var r := s.books.allocations[q.allocation];
      var s1 := s.(books := Promoted(s.books, q.allocation, now));
      RewriteLimited(s, s1, Promote(q.allocation), now);
      SettlesOk(s1, r.pool, Commit(s, q, now), r.id, r.units);
    } else {
      CommitIdleOutcome(s, q, now);
    }
  }

  lemma CommittingFacts(s: Fabric, q: CommitRequest, now: u64)
    requires Committing(s, q, now)
    ensures q.allocation in s.books.allocations && s.books.allocations[q.allocation].state.Reserved?
    ensures s.books.allocations[q.allocation].pool in s.books.pools
  {
  }

  lemma CommitIdleOutcome(s: Fabric, q: CommitRequest, now: u64)
    requires !Committing(s, q, now)
    ensures !Violates(Commit(s, q, now).1)
  {
    hide Settle, Promoted;
  }

  lemma ReleaseIdleOutcome(s: Fabric, q: ReleaseRequest, now: u64)
    requires Inv(s) && !Releasing(s, q)
    ensures !Violates(Release(s, q, now).1)
  {
    hide Agrees, Forest, Indexed, InRange, Returning, Settle, Remember;
    if ExistingAdmission(s, q.attempt, q.digest, q.allocation) == OK && s.books.allocations[q.allocation].Holds() {
      assert HolderOk(s.books.allocations[q.allocation], s.books.pools, s.queues);
    }
  }

  lemma ReleaseGives(s: Fabric, q: ReleaseRequest, now: u64)
    requires Inv(s) && Releasing(s, q) && SplitAdmissible(s, DoRelease(q))
    ensures var r := s.books.allocations[q.allocation];
            Changes(s, s.(books := Returning(s.books, q.allocation, Asked(r, q), now).0),
                    GiveBack(q.allocation, Asked(r, q)), now)
  {
    hide Inv, Returning;
  }

  /** Release, whole or partial, meets no error branch of apply_release_units and passes
      its closing check. */
  lemma ReleaseNeverViolates(s: Fabric, q: ReleaseRequest, now: u64)
    requires Inv(s) && Limited(s.books.pools, s.policies) && SplitAdmissible(s, DoRelease(q))
    ensures !Violates(Release(s, q, now).1) && Release(s, q, now).0.shuttingDown == s.shuttingDown
  {
    hide Inv, Limited, Settled, Returning, Release;
    if Releasing(s, q) {
      var r := s.books.allocations[q.allocation];
      var s1 := s.(books := Returning(s.books, q.allocation, Asked(r, q), now).0);
      ReleaseStep(s, q, now);
      ReleaseGives(s, q, now);
      RewriteLimited(s, s1, GiveBack(q.allocation, Asked(r, q)), now);
      SettlesOk(s1, r.pool, Release(s, q, now), r.id, Asked(r, q));
    } else {
      ReleaseIdle(s, q, now);
      ReleaseIdleOutcome(s, q, now);
    }
  }

  // ----- Fencing operations -----

  lemma ReclaimNeverViolates(s: Fabric, q: ReclaimRequest, now: u64)
    requires Inv(s) && Limited(s.books.pools, s.policies)
    ensures !Violation(ApplyReclaim(s, q, now).1) && ApplyReclaim(s, q, now).0.shuttingDown == s.shuttingDown
  {
    hide Inv, BuildPlan, Revoked, Shrunk;
    if !s.Refusing() && PlanAdmission(s, q) == OK {
      RevokedKeepsInv(s, q, now);
      ShrunkLimited(s.books, Revoked(s, q, now).0, s.policies);
      ReclaimCloses(s, q, now);
      assert Compliant(Revoked(s, q, now).0.pools[q.pool], s.policies);
    }
  }

  /** A resize reports a violation, and shuts down, exactly when it is admitted and what its
      index does not list does not fit. */
  lemma ResizeViolatesIff(s: Fabric, p: u64, raw: u64, protected: u64, expected: u64, now: u64)
    requires Inv(s)
    ensures var (s', code) := ResizePool(s, p, raw, protected, expected, now);
            var fails := ResizeGuard(s, p, raw, protected, expected) == OK && !ShrinkFits(s, p, raw, protected);
            (Violation(code) <==> fails) && s'.shuttingDown == (s.shuttingDown || fails)
  {
    hide Inv, ResizePool, Stranded;
    if ResizeGuard(s, p, raw, protected, expected) == OK {
      hide ResizeGuard;
      ResizeFitsIff(s, p, raw, protected, expected, now);
    } else {
      ResizeRefusal(s, p, raw, protected, expected, now);
    }
  }

  lemma ResizeRefusal(s: Fabric, p: u64, raw: u64, protected: u64, expected: u64, now: u64)
    requires ResizeGuard(s, p, raw, protected, expected) != OK
    ensures ResizePool(s, p, raw, protected, expected, now) == (s, ResizeGuard(s, p, raw, protected, expected))
    ensures !Violation(ResizeGuard(s, p, raw, protected, expected))
  {
    hide EnforceCapacity, PoolCloses;
  }

  lemma SweepCode(s: Fabric, p: u64, sel: Selector, to: AllocationState, now: u64)
    requires Inv(s) && p in s.books.pools && !to.Holds()
    ensures SweepPool(s, p, sel, to, now).1 == OK
  {
    hide Inv, FenceAll;
    FenceAllKeepsInv(s, Order.Ascending(s.books.pools[p].members), sel, to, now);
  }

  lemma SweepCodes(s: Fabric, p: u64, now: u64)
    requires Inv(s)
    ensures !Violation(FenceStale(s, p, now).1) && !Violation(ExpireReservations(s, p, now).1)
  {
    hide SweepPool, BooksOk;
    if PoolAdmission(s, p) == OK {
      var e := s.books.pools[p];
      var policy := s.policies[e.descriptor.policy];
      SweepCode(s, p, StaleFor(CurrentFor(e, policy, s.epoch)), Fenced, now);
      SweepCode(s, p, LapsedBy(policy.reservationTtl, now), Expired, now);
    }
  }

  lemma PublishCode(s: Fabric, request: Policy, order: seq<u64>, now: u64)
    requires Inv(s)
    ensures !Violation(PublishPolicy(s, request, order, now).1)
  {
    hide FencePools, BooksOk, Policy.Valid, Proposed;
    var policy := Proposed(s, request);
    var logged := Log(s.books, PolicyUpsert(policy));
    SameBooksKeep(s.books, logged, s.queues);
    FencePoolsKeepsBooks(logged, s.queues, order, policy.id, policy.generation, now);
  }

  lemma QueueCodes(s: Fabric, id: u64, target: u64, expected: u64, now: u64)
    requires Inv(s)
    ensures !Violation(RetireQueue(s, id, expected, now).1) && !Violation(RetargetQueue(s, id, target, expected, now).1)
  {
    hide FenceQueue, BooksOk;
    FenceQueueEmpties(s, id, now);
    if RetireGuard(s, id, expected) == OK {
      var q := RetiredQueue(s.queues[id]);
      QueueKeptKeepsInv(s, WithQueue(s, q), q);
      FenceQueueEmpties(WithQueue(s, q), id, now);
    }
  }

  lemma PoolCodes(s: Fabric, d: PoolDescriptor, p: u64, expected: u64, now: u64)
    ensures !Violation(RegisterPool(s, d, now).1) && !Violation(RemovePool(s, p, expected).1)
  {
    hide Partitioned;
    WalkCode(s, NewPool(s, d, now));
  }

  lemma WalkCode(s: Fabric, d: PoolDescriptor)
    ensures d.parent in s.books.pools ==> !Violation(WalkAncestry(s.books.pools, d.parent, 1))
  {
    if d.parent in s.books.pools { WalkCodes(s.books.pools, d.parent, 1); }
  }

  lemma {:induction false} WalkCodes(pools: Pools, cursor: u64, depth: nat)
    requires cursor in pools && depth <= MAX_DEPTH
    ensures !Violation(WalkAncestry(pools, cursor, depth))
    decreases MAX_DEPTH - depth
  {
    var parent := pools[cursor].descriptor.parent;
    if parent != 0 && depth + 1 <= MAX_DEPTH && parent in pools { WalkCodes(pools, parent, depth + 1); }
  }

  lemma RevalidateCode(s: Fabric, q: RevalidateRequest, now: u64)
    ensures !Violates(Revalidate(s, q, now).1)
  {
    hide Record, Rebound, StaleBinding;
  }

  function CodeOf(outcome: Outcome): Code { if outcome.Failed? then outcome.code else OK }

  /** The status a call reports; a decision, even a refusal, counts as OK here. */
  ghost function Status(s: Fabric, op: Op, now: u64): Code {
    match op
    case DoAllocate(q) => CodeOf(Allocate(s, q, now).1)
    case DoCommit(q) => CodeOf(Commit(s, q, now).1)
    case DoRelease(q) => CodeOf(Release(s, q, now).1)
    case DoRevalidate(q) => CodeOf(Revalidate(s, q, now).1)
    case DoFenceStale(p) => FenceStale(s, p, now).1
    case DoExpire(p) => ExpireReservations(s, p, now).1
    case DoReclaim(q) => ApplyReclaim(s, q, now).1
    case DoAttach(id, generation) => AttachBackend(s, id, generation).1
    case DoSetCapacity(answer, raw, generation) => PublishCapacity(s, answer, raw, generation, now).1
    case DoPublish(policy, order) => PublishPolicy(s, policy, order, now).1
    case DoRegisterPool(d) => RegisterPool(s, d, now).1
    case DoRemovePool(p, expected) => RemovePool(s, p, expected).1
    case DoResize(p, raw, protected, expected) => ResizePool(s, p, raw, protected, expected, now).1
    case DoRegisterQueue(q) => RegisterQueue(s, q, now).1
    case DoUpdateDemand(id, demand, expected) => UpdateDemand(s, id, demand, expected, now).1
    case DoRetire(id, expected) => RetireQueue(s, id, expected, now).1
    case DoRetarget(id, target, expected) => RetargetQueue(s, id, target, expected, now).1
    case DoObserve(snapshot) => ObservePressure(s, snapshot, now).1
    case DoShutdown => OK
    case DoCheckpoint => OK
  }

  // ----- Whole runs -----

  /** Splits hold, no policy takes allowance away, and a resize leaves room for what its
      index does not list. Partial releases are allowed. */
  ghost predicate Benign(s: Fabric, op: Op) {
    && SplitAdmissible(s, op)
    && (op.DoPublish? && Proposed(s, op.policy).id in s.policies ==>
          Proposed(s, op.policy).Allowance() >= s.policies[Proposed(s, op.policy).id].Allowance())
    && (op.DoResize? && ResizeGuard(s, op.pool, op.raw, op.protected, op.expected) == OK ==>
          ShrinkFits(s, op.pool, op.raw, op.protected))
  }

  lemma BenignChange(s: Fabric, s': Fabric, op: Op, c: Change, now: u64)
    requires Benign(s, op) && Fits(s, op, c) && Changes(s, s', c, now) && (c.Resize? ==> ResizeGuard(s, op.pool, op.raw, op.protected, op.expected) == OK)
    ensures Generous(s, c) && (c.Resize? ==> ShrinkFits(s, c.pool, c.raw, c.protected))
  {
    hide Releasing, Changes, ResizeGuard, ShrinkFits;
  }

  /** No benign operation reports a violation, and none but begin_shutdown begins one. */
  lemma StatusSound(s: Fabric, op: Op, now: u64)
    requires Sound(s) && Benign(s, op)
    ensures !Violation(Status(s, op, now))
    ensures Step(s, op, now).shuttingDown == (s.shuttingDown || op.DoShutdown?)
  {
    hide Inv, Limited, Allocate, Commit, Release, Revalidate, FenceStale, ExpireReservations, ApplyReclaim, PublishPolicy;
    hide RegisterPool, RemovePool, ResizePool, RegisterQueue, UpdateDemand, RetireQueue, RetargetQueue, ObservePressure;
    hide PublishCapacity, ResizeGuard, ShrinkFits;
    if !op.DoAllocate? && !op.DoCommit? && !op.DoRelease? && !op.DoReclaim? && !op.DoResize? && !op.DoShutdown? { OthersStayUp(s, op, now); }
    match op
    case DoAllocate(q) => AllocateNeverViolates(s, q, now);
    case DoCommit(q) => CommitNeverViolates(s, q, now);
    case DoRelease(q) => ReleaseNeverViolates(s, q, now);
    case DoRevalidate(q) => RevalidateCode(s, q, now);
    case DoFenceStale(p) => SweepCodes(s, p, now);
    case DoExpire(p) => SweepCodes(s, p, now);
    case DoReclaim(q) => ReclaimNeverViolates(s, q, now);
    case DoAttach(_, _) =>
    case DoSetCapacity(_, _, _) => TableCodes(s, op, now);
    case DoPublish(policy, order) => PublishCode(s, policy, order, now);
    case DoRegisterPool(d) => PoolCodes(s, d, 0, 0, now);
    case DoRemovePool(p, expected) => RemovalCode(s, p, expected);
    case DoResize(p, raw, protected, expected) => ResizeViolatesIff(s, p, raw, protected, expected, now);
    case DoRegisterQueue(_) => TableCodes(s, op, now);
    case DoUpdateDemand(_, _, _) => TableCodes(s, op, now);
    case DoRetire(id, expected) => QueueCodes(s, id, 0, expected, now);
    case DoRetarget(id, target, expected) => QueueCodes(s, id, target, expected, now);
    case DoObserve(_) => TableCodes(s, op, now);
    case DoShutdown =>
    case DoCheckpoint =>
  }

  lemma RemovalCode(s: Fabric, p: u64, expected: u64)
    ensures !Violation(RemovePool(s, p, expected).1)
  {
  }

  lemma TableCodes(s: Fabric, op: Op, now: u64)
    requires op.DoSetCapacity? || op.DoUpdateDemand? || op.DoRegisterQueue? || op.DoObserve?
    ensures !Violation(Status(s, op, now))
  {
    hide Partitioned, ValidName;
  }

  lemma OthersStayUp(s: Fabric, op: Op, now: u64)
    requires !op.DoAllocate? && !op.DoCommit? && !op.DoRelease? && !op.DoReclaim? && !op.DoResize? && !op.DoShutdown?
    ensures Step(s, op, now).shuttingDown == s.shuttingDown
  {
    hide Revalidate, FenceStale, ExpireReservations, PublishCapacity, PublishPolicy, RegisterPool, RemovePool;
    hide RegisterQueue, RetireQueue, RetargetQueue, ObservePressure, UpdateDemand;
    match op
    case DoRevalidate(q) => if Revalidating(s, q) { RevalidateShape(s, q, now); } else { RevalidateIdle(s, q, now); }
    case DoFenceStale(p) => SweepsStayUp(s, p, now);
    case DoExpire(p) => SweepsStayUp(s, p, now);
    case DoAttach(_, _) =>
    case DoSetCapacity(_, _, _) => TablesStayUp(s, op, now);
    case DoPublish(policy, order) => PublishShape(s, policy, order, now);
    case DoRegisterPool(d) => RegisterPoolShape(s, d, now);
    case DoRemovePool(p, expected) => RemovePoolShape(s, p, expected);
    case DoRegisterQueue(q) => RegisterQueueShape(s, q, now);
    case DoUpdateDemand(_, _, _) => TablesStayUp(s, op, now);
    case DoRetire(id, expected) => QueuesStayUp(s, id, 0, expected, now);
    case DoRetarget(id, target, expected) => QueuesStayUp(s, id, target, expected, now);
    case DoObserve(snapshot) => PressureAside(s, snapshot, now);
    case DoCheckpoint =>
  }

  lemma SweepStaysUp(s: Fabric, p: u64, sel: Selector, to: AllocationState, now: u64)
    requires p in s.books.pools
    ensures SweepPool(s, p, sel, to, now).0.shuttingDown == s.shuttingDown
  {
    hide FenceAll;
  }

  lemma SweepsStayUp(s: Fabric, p: u64, now: u64)
    ensures FenceStale(s, p, now).0.shuttingDown == s.shuttingDown
    ensures ExpireReservations(s, p, now).0.shuttingDown == s.shuttingDown
  {
    hide SweepPool;
    if PoolAdmission(s, p) == OK {
      var e := s.books.pools[p];
      var policy := s.policies[e.descriptor.policy];
      SweepStaysUp(s, p, StaleFor(CurrentFor(e, policy, s.epoch)), Fenced, now);
      SweepStaysUp(s, p, LapsedBy(policy.reservationTtl, now), Expired, now);
    }
  }

  lemma TablesStayUp(s: Fabric, op: Op, now: u64)
    requires op.DoSetCapacity? || op.DoUpdateDemand?
    ensures Step(s, op, now).shuttingDown == s.shuttingDown
  {
    hide CapacityGuard;
  }

  lemma QueuesStayUp(s: Fabric, id: u64, target: u64, expected: u64, now: u64)
    ensures RetireQueue(s, id, expected, now).0.shuttingDown == s.shuttingDown
    ensures RetargetQueue(s, id, target, expected, now).0.shuttingDown == s.shuttingDown
  {
    hide FenceQueue, RetireGuard, RetargetGuard;
  }

  /** Soundness survives every benign step. */
  lemma StepSound(s: Fabric, op: Op, now: u64)
    requires Sound(s) && Benign(s, op) && IdAdmissible(s, op, now)
    ensures Sound(Step(s, op, now))
  {
    hide Inv, Limited, Step, Changes, SplitAdmissible, IdAdmissible, Generous, ShrinkFits, ResizeGuard, Fits;
    if op.DoResize? && ResizeGuard(s, op.pool, op.raw, op.protected, op.expected) != OK {
      ResizeIdle(s, op, now);
    } else {
      var c := StepChanges(s, op, now);
      OnlyResize(s, op, c);
      BenignChange(s, Step(s, op, now), op, c, now);
      ChangeKeepsInv(s, Step(s, op, now), c, now);
      LimitedKept(s, Step(s, op, now), c, now);
    }
  }

  lemma OnlyResize(s: Fabric, op: Op, c: Change)
    requires Fits(s, op, c)
    ensures c.Resize? ==> op.DoResize?
  {
    hide Releasing, Proposed;
  }

  lemma ResizeIdle(s: Fabric, op: Op, now: u64)
    requires op.DoResize? && ResizeGuard(s, op.pool, op.raw, op.protected, op.expected) != OK
    ensures Step(s, op, now) == s
  {
    hide ResizeGuard, ResizePool;
    ResizeRefused(s, op.pool, op.raw, op.protected, op.expected, now);
  }

  ghost predicate BenignRun(s: Fabric, calls: seq<Call>)
    decreases |calls|
  {
    calls == [] || (Benign(s, calls[0].op) && BenignRun(Step(s, calls[0].op, calls[0].now), calls[1..]))
  }

  lemma {:induction false} BenignSplits(s: Fabric, calls: seq<Call>)
    requires BenignRun(s, calls)
    ensures SplitRun(s, calls)
    decreases |calls|
  {
    hide Step, SplitAdmissible;
    if calls != [] { BenignSplits(Step(s, calls[0].op, calls[0].now), calls[1..]); }
  }

  /** Soundness holds throughout a benign run, and only a call of begin_shutdown begins one. */
  lemma {:induction false} BenignRunIsSound(s: Fabric, calls: seq<Call>)
    requires Sound(s) && BenignRun(s, calls) && AdmissibleRun(s, calls)
    ensures Sound(Run(s, calls))
    ensures Run(s, calls).shuttingDown == (s.shuttingDown || exists i :: 0 <= i < |calls| && calls[i].op.DoShutdown?)
    decreases |calls|
  {
    hide Sound, Step, Benign, IdAdmissible, SplitAdmissible;
    if calls != [] {
      var s' := Step(s, calls[0].op, calls[0].now);
      StepSound(s, calls[0].op, calls[0].now);
      StatusSound(s, calls[0].op, calls[0].now);
      BenignRunIsSound(s', calls[1..]);
      assert forall i :: 0 < i < |calls| ==> calls[i] == calls[1..][i - 1];
      assert forall i :: 0 <= i < |calls[1..]| ==> calls[1..][i] == calls[i + 1];
    }
  }

  lemma EverythingCloses(s: Fabric, p: u64)
    requires Sound(s) && p in s.books.pools
    ensures PoolCloses(s.policies, s.books.pools[p])
  {
    hide PoolCloses, BooksOk;
    ClosureIff(s, p);
    assert Compliant(s.books.pools[p], s.policies);
  }

  lemma EmptySound(config: Config, epoch: u64, boot: Boot, memory: nat)
    ensures Sound(Empty(config, epoch, boot, memory))
  {
  }

  /** No violation is in sight: every pool closes, no benign request is met with one, and a
      resize is met with one exactly when what its index does not list does not fit. */
  ghost predicate OutOfDanger(s: Fabric) {
    && (forall p :: p in s.books.pools ==> PoolCloses(s.policies, s.books.pools[p]))
    && (forall op, now :: Benign(s, op) ==> !Violation(Status(s, op, now)))
    && (forall p, raw, protected, expected, now ::
          Violation(ResizePool(s, p, raw, protected, expected, now).1) <==>
          ResizeGuard(s, p, raw, protected, expected) == OK && !ShrinkFits(s, p, raw, protected))
  }

  /** After any benign run from a sound fabric, partial releases included, also a recovered
      one as long as no grant lands on a live record: no violation is in sight, and only
      begin_shutdown has shut the fabric down. */
  lemma NoViolationTheorem(s0: Fabric, calls: seq<Call>)
    requires Sound(s0) && BenignRun(s0, calls) && AdmissibleRun(s0, calls)
    ensures var s := Run(s0, calls);
            && OutOfDanger(s)
            && (s.shuttingDown <==> s0.shuttingDown || exists i :: 0 <= i < |calls| && calls[i].op.DoShutdown?)
  {
    hide Sound, Run, BenignRun, AdmissibleRun, Benign, ResizePool, PoolCloses, Status, ResizeGuard, ShrinkFits;
    BenignRunIsSound(s0, calls);
    var s := Run(s0, calls);
    forall p | p in s.books.pools ensures PoolCloses(s.policies, s.books.pools[p]) { EverythingCloses(s, p); }
    forall op, now | Benign(s, op) ensures !Violation(Status(s, op, now)) { StatusSound(s, op, now); }
    SoundInv(s);
    forall p, raw, protected, expected, now
      ensures Violation(ResizePool(s, p, raw, protected, expected, now).1) <==>
              ResizeGuard(s, p, raw, protected, expected) == OK && !ShrinkFits(s, p, raw, protected)
    {
      ResizeViolatesIff(s, p, raw, protected, expected, now);
    }
  }

  /** From an empty store the grants need no hypothesis. */
  lemma NoViolationFromEmpty(config: Config, epoch: u64, boot: Boot, memory: nat, calls: seq<Call>)
    requires BenignRun(Empty(config, epoch, boot, memory), calls)
    ensures var s := Run(Empty(config, epoch, boot, memory), calls);
            OutOfDanger(s) && (s.shuttingDown <==> exists i :: 0 <= i < |calls| && calls[i].op.DoShutdown?)
  {
    hide OutOfDanger, Run, BenignRun, AdmissibleRun, SplitRun, Inv, Sound;
    var s0 := Empty(config, epoch, boot, memory);
    EmptyInv(config, epoch, boot, memory);
    EmptySound(config, epoch, boot, memory);
    BenignSplits(s0, calls);
    FreshRun(s0, calls);
    NoViolationTheorem(s0, calls);
  }

  lemma SoundInv(s: Fabric)
    requires Sound(s)
    ensures Inv(s)
  {
  }

  // ----- What a shrinking allowance does -----

  /** A commit, if admitted, forces a shutdown exactly when the pool's own usage already
      exceeds usable capacity plus the allowance of the policy now in force. */
  lemma CommitShutsDownIff(s: Fabric, q: CommitRequest, now: u64)
    requires Inv(s) && Committing(s, q, now)
    ensures var e := s.books.pools[s.books.allocations[q.allocation].pool];
            var over := !WithinAllowance(e, s.policies[e.descriptor.policy]);
            && Commit(s, q, now).0.shuttingDown == (s.shuttingDown || over)
            && (Commit(s, q, now).1 == Failed(ACCOUNTING_VIOLATION) <==> over)
  {
    hide Inv, Promoted, Commit;
    CommitStep(s, q, now);
    CommitKeepsUsage(s, q, now);
  }

  lemma CommitKeepsUsage(s: Fabric, q: CommitRequest, now: u64)
    requires Committing(s, q, now)
    ensures var p := s.books.allocations[q.allocation].pool;
            var b := Promoted(s.books, q.allocation, now);
            && p in b.pools && b.pools[p].ownUsage == s.books.pools[p].ownUsage
            && b.pools[p].descriptor == s.books.pools[p].descriptor
  {
  }
}
