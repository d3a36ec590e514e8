/** The ledger as one state machine: its operations, and the change each one makes. */
module Steps {
  import opened Arithmetic
  import opened Model
  import opened Grants
  import opened Ledger
  import opened Topology
  import opened Reclaim
  import opened Aggregates
  import opened Invariant
  import opened Transitions
  import opened AllocationSteps
  import opened TopologySteps
  import opened Split
  import Order

  datatype Op =
    | DoAllocate(allocate: AllocateRequest)
    | DoCommit(commit: CommitRequest)
    | DoRelease(release: ReleaseRequest)
    | DoRevalidate(revalidate: RevalidateRequest)
    | DoFenceStale(pool: u64)
    | DoExpire(pool: u64)
    | DoReclaim(reclaim: ReclaimRequest)
    | DoAttach(backend: u64, generation: u64)
    | DoSetCapacity(answer: Capacity, expectedRaw: u64, expectedGeneration: u64)
    | DoPublish(policy: Policy, order: seq<u64>)
    | DoRegisterPool(descriptor: PoolDescriptor)
    | DoRemovePool(pool: u64, expected: u64)
    | DoResize(pool: u64, raw: u64, protected: u64, expected: u64)
    | DoRegisterQueue(queue: Queue)
    | DoUpdateDemand(id: u64, demand: u64, expected: u64)
    | DoRetire(id: u64, expected: u64)
    | DoRetarget(id: u64, target: u64, expected: u64)
    | DoObserve(snapshot: PressureSnapshot)
    | DoShutdown
    | DoCheckpoint

  /** One operation, at the tick it samples. A checkpoint writes a snapshot and leaves the
      fabric as it is; begin_shutdown only raises the flag. */
  ghost function Step(s: Fabric, op: Op, now: u64): Fabric {
    match op
    case DoAllocate(q) => Allocate(s, q, now).0
    case DoCommit(q) => Commit(s, q, now).0
    case DoRelease(q) => Release(s, q, now).0
    case DoRevalidate(q) => Revalidate(s, q, now).0
    case DoFenceStale(p) => FenceStale(s, p, now).0
    case DoExpire(p) => ExpireReservations(s, p, now).0
    case DoReclaim(q) => ApplyReclaim(s, q, now).0
    case DoAttach(id, generation) => AttachBackend(s, id, generation).0
    case DoSetCapacity(answer, raw, generation) => PublishCapacity(s, answer, raw, generation, now).0
    case DoPublish(policy, order) => PublishPolicy(s, policy, order, now).0
    case DoRegisterPool(d) => RegisterPool(s, d, now).0
    case DoRemovePool(p, expected) => RemovePool(s, p, expected).0
    case DoResize(p, raw, protected, expected) => ResizePool(s, p, raw, protected, expected, now).0
    case DoRegisterQueue(q) => RegisterQueue(s, q, now).0
    case DoUpdateDemand(id, demand, expected) => UpdateDemand(s, id, demand, expected, now).0
    case DoRetire(id, expected) => RetireQueue(s, id, expected, now).0
    case DoRetarget(id, target, expected) => RetargetQueue(s, id, target, expected, now).0
    case DoObserve(snapshot) => ObservePressure(s, snapshot, now).0
    case DoShutdown => s.(shuttingDown := true)
    case DoCheckpoint => s
  }

  /** The proportional split of a partial release holds. */
  ghost predicate SplitAdmissible(s: Fabric, op: Op) {
    op.DoRelease? && Releasing(s, op.release) ==>
      var r := s.books.allocations[op.release.allocation];
      SplitHolds(r, Asked(r, op.release))
  }

  /** An allocate that stores a record does so under a free id. */
  ghost predicate IdAdmissible(s: Fabric, op: Op, now: u64) {
    op.DoAllocate? && Allocate(s, op.allocate, now).0.books != s.books ==> NextIdFree(s.books)
  }

  /** The two hypotheses on a step. They are exact: see ReturningAgreesIff for the
      split, and AllocateKeepsInvIff in Ids. */
  ghost predicate Admissible(s: Fabric, op: Op, now: u64) { SplitAdmissible(s, op) && IdAdmissible(s, op, now) }

  // ----- The change an operation makes -----

  datatype Change =
    | Nothing
    | NewCapacity(capacity: Capacity)
    | Enter(record: Allocation)
    | Promote(id: u64)
    | GiveBack(id: u64, units: u64)
    | Rebind(id: u64)
    | Shed(ids: seq<u64>, sel: Selector, to: AllocationState)
    | NewPolicy(policy: Policy, order: seq<u64>)
    | AddPool(descriptor: PoolDescriptor)
    | DropPool(pool: u64)
    | Resize(pool: u64, raw: u64, protected: u64)
    | AddQueue(queue: Queue)
    | EditDemand(queue: Queue)
    | Retire(id: u64)
    | Retarget(id: u64, target: u64)
  {
    predicate Rewrites() { Promote? || GiveBack? || Rebind? }

    predicate Plain() { !GiveBack? && !NewPolicy? && !Resize? && !DropPool? && !Enter? }
  }

  /** Nothing durable changes, except that evidence may be noted. */
  ghost predicate Noted(b: Books, b': Books, epoch: u64) {
    && SameBooks(b, b')
    && (b'.journal == b.journal ||
        exists o: PressureSnapshot :: o.epoch == epoch && b'.journal == b.journal + [PressureObserved(o)])
  }

  /** The books become `b`; policies, queues, capacities and the epoch stay. */
  ghost predicate Becomes(s: Fabric, s': Fabric, b: Books) { Still(s.(books := b), s') }

  ghost predicate CapacityFits(s: Fabric, c: Capacity) { Partitioned(s.books.pools, c.resource) <= c.raw }

  ghost predicate ResizedTo(s: Fabric, s': Fabric, p: u64, raw: u64, protected: u64, now: u64) {
    && p in s.books.pools && ResizeGuard(s, p, raw, protected, 0) == OK
    && s.books.pools[p].descriptor.policy in s.policies
    && Becomes(s, s', Enforced(s, p, raw, protected, now).0)
  }

  ghost predicate RetiredBy(s: Fabric, s': Fabric, id: u64, now: u64) {
    && id in s.queues && s.queues[id].generation + 1 < TWO64
    && var s1 := WithQueue(s, RetiredQueue(s.queues[id]));
       && QueueWritten(s, s1, RetiredQueue(s.queues[id]))
       && s' == s1.(books := if s.config.autoFenceOnRetirement then FenceQueue(s1, id, now).0 else s1.books)
  }

  ghost predicate RetargetedTo(s: Fabric, s': Fabric, id: u64, target: u64, now: u64) {
    && id in s.queues && target in s.books.pools && s.queues[id].generation + 1 < TWO64
    && QueueWritten(s.(books := FenceQueue(s, id, now).0), s', Retargeted(s.queues[id], target))
  }

  /** Change `c` leads from s to s'. */
  ghost predicate Changes(s: Fabric, s': Fabric, c: Change, now: u64) {
    match c
    case Nothing => SameTables(s, s') && Noted(s.books, s'.books, s.epoch)
    case NewCapacity(capacity) =>
      && s'.config == s.config && s'.epoch == s.epoch && s'.boot == s.boot && s'.policies == s.policies
      && s'.queues == s.queues && s'.capacities == s.capacities[capacity.resource := capacity]
      && s'.books == Log(s.books, CapacitySet(capacity)) && CapacityFits(s, capacity)
    case Enter(r) => Entered(s, s', r) && NextIdFree(s.books)
    case Promote(id) =>
      id in s.books.allocations && s.books.allocations[id].state.Reserved? && s.books.allocations[id].pool in s.books.pools
      && Becomes(s, s', Promoted(s.books, id, now))
    case GiveBack(id, units) =>
      id in s.books.allocations && s.books.allocations[id].Holds() && s.books.allocations[id].pool in s.books.pools
      && 0 < units <= s.books.allocations[id].units && SplitHolds(s.books.allocations[id], units)
      && Becomes(s, s', Returning(s.books, id, units, now).0)
    case Rebind(id) =>
      id in s.books.allocations && s.books.allocations[id].Holds() && s.books.allocations[id].pool in s.books.pools
      && s.books.pools[s.books.allocations[id].pool].descriptor.policy in s.policies
      && s.books.allocations[id].queue in s.queues
      && Becomes(s, s', Rebound(s.books, id, RenewedFor(s, id), now))
    case Shed(ids, sel, to) => !to.Holds() && Becomes(s, s', FenceAll(s.books, ids, sel, to, now).0)
    case NewPolicy(policy, order) => Published(s, s', policy, order, now)
    case AddPool(d) => PoolAdded(s, s', d)
    case DropPool(p) => PoolDropped(s, s', p)
    case Resize(p, raw, protected) => ResizedTo(s, s', p, raw, protected, now)
    case AddQueue(q) =>
      && q.id !in s.queues && q.pool in s.books.pools && |q.name| <= MAX_NAME && |s.queues| < MAX_QUEUES
      && QueueWritten(s, s', q)
    case EditDemand(q) =>
      q.id in s.queues && q == s.queues[q.id].(demand := q.demand, demandUpdatedAt := now) && QueueWritten(s, s', q)
    case Retire(id) => RetiredBy(s, s', id, now)
    case Retarget(id, target) => RetargetedTo(s, s', id, target, now)
  }

  /** A change enters a record, gives units back, installs a policy, resizes or removes a
      pool only as asked. */
  ghost predicate Fits(s: Fabric, op: Op, c: Change) {
    && (c.GiveBack? ==>
          && op.DoRelease? && Releasing(s, op.release) && c.id == op.release.allocation
          && c.units == Asked(s.books.allocations[c.id], op.release))
    && (c.NewPolicy? ==> op.DoPublish? && c.policy == Proposed(s, op.policy) && c.order == op.order)
    && (c.Resize? ==> op.DoResize? && c.pool == op.pool && c.raw == op.raw && c.protected == op.protected)
    && (c.DropPool? ==> op.DoRemovePool? && c.pool == op.pool)
    && (c.Enter? ==> op.DoAllocate?)
  }

  lemma AllocateChanges(s: Fabric, q: AllocateRequest, now: u64) returns (c: Change)
    requires Inv(s) && IdAdmissible(s, DoAllocate(q), now)
    ensures Changes(s, Allocate(s, q, now).0, c, now)
    ensures c.Nothing? || c.Enter?
  {
    hide Allocate, Inv, Entered;
    AllocateStep(s, q, now);
    var s' := Allocate(s, q, now).0;
    if Still(s, s') {
      c := Nothing;
    } else {
      var r :| Entered(s, s', r);
      EnteredDiffers(s, s', r);
      c := Enter(r);
    }
  }

  lemma ExistingFacts(s: Fabric, attempt: u64, digest: Digest, id: u64)
    requires ExistingAdmission(s, attempt, digest, id) == OK
    ensures id in s.books.allocations && s.books.allocations[id].pool in s.books.pools
    ensures s.books.pools[s.books.allocations[id].pool].descriptor.policy in s.policies
    ensures s.books.allocations[id].queue in s.queues
  {
  }

  lemma CommitChanges(s: Fabric, q: CommitRequest, now: u64) returns (c: Change)
    requires Inv(s)
    ensures Changes(s, Commit(s, q, now).0, c, now)
    ensures c.Plain()
  {
    hide Commit, Inv, ExistingAdmission;
    CommitStep(s, q, now);
    if Committing(s, q, now) {
      ExistingFacts(s, q.attempt, q.digest, q.allocation);
      c := Promote(q.allocation);
    } else {
      c := Nothing;
    }
  }

  lemma ReleasingFacts(s: Fabric, q: ReleaseRequest)
    requires Releasing(s, q) && SplitAdmissible(s, DoRelease(q))
    ensures ExistingAdmission(s, q.attempt, q.digest, q.allocation) == OK && q.allocation in s.books.allocations
    ensures var r := s.books.allocations[q.allocation]; r.Holds() && 0 < Asked(r, q) <= r.units && SplitHolds(r, Asked(r, q))
  {
    hide SplitHolds;
  }

  lemma ReleaseChanges(s: Fabric, q: ReleaseRequest, now: u64) returns (c: Change)
    requires Inv(s) && SplitAdmissible(s, DoRelease(q))
    ensures Changes(s, Release(s, q, now).0, c, now)
    ensures Fits(s, DoRelease(q), c)
  {
    hide Release, Inv, ExistingAdmission, SplitHolds;
    if Releasing(s, q) {
      ReleaseStep(s, q, now);
      ReleasingFacts(s, q);
      ExistingFacts(s, q.attempt, q.digest, q.allocation);
      c := GiveBack(q.allocation, Asked(s.books.allocations[q.allocation], q));
    } else {
      ReleaseIdle(s, q, now);
      c := Nothing;
    }
  }

  lemma RevalidateChanges(s: Fabric, q: RevalidateRequest, now: u64) returns (c: Change)
    ensures Changes(s, Revalidate(s, q, now).0, c, now)
    ensures c.Plain()
  {
    hide Revalidate, ExistingAdmission;
    if Revalidating(s, q) {
      RevalidateShape(s, q, now);
      ExistingFacts(s, q.attempt, q.digest, q.allocation);
      c := Rebind(q.allocation);
    } else {
      RevalidateIdle(s, q, now);
      c := Nothing;
    }
  }

  lemma SweepChanges(s: Fabric, p: u64, sel: Selector, to: AllocationState, now: u64) returns (c: Change)
    requires Inv(s) && p in s.books.pools && !to.Holds()
    ensures Changes(s, SweepPool(s, p, sel, to, now).0, c, now)
    ensures c.Plain()
    ensures c == Shed(Order.Ascending(s.books.pools[p].members), sel, to)
  {
    hide Inv, FenceAll;
    var ids := Order.Ascending(s.books.pools[p].members);
    FenceAllKeepsInv(s, ids, sel, to, now);
    c := Shed(ids, sel, to);
  }

  lemma FenceStaleChanges(s: Fabric, p: u64, now: u64) returns (c: Change)
    requires Inv(s)
    ensures Changes(s, FenceStale(s, p, now).0, c, now)
    ensures c.Plain()
  {
    hide SweepPool;
    if PoolAdmission(s, p) == OK {
      var e := s.books.pools[p];
      c := SweepChanges(s, p, StaleFor(CurrentFor(e, s.policies[e.descriptor.policy], s.epoch)), Fenced, now);
    } else {
      c := Nothing;
    }
  }

  lemma ExpireChanges(s: Fabric, p: u64, now: u64) returns (c: Change)
    requires Inv(s)
    ensures Changes(s, ExpireReservations(s, p, now).0, c, now)
    ensures c.Plain()
  {
    hide SweepPool;
    if PoolAdmission(s, p) == OK {
      c := SweepChanges(s, p, LapsedBy(s.policies[s.books.pools[p].descriptor.policy].reservationTtl, now), Expired, now);
    } else {
      c := Nothing;
    }
  }

  lemma ReclaimChanges(s: Fabric, q: ReclaimRequest, now: u64) returns (c: Change)
    requires Inv(s)
    ensures Changes(s, ApplyReclaim(s, q, now).0, c, now)
    ensures c.Plain()
  {
    hide BuildPlan, Inv, FenceAll, PlanAdmission, PoolCloses, Revoked;
    if !s.Refusing() && PlanAdmission(s, q) == OK {
      RevokedKeepsInv(s, q, now);
      ReclaimShape(s, q, now);
      c := Shed(Victims(s, q, now), AnyHolding, AllocationState.Reclaimed);
    } else {
      c := Nothing;
    }
  }

  lemma AttachChanges(s: Fabric, id: u64, generation: u64, now: u64) returns (c: Change)
    ensures Changes(s, AttachBackend(s, id, generation).0, c, now)
    ensures c.Plain()
  {
    c := StillChanges(s, AttachBackend(s, id, generation).0, now);
  }

  lemma CapacityChanges(s: Fabric, answer: Capacity, raw: u64, generation: u64, now: u64) returns (c: Change)
    ensures Changes(s, PublishCapacity(s, answer, raw, generation, now).0, c, now)
    ensures c.Plain()
  {
    hide Partitioned;
    c := if CapacityGuard(s, answer, raw, generation) == OK then NewCapacity(answer.(observedAt := now)) else Nothing;
  }

  lemma PublishChanges(s: Fabric, request: Policy, order: seq<u64>, now: u64) returns (c: Change)
    ensures Changes(s, PublishPolicy(s, request, order, now).0, c, now)
    ensures Fits(s, DoPublish(request, order), c)
  {
    hide Published, PublishPolicy;
    var s' := PublishPolicy(s, request, order, now).0;
    PublishShape(s, request, order, now);
    c := if Still(s, s') then Nothing else NewPolicy(Proposed(s, request), order);
  }

  lemma RegisterPoolChanges(s: Fabric, request: PoolDescriptor, now: u64) returns (c: Change)
    ensures Changes(s, RegisterPool(s, request, now).0, c, now)
    ensures c.Plain()
  {
    hide RegisterPool, PoolAdded;
    RegisterPoolShape(s, request, now);
    c := if Still(s, RegisterPool(s, request, now).0) then Nothing else AddPool(NewPool(s, request, now));
  }

  lemma RemovePoolChanges(s: Fabric, p: u64, expected: u64, now: u64) returns (c: Change)
    ensures Changes(s, RemovePool(s, p, expected).0, c, now)
    ensures c == Nothing || c == DropPool(p)
  {
    hide RemovePool, PoolDropped;
    RemovePoolShape(s, p, expected);
    c := if RemovePool(s, p, expected).0 == s then Nothing else DropPool(p);
  }

  lemma ResizeUnasserted(s: Fabric, p: u64, raw: u64, protected: u64, expected: u64)
    requires ResizeGuard(s, p, raw, protected, expected) == OK
    ensures ResizeGuard(s, p, raw, protected, 0) == OK
  {
  }

  lemma ResizeGives(s: Fabric, p: u64, raw: u64, protected: u64, expected: u64, now: u64)
    requires Inv(s) && ResizeGuard(s, p, raw, protected, expected) == OK
    ensures ResizedTo(s, ResizePool(s, p, raw, protected, expected, now).0, p, raw, protected, now)
  {
    hide Inv, ResizeGuard, Enforced, PoolCloses, ResizePool;
    ResizeGuardFacts(s, p, raw, protected, expected);
    EnforcedKeepsInv(s, p, raw, protected, now);
    ResizeShape(s, p, raw, protected, expected, now);
    ResizeUnasserted(s, p, raw, protected, expected);
  }

  lemma ResizeRefused(s: Fabric, p: u64, raw: u64, protected: u64, expected: u64, now: u64)
    requires ResizeGuard(s, p, raw, protected, expected) != OK
    ensures ResizePool(s, p, raw, protected, expected, now).0 == s
  {
    hide ResizeGuard, EnforceCapacity, PoolCloses;
  }

  lemma ResizeChanges(s: Fabric, p: u64, raw: u64, protected: u64, expected: u64, now: u64) returns (c: Change)
    requires Inv(s)
    ensures Changes(s, ResizePool(s, p, raw, protected, expected, now).0, c, now)
    ensures Fits(s, DoResize(p, raw, protected, expected), c)
  {
    hide Inv, ResizeGuard, ResizedTo, ResizePool;
    if ResizeGuard(s, p, raw, protected, expected) == OK {
      ResizeGives(s, p, raw, protected, expected, now);
      c := Resize(p, raw, protected);
    } else {
      ResizeRefused(s, p, raw, protected, expected, now);
      c := Nothing;
    }
  }

  lemma QueueChanges(s: Fabric, request: Queue, now: u64) returns (c: Change)
    ensures Changes(s, RegisterQueue(s, request, now).0, c, now)
    ensures c.Plain()
  {
    hide RegisterQueue;
    RegisterQueueShape(s, request, now);
    c := if Still(s, RegisterQueue(s, request, now).0) then Nothing else AddQueue(NewQueue(s, request, now));
  }

  lemma DemandChanges(s: Fabric, id: u64, demand: u64, expected: u64, now: u64) returns (c: Change)
    requires Inv(s)
    ensures Changes(s, UpdateDemand(s, id, demand, expected, now).0, c, now)
    ensures c.Plain()
  {
    hide UpdateDemand, BooksOk;
    UpdateDemandShape(s, id, demand, expected, now);
    c := if UpdateDemand(s, id, demand, expected, now).0 == s then Nothing
         else EditDemand(s.queues[id].(demand := demand, demandUpdatedAt := now));
  }

  lemma RetireGives(s: Fabric, id: u64, expected: u64, now: u64)
    requires QueuesOk(s.queues) && RetireQueue(s, id, expected, now).0 != s
    ensures RetiredBy(s, RetireQueue(s, id, expected, now).0, id, now)
  {
    hide RetireQueue, FenceQueue, QueueWritten;
    RetireShape(s, id, expected, now);
    AddOverflowIsExact(s.queues[id].generation, 1);
  }

  lemma RetireChanges(s: Fabric, id: u64, expected: u64, now: u64) returns (c: Change)
    requires Inv(s)
    ensures Changes(s, RetireQueue(s, id, expected, now).0, c, now)
    ensures c.Plain()
  {
    hide RetireQueue, BooksOk, RetiredBy;
    if RetireQueue(s, id, expected, now).0 == s {
      c := Nothing;
    } else {
      RetireGives(s, id, expected, now);
      c := Retire(id);
    }
  }

  lemma RetargetGives(s: Fabric, id: u64, target: u64, expected: u64, now: u64)
    requires Inv(s) && RetargetQueue(s, id, target, expected, now).0 != s
    ensures RetargetedTo(s, RetargetQueue(s, id, target, expected, now).0, id, target, now)
  {
    hide RetargetQueue, BooksOk, FenceQueue, QueueWritten;
    FenceQueueEmpties(s, id, now);
    RetargetShape(s, id, target, expected, now);
    AddOverflowIsExact(s.queues[id].generation, 1);
  }

  lemma RetargetChanges(s: Fabric, id: u64, target: u64, expected: u64, now: u64) returns (c: Change)
    requires Inv(s)
    ensures Changes(s, RetargetQueue(s, id, target, expected, now).0, c, now)
    ensures c.Plain()
  {
    hide RetargetQueue, BooksOk, RetargetedTo;
    if RetargetQueue(s, id, target, expected, now).0 == s {
      c := Nothing;
    } else {
      RetargetGives(s, id, target, expected, now);
      c := Retarget(id, target);
    }
  }

  lemma ObserveChanges(s: Fabric, request: PressureSnapshot, now: u64) returns (c: Change)
    ensures Changes(s, ObservePressure(s, request, now).0, c, now)
    ensures c.Plain()
  {
    var s' := ObservePressure(s, request, now).0;
    PressureAside(s, request, now);
    if EvidenceAdmission(s, request) == OK && EvidenceGuard(s, Observed(s, request, now), now) == OK {
      assert s'.books.journal == s.books.journal + [PressureObserved(Observed(s, request, now))];
    }
    c := Nothing;
  }

  lemma StillChanges(s: Fabric, s': Fabric, now: u64) returns (c: Change)
    requires Still(s, s')
    ensures Changes(s, s', c, now)
    ensures c.Plain()
  {
    c := Nothing;
  }

  /** Every operation makes one of the changes above. */
  lemma StepChanges(s: Fabric, op: Op, now: u64) returns (c: Change)
    requires Inv(s) && Admissible(s, op, now)
    ensures Changes(s, Step(s, op, now), c, now)
    ensures Fits(s, op, c)
  {
    hide Changes, Inv, Releasing, Allocate, Commit, Release, Revalidate, FenceStale, ExpireReservations, ApplyReclaim;
    hide AttachBackend, PublishCapacity, PublishPolicy, RegisterPool, RemovePool, ResizePool, RegisterQueue, UpdateDemand;
    hide RetireQueue, RetargetQueue, ObservePressure, Proposed;
    match op
    case DoAllocate(q) => c := AllocateChanges(s, q, now);
    case DoCommit(q) => c := CommitChanges(s, q, now);
    case DoRelease(q) => c := ReleaseChanges(s, q, now);
    case DoRevalidate(q) => c := RevalidateChanges(s, q, now);
    case DoFenceStale(p) => c := FenceStaleChanges(s, p, now);
    case DoExpire(p) => c := ExpireChanges(s, p, now);
    case DoReclaim(q) => c := ReclaimChanges(s, q, now);
    case DoAttach(id, generation) => c := AttachChanges(s, id, generation, now);
    case DoSetCapacity(answer, raw, generation) => c := CapacityChanges(s, answer, raw, generation, now);
    case DoPublish(policy, order) => c := PublishChanges(s, policy, order, now);
    case DoRegisterPool(d) => c := RegisterPoolChanges(s, d, now);
    case DoRemovePool(p, expected) => c := RemovePoolChanges(s, p, expected, now);
    case DoResize(p, raw, protected, expected) => c := ResizeChanges(s, p, raw, protected, expected, now);
    case DoRegisterQueue(q) => c := QueueChanges(s, q, now);
    case DoUpdateDemand(id, demand, expected) => c := DemandChanges(s, id, demand, expected, now);
    case DoRetire(id, expected) => c := RetireChanges(s, id, expected, now);
    case DoRetarget(id, target, expected) => c := RetargetChanges(s, id, target, expected, now);
    case DoObserve(snapshot) => c := ObserveChanges(s, snapshot, now);
    case DoShutdown => c := StillChanges(s, s.(shuttingDown := true), now);
    case DoCheckpoint => c := StillChanges(s, s, now);
  }

  // ----- Each change keeps the invariant -----

  lemma SheddingKeepsInv(s: Fabric, s': Fabric, ids: seq<u64>, sel: Selector, to: AllocationState, now: u64)
    requires Inv(s) && !to.Holds() && Becomes(s, s', FenceAll(s.books, ids, sel, to, now).0)
    ensures Inv(s') && Shrunk(s.books, s'.books)
  {
    hide Inv, FenceAll;
    FenceAllKeepsInv(s, ids, sel, to, now);
    StillKeepsInv(s.(books := FenceAll(s.books, ids, sel, to, now).0), s');
  }

  lemma AsideChangeKeepsInv(s: Fabric, s': Fabric)
    requires Inv(s) && SameBooks(s.books, s'.books) && s'.policies == s.policies && s'.queues == s.queues
    ensures Inv(s')
  {
  }

  lemma ResizingKeepsInv(s: Fabric, s': Fabric, p: u64, raw: u64, protected: u64, now: u64)
    requires Inv(s) && ResizedTo(s, s', p, raw, protected, now)
    ensures Inv(s') && Shrunk(ResizedBooks(s.books, p, raw, protected), s'.books)
  {
    hide Inv, ResizeGuard, Enforced;
    ResizeGuardFacts(s, p, raw, protected, 0);
    EnforcedKeepsInv(s, p, raw, protected, now);
    StillKeepsInv(s.(books := Enforced(s, p, raw, protected, now).0), s');
  }

  lemma RetiringKeepsInv(s: Fabric, s': Fabric, id: u64, now: u64)
    requires Inv(s) && RetiredBy(s, s', id, now)
    ensures Inv(s') && Shrunk(s.books, s'.books)
    ensures s.config.autoFenceOnRetirement ==>
              forall k :: k in s'.books.allocations && s'.books.allocations[k].Holds() ==> s'.books.allocations[k].queue != id
  {
    hide BooksOk, FenceQueue;
    var s1 := WithQueue(s, RetiredQueue(s.queues[id]));
    QueueKeptKeepsInv(s, s1, RetiredQueue(s.queues[id]));
    ShrunkRefl(s.books);
    if s.config.autoFenceOnRetirement {
      FenceQueueEmpties(s1, id, now);
      ShrunkTransitive(s.books, s1.books, s'.books);
    }
  }

  lemma RetargetingKeepsInv(s: Fabric, s': Fabric, id: u64, target: u64, now: u64)
    requires Inv(s) && RetargetedTo(s, s', id, target, now)
    ensures Inv(s') && Shrunk(s.books, s'.books)
    ensures forall k :: k in s'.books.allocations && s'.books.allocations[k].Holds() ==> s'.books.allocations[k].queue != id
  {
    hide BooksOk, FenceQueue;
    FenceQueueEmpties(s, id, now);
    var s1 := s.(books := FenceQueue(s, id, now).0);
    QueueMovedKeepsInv(s1, s', Retargeted(s.queues[id], target));
    ShrunkRefl(s1.books);
    ShrunkTransitive(s.books, s1.books, s'.books);
  }

  lemma PromotingKeepsInv(s: Fabric, s': Fabric, id: u64, now: u64)
    requires Inv(s) && Changes(s, s', Promote(id), now)
    ensures Inv(s')
  {
    PromotedKeepsBooks(s.books, s.queues, id, now);
  }

  lemma GivingBackKeepsInv(s: Fabric, s': Fabric, id: u64, units: u64, now: u64)
    requires Inv(s) && Changes(s, s', GiveBack(id, units), now)
    ensures Inv(s')
  {
    ReturningKeepsBooks(s.books, s.queues, id, units, now);
  }

  lemma RebindingKeepsInv(s: Fabric, s': Fabric, id: u64, now: u64)
    requires Inv(s) && Changes(s, s', Rebind(id), now)
    ensures Inv(s')
  {
    ReboundKeepsBooks(s.books, s.queues, id, RenewedFor(s, id), now);
  }

  /** Whatever the operation, the invariant survives. */
  lemma ChangeKeepsInv(s: Fabric, s': Fabric, c: Change, now: u64)
    requires Inv(s) && Changes(s, s', c, now)
    ensures Inv(s')
  {
    hide Inv, PoolAdded, PoolDropped, ResizedTo, RetiredBy, RetargetedTo, Entered, Published;
    match c
    case Nothing => AsideChangeKeepsInv(s, s');
    case NewCapacity(capacity) => AsideChangeKeepsInv(s, s');
    case Enter(r) => EnteredKeepsInv(s, s', r);
    case Promote(id) => PromotingKeepsInv(s, s', id, now);
    case GiveBack(id, units) => GivingBackKeepsInv(s, s', id, units, now);
    case Rebind(id) => RebindingKeepsInv(s, s', id, now);
    case Shed(ids, sel, to) => SheddingKeepsInv(s, s', ids, sel, to, now);
    case NewPolicy(policy, order) => PublishedKeepsInv(s, s', policy, order, now);
    case AddPool(d) => PoolAddedKeepsInv(s, s', d);
    case DropPool(p) => PoolDroppedKeepsInv(s, s', p);
    case Resize(p, raw, protected) => ResizingKeepsInv(s, s', p, raw, protected, now);
    case AddQueue(q) => QueueAddedKeepsInv(s, s', q);
    case EditDemand(q) => QueueKeptKeepsInv(s, s', q);
    case Retire(id) => RetiringKeepsInv(s, s', id, now);
    case Retarget(id, target) => RetargetingKeepsInv(s, s', id, target, now);
  }

  // ----- What a change leaves alone -----

  lemma BecomesTables(s: Fabric, s': Fabric, b: Books)
    requires Becomes(s, s', b)
    ensures SameTables(s, s')
  {
  }

  lemma RetiredTables(s: Fabric, s': Fabric, id: u64, now: u64)
    requires Inv(s) && RetiredBy(s, s', id, now)
    ensures s'.policies == s.policies && s'.capacities == s.capacities && s'.epoch == s.epoch && s'.config == s.config
    ensures id in s.queues && s.queues[id].id == id && s'.queues == s.queues[id := RetiredQueue(s.queues[id])]
  {
    hide FenceQueue, BooksOk;
  }

  lemma RetargetedTables(s: Fabric, s': Fabric, id: u64, target: u64, now: u64)
    requires Inv(s) && RetargetedTo(s, s', id, target, now)
    ensures s'.policies == s.policies && s'.capacities == s.capacities && s'.epoch == s.epoch && s'.config == s.config
    ensures id in s.queues && s.queues[id].id == id && s'.queues == s.queues[id := Retargeted(s.queues[id], target)]
  {
    hide FenceQueue, BooksOk;
  }

  lemma EnteredTables(s: Fabric, s': Fabric, r: Allocation)
    requires Entered(s, s', r)
    ensures SameTables(s, s')
  {
  }

  lemma PublishedTables(s: Fabric, s': Fabric, policy: Policy, order: seq<u64>, now: u64)
    requires Published(s, s', policy, order, now)
    ensures s'.queues == s.queues && s'.capacities == s.capacities
  {
    hide FencePools, Policy.Valid;
  }

  lemma PoolAddedTables(s: Fabric, s': Fabric, d: PoolDescriptor)
    requires PoolAdded(s, s', d)
    ensures s'.queues == s.queues && s'.books.allocations == s.books.allocations && s'.capacities == s.capacities
  {
    hide PoolGuard;
  }

  lemma ResizedTables(s: Fabric, s': Fabric, p: u64, raw: u64, protected: u64, now: u64)
    requires ResizedTo(s, s', p, raw, protected, now)
    ensures SameTables(s, s') && p in s.books.pools
  {
    hide Enforced, ResizeGuard;
  }

  /** The rewritten record stays with its queue and weighs no more on any pool. */
  ghost predicate Eases(r: Allocation, r': Allocation) {
    && (forall p :: Contribution(r', InOwn, p) <= Contribution(r, InOwn, p))
    && r'.queue == r.queue && (r'.Holds() ==> r.Holds() && r'.units <= r.units)
  }

  lemma ReturnEases(r: Allocation, units: u64, now: u64)
    requires r.Holds() && 0 < r.units <= MAX_UNITS && r.borrow <= r.units && 0 < units <= r.units && SplitHolds(r, units)
    ensures Eases(r, RemainingHalf(r, units, now))
  {
    var left := RemainingHalf(r, units, now);
    forall p ensures Contribution(left, InOwn, p) <= Contribution(r, InOwn, p) {
      SplitContributions(r, units, now, InOwn, p);
    }
    SplitConserves(r, units, now);
  }

  lemma PromoteStep(s: Fabric, s': Fabric, id: u64, now: u64)
    requires Inv(s) && Changes(s, s', Promote(id), now)
    ensures SameTables(s, s') && id in s.books.allocations
    ensures var r' := Marked(s.books.allocations[id], Committed, now);
            ReplacedBooks(s.books, s'.books, id, r') && Eases(s.books.allocations[id], r')
  {
    hide BooksOk, Promoted, ReplacedBooks;
    PromotedKeepsBooks(s.books, s.queues, id, now);
  }

  lemma GiveBackStep(s: Fabric, s': Fabric, id: u64, units: u64, now: u64)
    requires Inv(s) && Changes(s, s', GiveBack(id, units), now)
    ensures SameTables(s, s') && id in s.books.allocations && s.books.allocations[id].units != 0
    ensures var r' := RemainingHalf(s.books.allocations[id], units, now);
            ReplacedBooks(s.books, s'.books, id, r') && Eases(s.books.allocations[id], r')
  {
    hide Agrees, Forest, Indexed, Returning, ReplacedBooks;
    ReturningKeepsBooks(s.books, s.queues, id, units, now);
    assert HolderOk(s.books.allocations[id], s.books.pools, s.queues);
    ReturnEases(s.books.allocations[id], units, now);
  }

  lemma ReboundEases(b: Books, id: u64, bound: Bound, now: u64)
    requires id in b.allocations
    ensures id in Rebound(b, id, bound, now).allocations
    ensures Eases(b.allocations[id], Rebound(b, id, bound, now).allocations[id])
  {
  }

  lemma RebindStep(s: Fabric, s': Fabric, id: u64, now: u64)
    requires Inv(s) && Changes(s, s', Rebind(id), now)
    ensures SameTables(s, s') && id in s.books.allocations && id in s'.books.allocations
    ensures ReplacedBooks(s.books, s'.books, id, s'.books.allocations[id])
    ensures Eases(s.books.allocations[id], s'.books.allocations[id])
  {
    hide BooksOk, ReplacedBooks, Rebound, Eases;
    ReboundKeepsBooks(s.books, s.queues, id, RenewedFor(s, id), now);
    ReboundEases(s.books, id, RenewedFor(s, id), now);
  }

  lemma RewriteStep(s: Fabric, s': Fabric, c: Change, now: u64) returns (id: u64, r': Allocation)
    requires Inv(s) && Changes(s, s', c, now) && c.Rewrites()
    ensures SameTables(s, s') && ReplacedBooks(s.books, s'.books, id, r')
    ensures id in s.books.allocations && Eases(s.books.allocations[id], r')
  {
    hide Inv, Changes, ReplacedBooks, Eases;
    match c
    case Promote(i) =>
      PromoteStep(s, s', i, now);
      id, r' := i, Marked(s.books.allocations[i], Committed, now);
    case GiveBack(i, units) =>
      GiveBackStep(s, s', i, units, now);
      id, r' := i, RemainingHalf(s.books.allocations[i], units, now);
    case Rebind(i) =>
      RebindStep(s, s', i, now);
      id, r' := i, s'.books.allocations[i];
  }
}
