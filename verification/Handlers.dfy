/** What the handlers mean to a caller, in terms of the tables alone: the invariant each
    keeps, and for those that only check and assign, what has become true. */
module Handlers {
  import opened Arithmetic
  import opened Sums
  import opened Pressure
  import opened Model
  import opened Attempts
  import opened Grants
  import opened Ledger
  import opened Topology
  import opened Reclaim
  import opened Aggregates
  import opened Invariant
  import opened Transitions
  import opened AllocationSteps
  import opened TopologySteps
  import opened Split
  import opened Steps

  // ----- The invariant -----

  lemma CommitKeeps(s: Fabric, q: CommitRequest, now: u64)
    requires Inv(s)
    ensures Inv(Commit(s, q, now).0)
  {
    hide Inv, Commit, Changes;
    var c := CommitChanges(s, q, now);
    ChangeKeepsInv(s, Commit(s, q, now).0, c, now);
  }

  lemma ReleaseKeeps(s: Fabric, q: ReleaseRequest, now: u64)
    requires Inv(s) && SplitAdmissible(s, DoRelease(q))
    ensures Inv(Release(s, q, now).0)
  {
    hide Inv, Release, Changes, Admissible;
    var c := ReleaseChanges(s, q, now);
    ChangeKeepsInv(s, Release(s, q, now).0, c, now);
  }

  lemma RevalidateKeeps(s: Fabric, q: RevalidateRequest, now: u64)
    requires Inv(s)
    ensures Inv(Revalidate(s, q, now).0)
  {
    hide Inv, Revalidate, Changes;
    var c := RevalidateChanges(s, q, now);
    ChangeKeepsInv(s, Revalidate(s, q, now).0, c, now);
  }

  lemma FenceStaleKeeps(s: Fabric, p: u64, now: u64)
    requires Inv(s)
    ensures Inv(FenceStale(s, p, now).0)
  {
    hide Inv, FenceStale, Changes;
    var c := FenceStaleChanges(s, p, now);
    ChangeKeepsInv(s, FenceStale(s, p, now).0, c, now);
  }

  lemma ExpireKeeps(s: Fabric, p: u64, now: u64)
    requires Inv(s)
    ensures Inv(ExpireReservations(s, p, now).0)
  {
    hide Inv, ExpireReservations, Changes;
    var c := ExpireChanges(s, p, now);
    ChangeKeepsInv(s, ExpireReservations(s, p, now).0, c, now);
  }

  lemma ReclaimKeeps(s: Fabric, q: ReclaimRequest, now: u64)
    requires Inv(s)
    ensures Inv(ApplyReclaim(s, q, now).0)
  {
    hide Inv, ApplyReclaim, Changes;
    var c := ReclaimChanges(s, q, now);
    ChangeKeepsInv(s, ApplyReclaim(s, q, now).0, c, now);
  }

  lemma CapacityKeeps(s: Fabric, answer: Capacity, raw: u64, generation: u64, now: u64)
    requires Inv(s)
    ensures Inv(PublishCapacity(s, answer, raw, generation, now).0)
  {
    hide Inv, PublishCapacity, Changes;
    var c := CapacityChanges(s, answer, raw, generation, now);
    ChangeKeepsInv(s, PublishCapacity(s, answer, raw, generation, now).0, c, now);
  }

  lemma PublishKeeps(s: Fabric, request: Policy, order: seq<u64>, now: u64)
    requires Inv(s)
    ensures Inv(PublishPolicy(s, request, order, now).0)
  {
    hide Inv, PublishPolicy, Changes, Proposed;
    var c := PublishChanges(s, request, order, now);
    ChangeKeepsInv(s, PublishPolicy(s, request, order, now).0, c, now);
  }

  lemma RegisterPoolKeeps(s: Fabric, request: PoolDescriptor, now: u64)
    requires Inv(s)
    ensures Inv(RegisterPool(s, request, now).0)
  {
    hide Inv, RegisterPool, Changes;
    var c := RegisterPoolChanges(s, request, now);
    ChangeKeepsInv(s, RegisterPool(s, request, now).0, c, now);
  }

  lemma RemovePoolKeeps(s: Fabric, p: u64, expected: u64, now: u64)
    requires Inv(s)
    ensures Inv(RemovePool(s, p, expected).0)
  {
    hide Inv, RemovePool, Changes;
    var c := RemovePoolChanges(s, p, expected, now);
    ChangeKeepsInv(s, RemovePool(s, p, expected).0, c, now);
  }

  lemma ResizeKeeps(s: Fabric, p: u64, raw: u64, protected: u64, expected: u64, now: u64)
    requires Inv(s)
    ensures Inv(ResizePool(s, p, raw, protected, expected, now).0)
  {
    hide Inv, ResizePool, Changes;
    var c := ResizeChanges(s, p, raw, protected, expected, now);
    ChangeKeepsInv(s, ResizePool(s, p, raw, protected, expected, now).0, c, now);
  }

  lemma RegisterQueueKeeps(s: Fabric, request: Queue, now: u64)
    requires Inv(s)
    ensures Inv(RegisterQueue(s, request, now).0)
  {
    hide Inv, RegisterQueue, Changes;
    var c := QueueChanges(s, request, now);
    ChangeKeepsInv(s, RegisterQueue(s, request, now).0, c, now);
  }

  lemma DemandKeeps(s: Fabric, id: u64, demand: u64, expected: u64, now: u64)
    requires Inv(s)
    ensures Inv(UpdateDemand(s, id, demand, expected, now).0)
  {
    hide Inv, UpdateDemand, Changes;
    var c := DemandChanges(s, id, demand, expected, now);
    ChangeKeepsInv(s, UpdateDemand(s, id, demand, expected, now).0, c, now);
  }

  lemma RetireKeeps(s: Fabric, id: u64, expected: u64, now: u64)
    requires Inv(s)
    ensures Inv(RetireQueue(s, id, expected, now).0)
  {
    hide Inv, RetireQueue, Changes;
    var c := RetireChanges(s, id, expected, now);
    ChangeKeepsInv(s, RetireQueue(s, id, expected, now).0, c, now);
  }

  lemma RetargetKeeps(s: Fabric, id: u64, target: u64, expected: u64, now: u64)
    requires Inv(s)
    ensures Inv(RetargetQueue(s, id, target, expected, now).0)
  {
    hide Inv, RetargetQueue, Changes;
    var c := RetargetChanges(s, id, target, expected, now);
    ChangeKeepsInv(s, RetargetQueue(s, id, target, expected, now).0, c, now);
  }

  lemma ObserveKeeps(s: Fabric, request: PressureSnapshot, now: u64)
    requires Inv(s)
    ensures Inv(ObservePressure(s, request, now).0)
  {
    hide Inv, ObservePressure, Changes;
    var c := ObserveChanges(s, request, now);
    ChangeKeepsInv(s, ObservePressure(s, request, now).0, c, now);
  }

  // ----- Commit -----

  /** Every record but one is as it was. */
  ghost predicate OthersKept(records: Records, records': Records, id: u64) {
    records'.Keys == records.Keys && forall k :: k in records && k != id ==> records'[k] == records[k]
  }

  /** The pool of the record, the policy that governs it, and its queue are known. */
  ghost predicate Tracked(s: Fabric, r: Allocation) {
    && r.pool != 0 && r.pool in s.books.pools && s.books.pools[r.pool].descriptor.policy in s.policies
    && r.queue != 0 && r.queue in s.queues
  }

  /** The record is bound to its pool's present generations, to its policy's, and to the epoch. */
  ghost predicate InForce(s: Fabric, r: Allocation) {
    && r.pool in s.books.pools && s.books.pools[r.pool].descriptor.policy in s.policies
    && var e := s.books.pools[r.pool];
       && r.bound.poolGeneration == e.descriptor.generation && r.bound.capacityGeneration == e.capacityGeneration
       && r.bound.policyGeneration == s.policies[e.descriptor.policy].generation && r.bound.epoch == s.epoch
  }

  /** A current reservation became a commitment of the same size in the same place: its units
      moved from reserved to committed, in its pool and in its queue's share of it, and no
      other figure of any pool moved. */
  ghost predicate CommitsOne(s: Fabric, s': Fabric, id: u64, now: u64) {
    && id in s.books.allocations && OthersKept(s.books.allocations, s'.books.allocations, id)
    && var r, r' := s.books.allocations[id], s'.books.allocations[id];
       && r.state.Reserved? && InForce(s, r)
       && r' == r.(state := Committed, lastTouched := now, revision := (r.revision + 1) % TWO64)
       && r.pool in s.books.pools && r.pool in s'.books.pools
       && s'.books.pools == s.books.pools[r.pool := s'.books.pools[r.pool]]
       && var e, e' := s.books.pools[r.pool], s'.books.pools[r.pool];
          && e'.reserved + r.units == e.reserved && e'.committed == e.committed + r.units
          && Bucket(e'.queueReserved, r.queue) + r.units == Bucket(e.queueReserved, r.queue)
          && Bucket(e'.queueCommitted, r.queue) == Bucket(e.queueCommitted, r.queue) + r.units
          && e' == e.(reserved := e'.reserved, committed := e'.committed, queueReserved := e'.queueReserved,
                      queueCommitted := e'.queueCommitted)
  }

  lemma PromotedParts(b: Books, id: u64, now: u64)
    requires id in b.allocations && b.allocations[id].pool in b.pools
    ensures var b', r := Promoted(b, id, now), b.allocations[id];
            && b'.allocations == b.allocations[id := Marked(r, Committed, now)]
            && Marked(r, Committed, now) == r.(state := Committed, lastTouched := now, revision := (r.revision + 1) % TWO64)
            && b'.pools == b.pools[r.pool := CommitEntry(b.pools[r.pool], r)]
  {
  }

  lemma CommitEntryParts(e: PoolEntry, r: Allocation)
    ensures var e' := CommitEntry(e, r);
            e' == e.(reserved := e'.reserved, committed := e'.committed, queueReserved := e'.queueReserved,
                     queueCommitted := e'.queueCommitted)
  {
  }

  lemma PromotedFigures(b: Books, b': Books, id: u64, now: u64)
    requires id in b.allocations && b.allocations[id].state.Reserved? && b.allocations[id].pool in b.pools
    requires ReplacedBooks(b, b', id, Marked(b.allocations[id], Committed, now))
    ensures var r := b.allocations[id];
            && r.pool in b'.pools
            && var e, e' := b.pools[r.pool], b'.pools[r.pool];
               && e'.reserved + r.units == e.reserved && e'.committed == e.committed + r.units
               && Bucket(e'.queueReserved, r.queue) + r.units == Bucket(e.queueReserved, r.queue)
               && Bucket(e'.queueCommitted, r.queue) == Bucket(e.queueCommitted, r.queue) + r.units
  {
    var r := b.allocations[id];
    var r' := Marked(r, Committed, now);
    var e, e' := b.pools[r.pool], b'.pools[r.pool];
    assert Field(e', InReserved) == Field(e, InReserved) - Contribution(r, InReserved, r.pool) + Contribution(r', InReserved, r.pool);
    assert Field(e', InCommitted) == Field(e, InCommitted) - Contribution(r, InCommitted, r.pool) + Contribution(r', InCommitted, r.pool);
    var a, c := InQueueReserved(r.queue), InQueueCommitted(r.queue);
    assert Field(e', a) == Field(e, a) - Contribution(r, a, r.pool) + Contribution(r', a, r.pool);
    assert Field(e', c) == Field(e, c) - Contribution(r, c, r.pool) + Contribution(r', c, r.pool);
  }

  lemma PromotionCommits(s: Fabric, s': Fabric, id: u64, now: u64)
    requires Inv(s) && Changes(s, s', Promote(id), now) && InForce(s, s.books.allocations[id])
    ensures CommitsOne(s, s', id, now)
  {
    hide Inv, Promoted, ReplacedBooks, CommitEntry, Eases, InForce, Marked, Bucket;
    PromoteStep(s, s', id, now);
    PromotedParts(s.books, id, now);
    CommitEntryParts(s.books.pools[s.books.allocations[id].pool], s.books.allocations[id]);
    PromotedFigures(s.books, s'.books, id, now);
  }

  /** A commit that succeeds promotes exactly one reservation; one that is answered from
      memory or refused leaves everything alone, except that a pool found beyond its
      allowance shuts the fabric down. */
  lemma CommitMeans(s: Fabric, q: CommitRequest, now: u64)
    requires Inv(s)
    ensures var (s', outcome) := Commit(s, q, now);
            && (outcome.Decided? && outcome.kind.NoOp? ==> CommitsOne(s, s', q.allocation, now))
            && (outcome.Decided? && !outcome.kind.NoOp? ==> outcome.kind.IdempotentReplay? && s' == s)
            && (outcome.Failed? && outcome.code != ACCOUNTING_VIOLATION ==> s' == s)
            && (outcome == Failed(ACCOUNTING_VIOLATION) ==> CommitsOne(s, s', q.allocation, now) && s'.shuttingDown)
  {
    hide Inv, CommitsOne, ExistingAdmission, CommitGuard, Promoted, PoolCloses, Record;
    var (s', outcome) := Commit(s, q, now);
    if Committing(s, q, now) {
      ExistingFacts(s, q.attempt, q.digest, q.allocation);
      CommitGuardFacts(s, q);
      PromotionCommits(s, s', q.allocation, now);
    } else {
      CommitRefusal(s, q);
    }
  }

  lemma CommitGuardFacts(s: Fabric, q: CommitRequest)
    requires ExistingAdmission(s, q.attempt, q.digest, q.allocation) == OK && CommitGuard(s, q) == OK
    ensures var r := s.books.allocations[q.allocation]; r.state.Reserved? && InForce(s, r)
  {
  }

  lemma CommitRefusal(s: Fabric, q: CommitRequest)
    ensures ExistingAdmission(s, q.attempt, q.digest, q.allocation) != ACCOUNTING_VIOLATION
    ensures ExistingAdmission(s, q.attempt, q.digest, q.allocation) == OK ==> CommitGuard(s, q) != ACCOUNTING_VIOLATION
  {
  }

  // ----- Allocate -----

  /** One record was granted under the next id, as asked: no more units than requested, on the
      requested pool and queue, bound to the present and within the queue's cap; its pool
      closes, and every other record and table is as it was. */
  ghost predicate GrantsOne(s: Fabric, s': Fabric, q: AllocateRequest, outcome: Outcome) {
    && outcome.Decided? && outcome.allocation == s.books.nextAllocation && 0 < outcome.granted <= q.units
    && outcome.allocation in s'.books.allocations
    && var r := s'.books.allocations[outcome.allocation];
       && Entered(s, s', r) && r.units == outcome.granted && r.pool == q.pool && r.queue == q.queue && r.attempt == q.attempt
       && r.state == (if q.commitNow then Committed else Reserved)
  }

  lemma DraftParts(s: Fabric, q: AllocateRequest, grant: u64, now: u64)
    requires PoolsOk(s.books.pools) && QueuesOk(s.queues) && Grantable(s, q, grant) && DraftRecord(s, q, grant, now).Drafted?
    ensures var r := DraftRecord(s, q, grant, now).record;
            && r.units == grant && r.pool == q.pool && r.queue == q.queue && r.attempt == q.attempt
            && r.id == s.books.nextAllocation && r.state == (if q.commitNow then Committed else Reserved)
  {
    hide ComputeGrant, QueueHeld;
  }

  lemma GrantMeans(s: Fabric, q: AllocateRequest, grant: u64, now: u64)
    requires Inv(s) && Grantable(s, q, grant)
    ensures var (s', outcome) := GrantAndStore(s, q, grant, now);
            && (outcome.Failed? ==> s' == s) && (outcome.Decided? ==> GrantsOne(s, s', q, outcome) && !outcome.kind.Refused?)
  {
    hide BooksOk, GrantAndStore, DraftRecord, Entered, ComputeGrant, QueueHeld;
    GrantAndStoreStep(s, q, grant, now);
    var (s', outcome) := GrantAndStore(s, q, grant, now);
    if outcome.Decided? {
      var r := DraftRecord(s, q, grant, now).record;
      DraftMeans(s, q, grant, now);
      EnteredUnder(s, s', r);
      GrantedKind(s, q, grant, now);
    }
  }

  lemma DraftMeans(s: Fabric, q: AllocateRequest, grant: u64, now: u64)
    requires Inv(s) && Grantable(s, q, grant) && DraftRecord(s, q, grant, now).Drafted?
    ensures var r := DraftRecord(s, q, grant, now).record;
            && r.units == grant && r.pool == q.pool && r.queue == q.queue && r.attempt == q.attempt
            && r.id == s.books.nextAllocation && r.state == (if q.commitNow then Committed else Reserved)
  {
    hide DraftRecord, Grantable, RecordsOk, Agrees, InRange, Indexed, Forest;
    DraftParts(s, q, grant, now);
  }

  lemma EnteredUnder(s: Fabric, s': Fabric, r: Allocation)
    requires Entered(s, s', r)
    ensures r.id in s'.books.allocations && s'.books.allocations[r.id] == r
  {
    hide PoolCloses, BoundNow, Extended, HolderOk, QueueHeld;
  }

  lemma GrantedKind(s: Fabric, q: AllocateRequest, grant: u64, now: u64)
    requires q.pool in s.books.pools && q.queue in s.queues && s.books.pools[q.pool].descriptor.policy in s.policies
    requires GrantAndStore(s, q, grant, now).1.Decided? && DraftRecord(s, q, grant, now).Drafted?
    ensures GrantAndStore(s, q, grant, now).1
         == Decided(if grant == q.units then Granted else GrantedPartial, OK, grant, DraftRecord(s, q, grant, now).record.id)
  {
    hide DraftRecord, StoreRecord, Closes, PoolCloses, PlannedEntry, Record;
  }

  predicate IsGranted(outcome: Outcome) { outcome.Decided? && (outcome.kind.Granted? || outcome.kind.GrantedPartial?) }

  /** An allocate that grants stores exactly one record; anything else leaves books and tables
      alone. */
  lemma AllocateMeans(s: Fabric, q: AllocateRequest, now: u64)
    requires Inv(s)
    ensures var (s', outcome) := Allocate(s, q, now);
            && (IsGranted(outcome) ==> GrantsOne(s, s', q, outcome)) && (!IsGranted(outcome) ==> Still(s, s'))
  {
    hide Inv, GrantsOne, GrantAndStore, Decide, AllocateAdmission, AllocateBindings, Record, Grantable;
    if AllocateAdmission(s, q) == OK && !Find(s.attempts, q.attempt, q.digest).Replay? {
      AdmittedTables(s, q);
      if AllocateBindings(s, q) == OK {
        var verdict := Decide(s, q, now);
        if verdict.Give? {
          DecisionIsSound(s, q, now);
          GrantMeans(s, q, verdict.units, now);
          if GrantAndStore(s, q, verdict.units, now).1.Decided? { GrantIsDecided(s, q, verdict.units, now); }
        } else {
          DeniedKind(s, q, now);
        }
      }
    }
  }

  lemma GrantIsDecided(s: Fabric, q: AllocateRequest, grant: u64, now: u64)
    requires q.pool in s.books.pools && q.queue in s.queues && s.books.pools[q.pool].descriptor.policy in s.policies
    requires GrantAndStore(s, q, grant, now).1.Decided?
    ensures IsGranted(GrantAndStore(s, q, grant, now).1)
  {
    hide DraftRecord, StoreRecord, Closes, PoolCloses, PlannedEntry, Record;
  }

  lemma AdmittedTables(s: Fabric, q: AllocateRequest)
    requires AllocateAdmission(s, q) == OK
    ensures q.pool in s.books.pools && q.queue in s.queues && s.books.pools[q.pool].descriptor.policy in s.policies
  {
  }

  lemma DeniedKind(s: Fabric, q: AllocateRequest, now: u64)
    requires Askable(s, q) && Decide(s, q, now).Deny?
    ensures !Decide(s, q, now).kind.Granted? && !Decide(s, q, now).kind.GrantedPartial?
  {
    hide ResolveEvidence, AllocateUnits;
  }

  // ----- Release -----

  /** What is left of a record after some of its units were returned. With nothing left it is
      released and owes nothing; otherwise it goes on holding the rest, with its borrowed units
      less their share, the product being taken modulo 2^64. */
  ghost predicate LeavesOf(r: Allocation, r': Allocation, units: u64, now: u64)
    requires r.units != 0
  {
    && r'.units + units == r.units
    && (if units == r.units then r'.borrow == 0
        else r'.borrow + (r.borrow * units) % TWO64 / r.units == r.borrow)
    && r' == r.(units := r'.units, borrow := r'.borrow, state := if units == r.units then Released else r.state,
                lender := if units == r.units then 0 else r.lender,
                lastTouched := now, revision := (r.revision + 1) % TWO64)
  }

  /** One record gave back exactly these units: its pool holds that much less, no pool is
      used more than before, and every other record is as it was. */
  ghost predicate ReturnsOne(s: Fabric, s': Fabric, id: u64, units: u64, now: u64) {
    && id in s.books.allocations && OthersKept(s.books.allocations, s'.books.allocations, id)
    && var r, r' := s.books.allocations[id], s'.books.allocations[id];
       && r.Holds() && 0 < units <= r.units && r'.borrow <= r'.units && LeavesOf(r, r', units, now)
       && SameTopology(s.books.pools, s'.books.pools) && r.pool in s.books.pools
       && s'.books.pools[r.pool].reserved + s'.books.pools[r.pool].committed + units
          == s.books.pools[r.pool].reserved + s.books.pools[r.pool].committed
       && forall p :: p in s.books.pools ==> s'.books.pools[p].ownUsage <= s.books.pools[p].ownUsage
  }

  lemma ReturnedFigures(b: Books, b': Books, id: u64, units: u64, now: u64)
    requires id in b.allocations && b.allocations[id].units != 0 && b.allocations[id].pool in b.pools
    requires ReplacedBooks(b, b', id, RemainingHalf(b.allocations[id], units, now))
    requires Eases(b.allocations[id], RemainingHalf(b.allocations[id], units, now))
    requires var r, r' := b.allocations[id], RemainingHalf(b.allocations[id], units, now);
             r.Holds() && 0 < units <= r.units && r'.units + units == r.units && r'.pool == r.pool
             && (if units == r.units then r'.state.Released? else r'.state == r.state)
    ensures var r := b.allocations[id];
            && r.pool in b'.pools
            && b'.pools[r.pool].reserved + b'.pools[r.pool].committed + units == b.pools[r.pool].reserved + b.pools[r.pool].committed
            && forall p :: p in b.pools ==> b'.pools[p].ownUsage <= b.pools[p].ownUsage
  {
    hide RemainingHalf;
    var r, r' := b.allocations[id], RemainingHalf(b.allocations[id], units, now);
    assert Field(b'.pools[r.pool], InReserved)
        == Field(b.pools[r.pool], InReserved) - Contribution(r, InReserved, r.pool) + Contribution(r', InReserved, r.pool);
    assert Field(b'.pools[r.pool], InCommitted)
        == Field(b.pools[r.pool], InCommitted) - Contribution(r, InCommitted, r.pool) + Contribution(r', InCommitted, r.pool);
    forall p | p in b.pools ensures b'.pools[p].ownUsage <= b.pools[p].ownUsage {
      assert Field(b'.pools[p], InOwn) == Field(b.pools[p], InOwn) - Contribution(r, InOwn, p) + Contribution(r', InOwn, p);
    }
  }

  lemma RemainderParts(r: Allocation, units: u64, now: u64)
    requires r.Holds() && 0 < r.units <= MAX_UNITS && r.borrow <= r.units && 0 < units <= r.units && SplitHolds(r, units)
    ensures var r' := RemainingHalf(r, units, now);
            && r'.units + units == r.units && r'.borrow <= r'.units && r'.pool == r.pool && LeavesOf(r, r', units, now)
            && (if units == r.units then r'.state.Released? else r'.state == r.state)
  {
    SplitConserves(r, units, now);
    ShareIs(r, units);
    hide ReturnedBorrow;
  }

  lemma ShareIs(r: Allocation, units: u64)
    requires r.units != 0 && r.borrow <= r.units
    ensures ReturnedBorrow(r, units) == if units == r.units then r.borrow else (r.borrow * units) % TWO64 / r.units
  {
    assert r.Borrowed() == r.borrow;
    MulMonotone(0, r.borrow, units);
  }

  lemma GiveBackReturns(s: Fabric, s': Fabric, id: u64, units: u64, now: u64)
    requires Inv(s) && Changes(s, s', GiveBack(id, units), now)
    ensures ReturnsOne(s, s', id, units, now)
  {
    hide Agrees, Forest, Indexed, InRange, PoolsOk, Returning, ReplacedBooks, RemainingHalf, Eases, SplitHolds, LeavesOf;
    GiveBackStep(s, s', id, units, now);
    assert HolderOk(s.books.allocations[id], s.books.pools, s.queues);
    RemainderParts(s.books.allocations[id], units, now);
    ReturnedFigures(s.books, s'.books, id, units, now);
    ReplacedParts(s.books, s'.books, id, RemainingHalf(s.books.allocations[id], units, now));
  }

  lemma ReplacedParts(b: Books, b': Books, id: u64, r': Allocation)
    requires ReplacedBooks(b, b', id, r')
    ensures OthersKept(b.allocations, b'.allocations, id) && b'.allocations[id] == r' && SameTopology(b.pools, b'.pools)
  {
    hide Moved;
  }

  /** A release of part or all of a holder, with a split that holds, returns exactly those
      units; any other leaves books and tables alone. */
  lemma ReleaseMeans(s: Fabric, q: ReleaseRequest, now: u64)
    requires Inv(s) && SplitAdmissible(s, DoRelease(q))
    ensures var s' := Release(s, q, now).0;
            && (Releasing(s, q) ==> ReturnsOne(s, s', q.allocation, Asked(s.books.allocations[q.allocation], q), now))
            && (!Releasing(s, q) ==> Still(s, s'))
  {
    hide Inv, ReturnsOne, Release, ExistingAdmission, SplitHolds, Returning;
    if Releasing(s, q) {
      ReleaseStep(s, q, now);
      ReleasingFacts(s, q);
      ExistingFacts(s, q.attempt, q.digest, q.allocation);
      GiveBackReturns(s, Release(s, q, now).0, q.allocation, Asked(s.books.allocations[q.allocation], q), now);
    } else {
      ReleaseIdle(s, q, now);
    }
  }

  // ----- Retiring and retargeting a queue -----

  /** No record of the queue holds units. */
  ghost predicate Drained(s: Fabric, id: u64) {
    forall k :: k in s.books.allocations && s.books.allocations[k].Holds() ==> s.books.allocations[k].queue != id
  }

  /** A retirement that succeeds leaves the queue retired, and with automatic fencing nothing
      of it holds units unless it was retired before; records only let go. */
  lemma RetireMeans(s: Fabric, id: u64, expected: u64, now: u64)
    requires Inv(s)
    ensures var (s', code) := RetireQueue(s, id, expected, now);
            && (code == OK ==> id in s'.queues && s'.queues[id].retired)
            && (s' != s ==> (s.config.autoFenceOnRetirement ==> Drained(s', id)) && Shrunk(s.books, s'.books))
            && (code != OK ==> s' == s)
  {
    hide BooksOk, FenceQueue, RetiredBy, Shrunk, RetireGuard;
    var (s', code) := RetireQueue(s, id, expected, now);
    if s' != s {
      RetireGives(s, id, expected, now);
      RetiringKeepsInv(s, s', id, now);
      RetiredTables(s, s', id, now);
    }
    RetireCode(s, id, expected, now);
  }

  lemma RetireCode(s: Fabric, id: u64, expected: u64, now: u64)
    requires Inv(s)
    ensures var (s', code) := RetireQueue(s, id, expected, now);
            && (code != OK ==> s' == s) && (code == OK && s' == s ==> id in s.queues && s.queues[id].retired)
  {
    hide BooksOk, FenceQueue;
    if RetireGuard(s, id, expected) == OK {
      var s1 := WithQueue(s, RetiredQueue(s.queues[id]));
      QueueKeptKeepsInv(s, s1, RetiredQueue(s.queues[id]));
      FenceQueueEmpties(s1, id, now);
    }
  }

  /** A retargeting that succeeds leaves the queue on the new pool, with nothing held under
      the old binding; records only let go. */
  lemma RetargetMeans(s: Fabric, id: u64, target: u64, expected: u64, now: u64)
    requires Inv(s)
    ensures var (s', code) := RetargetQueue(s, id, target, expected, now);
            && (code == OK ==> id in s'.queues && s'.queues[id].pool == target)
            && (s' != s ==> Drained(s', id) && Shrunk(s.books, s'.books))
            && (code != OK ==> s' == s)
  {
    hide BooksOk, FenceQueue, RetargetedTo, Shrunk, RetargetGuard;
    var (s', code) := RetargetQueue(s, id, target, expected, now);
    if s' != s {
      RetargetGives(s, id, target, expected, now);
      RetargetingKeepsInv(s, s', id, target, now);
      RetargetedTables(s, s', id, target, now);
    }
    RetargetCode(s, id, target, expected, now);
  }

  lemma RetargetCode(s: Fabric, id: u64, target: u64, expected: u64, now: u64)
    requires Inv(s)
    ensures var (s', code) := RetargetQueue(s, id, target, expected, now);
            && (code != OK ==> s' == s) && (code == OK && s' == s ==> id in s.queues && s.queues[id].pool == target)
  {
    hide BooksOk, FenceQueue;
    FenceQueueEmpties(s, id, now);
  }

  // ----- Revalidate -----

  /** One holding record, current already, is bound to the generations, epoch and boot in
      force, and nothing else of it, of the other records or of any pool changed. */
  ghost predicate RebindsOne(s: Fabric, s': Fabric, id: u64, now: u64) {
    && id in s.books.allocations && OthersKept(s.books.allocations, s'.books.allocations, id)
    && s'.books.pools == s.books.pools
    && var r, r' := s.books.allocations[id], s'.books.allocations[id];
       && r.Holds() && InForce(s, r) && r.queue in s.queues
       && r' == r.(bound := r.bound.(queueGeneration := s.queues[r.queue].generation, boot := s.boot),
                   lastTouched := now, revision := (r.revision + 1) % TWO64)
       && BoundNow(s', r')
  }

  lemma RebindingBinds(s: Fabric, s': Fabric, id: u64, now: u64)
    requires Inv(s) && Changes(s, s', Rebind(id), now) && InForce(s, s.books.allocations[id])
    ensures RebindsOne(s, s', id, now)
  {
    hide BooksOk;
  }

  /** A revalidation that succeeds binds exactly one record to the present; a stale one is
      told to be fenced, and everything else leaves books and tables alone. */
  lemma RevalidateMeans(s: Fabric, q: RevalidateRequest, now: u64)
    requires Inv(s)
    ensures var (s', outcome) := Revalidate(s, q, now);
            && (outcome.Decided? && outcome.kind.NoOp? ==> RebindsOne(s, s', q.allocation, now))
            && (!(outcome.Decided? && outcome.kind.NoOp?) ==> Still(s, s'))
  {
    hide Inv, RebindsOne, ExistingAdmission, Revalidate, StaleBinding;
    if Revalidating(s, q) {
      ExistingFacts(s, q.attempt, q.digest, q.allocation);
      RevalidateShape(s, q, now);
      RevalidateDecides(s, q, now);
      RevalidatingFacts(s, q);
      RebindingBinds(s, Revalidate(s, q, now).0, q.allocation, now);
    } else {
      RevalidateIdle(s, q, now);
      RevalidateDecides(s, q, now);
    }
  }

  lemma RevalidatingFacts(s: Fabric, q: RevalidateRequest)
    requires Revalidating(s, q)
    ensures InForce(s, s.books.allocations[q.allocation])
  {
  }

  lemma RevalidateDecides(s: Fabric, q: RevalidateRequest, now: u64)
    ensures var outcome := Revalidate(s, q, now).1; Revalidating(s, q) <==> outcome.Decided? && outcome.kind.NoOp?
  {
    hide ExistingAdmission, StaleBinding, Rebound, Record, Renewed;
  }

  // ----- Pool removal -----

  /** No holding record is in the pool or borrows from it. */
  ghost predicate Unused(s: Fabric, p: u64) {
    forall id :: id in s.books.allocations && s.books.allocations[id].Holds() ==>
      s.books.allocations[id].pool != p && (s.books.allocations[id].Borrowed() != 0 ==> s.books.allocations[id].lender != p)
  }

  lemma UnusedTotal(b: Books, p: u64, a: Aggregate)
    requires forall id :: id in b.allocations && b.allocations[id].Holds() ==>
               b.allocations[id].pool != p && (b.allocations[id].Borrowed() != 0 ==> b.allocations[id].lender != p)
    ensures Total(b.allocations, a, p) == 0
  {
    hide SumOver;
    SumZero(b.allocations.Keys, Share(b.allocations, a, p));
  }

  lemma IdleIsUnused(s: Fabric, p: u64)
    requires Inv(s) && p in s.books.pools && s.books.pools[p].lentOut == 0 && s.books.pools[p].Allocated() == 0
    ensures Unused(s, p)
  {
    hide Forest, Indexed, PoolsOk, Agrees, InRange, PoolEntry.Allocated, Grounded;
    var b := s.books;
    forall id | id in b.allocations && b.allocations[id].Holds()
      ensures b.allocations[id].pool != p && (b.allocations[id].Borrowed() != 0 ==> b.allocations[id].lender != p)
    {
      assert HolderOk(b.allocations[id], b.pools, s.queues);
      IdlePool(b.pools, b.allocations, p, id);
      BorrowerLends(b.allocations[id], b.pools.Keys);
    }
  }

  lemma BorrowerLends(r: Allocation, pools: set<u64>)
    requires Grounded(r, pools) && r.Holds()
    ensures r.Borrowed() != 0 ==> r.lender != 0
  {
  }

  lemma UnusedIsIdle(b: Books, p: u64)
    requires Agrees(b.pools, b.allocations) && p in b.pools
    requires forall id :: id in b.allocations && b.allocations[id].Holds() ==>
               b.allocations[id].pool != p && (b.allocations[id].Borrowed() != 0 ==> b.allocations[id].lender != p)
    ensures b.pools[p].lentOut == 0 && b.pools[p].Allocated() == 0
  {
    hide Total;
    UnusedTotal(b, p, InLent);
    UnusedTotal(b, p, InReserved);
    UnusedTotal(b, p, InCommitted);
    assert Field(b.pools[p], InLent) == 0 && Field(b.pools[p], InReserved) == 0 && Field(b.pools[p], InCommitted) == 0;
  }

  /** The two counters that guard a removal say exactly that nobody draws on the pool. */
  lemma IdleIff(s: Fabric, p: u64)
    requires Inv(s) && p in s.books.pools
    ensures (s.books.pools[p].lentOut == 0 && s.books.pools[p].Allocated() == 0) <==> Unused(s, p)
  {
    hide Forest, Indexed, PoolsOk, Agrees, RecordsOk, InRange, PoolEntry.Allocated;
    if s.books.pools[p].lentOut == 0 && s.books.pools[p].Allocated() == 0 { IdleIsUnused(s, p); }
    if Unused(s, p) { UnusedIsIdle(s.books, p); }
  }

  /** Whether a pool may be removed, in terms of what is there. */
  ghost predicate Removable(s: Fabric, p: u64, expected: u64) {
    && p != 0 && p in s.books.pools && !Mismatch(expected, s.books.pools[p].descriptor.generation) && Unused(s, p)
    && (forall c :: c in s.books.pools ==> s.books.pools[c].descriptor.parent != p)
    && (forall q :: q in s.queues && s.queues[q].pool == p ==> s.queues[q].retired)
  }

  /** The pool is gone with its queues, its evidence and their names, and everything else is as
      it was. */
  ghost predicate PoolGone(s: Fabric, s': Fabric, p: u64) {
    && s' == s.(books := s'.books, names := s'.names, queues := s'.queues, pressure := s.pressure - {p})
    && s'.books.pools == s.books.pools - {p} && s'.books.allocations == s.books.allocations
    && s'.books.nextAllocation == s.books.nextAllocation
    && (forall q :: q in s'.queues <==> q in s.queues && s.queues[q].pool != p)
    && (forall q :: q in s'.queues ==> s'.queues[q] == s.queues[q])
    && (p in s.books.pools ==> s'.names.pools == s.names.pools - {s.books.pools[p].descriptor.name})
    && (forall name :: name in s'.names.queues <==>
          name in s.names.queues && forall q :: q in s.queues && s.queues[q].pool == p ==> s.queues[q].name != name)
    && (forall name :: name in s'.names.queues ==> s'.names.queues[name] == s.names.queues[name])
    && s'.names.policies == s.names.policies
  }

  /** A pool is removed exactly if it is known under the asserted generation, has no child,
      only retired queues, and no allocation in it or borrowing from it. */
  lemma RemovalMeans(s: Fabric, p: u64, expected: u64)
    requires Inv(s)
    ensures var (s', code) := RemovePool(s, p, expected);
            && (code == OK <==> Removable(s, p, expected))
            && (code == OK ==> PoolGone(s, s', p) && Unused(s', p)) && (code != OK ==> s' == s)
  {
    hide Inv, Unused, PoolEntry.Allocated;
    if p in s.books.pools { IdleIff(s, p); }
    if RemovePool(s, p, expected).1 == OK { UnusedSame(s, RemovePool(s, p, expected).0, p); }
  }

  lemma UnusedSame(s: Fabric, s': Fabric, p: u64)
    requires Unused(s, p) && s'.books.allocations == s.books.allocations
    ensures Unused(s', p)
  {
  }

  // ----- Queue registration -----

  predicate Fresh(q: Queue, id: u64, request: Queue) {
    && q.id == id && q.generation == 1 && !q.retired && q.name == request.name && q.pool == request.pool
    && q.demand == request.demand && q.maxCommitted == request.maxCommitted
  }

  /** A new queue under an id not taken before, as requested, in its first generation, on an
      existing pool, holding nothing; the next id handed out lies beyond it, and the rest of
      the tables is as it was. */
  ghost predicate QueueJoins(s: Fabric, s': Fabric, request: Queue, id: u64) {
    && id !in s.queues && (request.id != 0 ==> id == request.id) && id < s'.counters.nextQueue
    && id in s'.queues && s'.queues == s.queues[id := s'.queues[id]]
    && Fresh(s'.queues[id], id, request)
    && request.pool in s'.books.pools && QueueHeld(s'.books.pools[request.pool], id) == 0
    && (forall k :: k in s'.books.allocations && s'.books.allocations[k].Holds() ==> s'.books.allocations[k].queue != id)
    && SameBooks(s.books, s'.books) && s'.policies == s.policies && s'.capacities == s.capacities
  }

  lemma UnknownQueueUnheld(s: Fabric, id: u64)
    requires Inv(s) && id !in s.queues
    ensures forall k :: k in s.books.allocations && s.books.allocations[k].Holds() ==> s.books.allocations[k].queue != id
  {
    hide Forest, Indexed, PoolsOk, InRange, Agrees;
    forall k | k in s.books.allocations && s.books.allocations[k].Holds() ensures s.books.allocations[k].queue != id {
      assert HolderOk(s.books.allocations[k], s.books.pools, s.queues);
    }
  }

  lemma UnheldBuckets(b: Books, id: u64, p: u64)
    requires Agrees(b.pools, b.allocations) && p in b.pools
    requires forall k :: k in b.allocations && b.allocations[k].Holds() ==> b.allocations[k].queue != id
    ensures QueueHeld(b.pools[p], id) == 0
  {
    hide SumOver;
    SumZero(b.allocations.Keys, Share(b.allocations, InQueueReserved(id), p));
    SumZero(b.allocations.Keys, Share(b.allocations, InQueueCommitted(id), p));
    assert Field(b.pools[p], InQueueReserved(id)) == 0 && Field(b.pools[p], InQueueCommitted(id)) == 0;
  }

  lemma NewQueueHoldsNothing(s: Fabric, id: u64, p: u64)
    requires Inv(s) && id !in s.queues && p in s.books.pools
    ensures QueueHeld(s.books.pools[p], id) == 0
    ensures forall k :: k in s.books.allocations && s.books.allocations[k].Holds() ==> s.books.allocations[k].queue != id
  {
    hide Forest, Indexed, PoolsOk, InRange, Agrees, RecordsOk, QueueHeld;
    UnknownQueueUnheld(s, id);
    UnheldBuckets(s.books, id, p);
  }

  /** A registration that succeeds adds exactly that queue; one that does not changes
      neither queues nor books. */
  lemma RegisterQueueMeans(s: Fabric, request: Queue, now: u64)
    requires Inv(s)
    ensures var (s', code) := RegisterQueue(s, request, now);
            && (code == OK ==> QueueJoins(s, s', request, NewQueue(s, request, now).id))
            && (code != OK ==> s'.queues == s.queues && s'.books == s.books)
  {
    hide Inv, ValidName, QueueHeld;
    var (s', code) := RegisterQueue(s, request, now);
    var q := NewQueue(s, request, now);
    if code == OK {
      NewQueueHoldsNothing(s, q.id, q.pool);
      NextBeyond(q.id, s.counters.nextQueue);
    }
  }

  lemma NextBeyond(id: u64, next: u64)
    requires !IdExhausted(id, next)
    ensures id < Advanced(id, next)
  {
    AddOverflowIsExact(id, 1);
  }

  // ----- Demand -----

  /** The queue's demand is the new one and nothing else of the tables changed. */
  ghost predicate DemandSet(s: Fabric, s': Fabric, id: u64, demand: u64) {
    && id in s.queues && id in s'.queues && s'.queues == s.queues[id := s'.queues[id]] && SameBooks(s.books, s'.books)
    && s'.queues[id] == s.queues[id].(demand := demand, demandUpdatedAt := s'.queues[id].demandUpdatedAt)
  }

  ghost predicate Askable(s: Fabric, q: AllocateRequest) {
    q.pool in s.books.pools && q.queue in s.queues && s.books.pools[q.pool].descriptor.policy in s.policies
  }

  /** What allocate would decide is what it would have decided before, for every request but
      those through a queue whose demand is its cap. */
  ghost predicate DecidesAlike(s: Fabric, s': Fabric, id: u64) {
    forall q: AllocateRequest, t ::
      Askable(s, q) && (q.queue != id || s.queues[q.queue].maxCommitted != 0) ==>
        Askable(s', q) && Decide(s', q, t) == Decide(s, q, t)
  }

  /** Through a queue without a hard cap nothing is granted beyond a declared demand. */
  ghost predicate WithinDemand(s: Fabric, id: u64) {
    forall q: AllocateRequest, t :: Askable(s, q) && q.queue == id && Decide(s, q, t).Give? ==>
      s.queues[id].maxCommitted == 0 && s.queues[id].demand != 0 ==>
        QueueHeld(s.books.pools[q.pool], id) + Decide(s, q, t).units <= s.queues[id].demand
  }

  lemma DemandElsewhere(s: Fabric, s': Fabric, id: u64, demand: u64, q: AllocateRequest, t: u64)
    requires DemandSet(s, s', id, demand) && s'.policies == s.policies && s'.pressure == s.pressure && s'.epoch == s.epoch
    requires Askable(s, q) && (q.queue != id || s.queues[q.queue].maxCommitted != 0)
    ensures Askable(s', q) && Decide(s', q, t) == Decide(s, q, t)
  {
    hide ResolveEvidence, ComputeGrant;
  }

  lemma DemandBounds(s: Fabric, id: u64, q: AllocateRequest, t: u64)
    requires Askable(s, q) && q.queue == id && s.queues[id].id == id && Decide(s, q, t).Give?
    requires s.queues[id].maxCommitted == 0 && s.queues[id].demand != 0
    ensures QueueHeld(s.books.pools[q.pool], id) + Decide(s, q, t).units <= s.queues[id].demand
  {
    hide ResolveEvidence, ComputeGrant, QueueHeld;
  }

  /** An update that succeeds sets the demand and only that. It is a cap for a queue without
      a hard one, and no other decision of allocate depends on it. One that fails changes
      nothing. */
  lemma DemandMeans(s: Fabric, id: u64, demand: u64, expected: u64, now: u64)
    requires Inv(s)
    ensures var (s', code) := UpdateDemand(s, id, demand, expected, now);
            && (code == OK ==> DemandSet(s, s', id, demand) && DecidesAlike(s, s', id) && WithinDemand(s', id))
            && (code != OK ==> s' == s)
  {
    hide BooksOk, DecidesAlike, WithinDemand;
    var (s', code) := UpdateDemand(s, id, demand, expected, now);
    if code == OK {
      DemandAlike(s, s', id, demand);
      DemandWithin(s', id);
    }
  }

  lemma DemandAlike(s: Fabric, s': Fabric, id: u64, demand: u64)
    requires DemandSet(s, s', id, demand) && s'.policies == s.policies && s'.pressure == s.pressure && s'.epoch == s.epoch
    ensures DecidesAlike(s, s', id)
  {
    hide Decide;
    forall q: AllocateRequest | Askable(s, q) ensures Askable(s', q) {}
    forall q: AllocateRequest, t: u64 | Askable(s, q) && (q.queue != id || s.queues[q.queue].maxCommitted != 0)
      ensures Askable(s', q) && Decide(s', q, t) == Decide(s, q, t)
    {
      DemandElsewhere(s, s', id, demand, q, t);
    }
  }

  lemma DemandWithin(s: Fabric, id: u64)
    requires id in s.queues && s.queues[id].id == id
    ensures WithinDemand(s, id)
  {
    hide Decide, QueueHeld;
    forall q: AllocateRequest, t: u64
      | Askable(s, q) && q.queue == id && Decide(s, q, t).Give? && s.queues[id].maxCommitted == 0 && s.queues[id].demand != 0
      ensures QueueHeld(s.books.pools[q.pool], id) + Decide(s, q, t).units <= s.queues[id].demand
    {
      DemandBounds(s, id, q, t);
    }
  }

  // ----- Evidence -----

  /** From now on the pool's evidence is the observation: at any tick it is known exactly
      while it is fresh and the usage it asserts, if any, is the actual one; then it is the
      band of the pool's present usage. */
  ghost predicate EvidenceInForce(s: Fabric, o: PressureSnapshot) {
    && o.pool in s.books.pools
    && forall t: u64 {:trigger ResolveEvidence(s.pressure, s.policies, s.epoch, s.books.pools[o.pool], t)} ::
         var e := s.books.pools[o.pool];
         var found := ResolveEvidence(s.pressure, s.policies, s.epoch, e, t);
         && (found.reason == OK <==>
              0 < o.ttl && o.observedAt <= t <= o.observedAt + o.ttl && (o.assertCommitted ==> o.committed == e.ownUsage))
         && (found.reason != OK ==> found == Evidence(Stale, STALE_EVIDENCE))
  }

  /** Every other pool's evidence resolves as before. */
  ghost predicate OthersResolveAlike(s: Fabric, s': Fabric, p: u64) {
    forall k, t :: k in s.books.pools && k != p ==>
      && k in s'.books.pools
      && ResolveEvidence(s'.pressure, s'.policies, s'.epoch, s'.books.pools[k], t)
         == ResolveEvidence(s.pressure, s.policies, s.epoch, s.books.pools[k], t)
  }

  lemma EvidenceResolves(s: Fabric, o: PressureSnapshot, t: u64)
    requires o.pool in s.books.pools && s.books.pools[o.pool].descriptor.id == o.pool
    requires o.pool in s.pressure && s.pressure[o.pool] == o && o.epoch == s.epoch
    requires o.poolGeneration == s.books.pools[o.pool].descriptor.generation
    ensures var e := s.books.pools[o.pool];
            var found := ResolveEvidence(s.pressure, s.policies, s.epoch, e, t);
            && (found.reason == OK <==>
                  0 < o.ttl && o.observedAt <= t <= o.observedAt + o.ttl && (o.assertCommitted ==> o.committed == e.ownUsage))
            && (found.reason != OK ==> found == Evidence(Stale, STALE_EVIDENCE))
  {
    hide Classify;
  }

  /** An observation that is accepted is in force for its pool alone; one that is not leaves
      all evidence as it was. */
  lemma ObserveMeans(s: Fabric, request: PressureSnapshot, now: u64)
    requires Inv(s)
    ensures var (s', code) := ObservePressure(s, request, now);
            && SameBooks(s.books, s'.books)
            && (code == OK ==>
                  && request.pool in s.books.pools && EvidenceInForce(s', Observed(s, request, now))
                  && OthersResolveAlike(s, s', request.pool))
            && (code != OK ==> s'.pressure == s.pressure)
  {
    hide ResolveEvidence, Agrees, Forest, Indexed, RecordsOk, InRange, IsFresh;
    var (s', code) := ObservePressure(s, request, now);
    if code == OK {
      var o := Observed(s, request, now);
      assert PoolOk(s.books.pools[o.pool], o.pool);
      forall t: u64 { EvidenceResolves(s', o, t); }
      forall k, t: u64 | k in s.books.pools && k != o.pool
        ensures ResolveEvidence(s'.pressure, s'.policies, s'.epoch, s'.books.pools[k], t)
             == ResolveEvidence(s.pressure, s.policies, s.epoch, s.books.pools[k], t)
      {
        assert PoolOk(s.books.pools[k], k);
        ResolvesAlike(s, s', o, k, t);
      }
    }
  }

  lemma ResolvesAlike(s: Fabric, s': Fabric, o: PressureSnapshot, k: u64, t: u64)
    requires k in s.books.pools && s.books.pools[k].descriptor.id == k && k != o.pool
    requires s'.pressure == s.pressure[o.pool := o] && s'.policies == s.policies && s'.epoch == s.epoch
    ensures ResolveEvidence(s'.pressure, s'.policies, s'.epoch, s.books.pools[k], t)
         == ResolveEvidence(s.pressure, s.policies, s.epoch, s.books.pools[k], t)
  {
    hide Classify;
  }
}
