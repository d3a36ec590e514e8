/** What allocate, commit, release and revalidate do to a ledger in order. */
module AllocationSteps {
  import opened Arithmetic
  import opened Sums
  import opened Pressure
  import opened Model
  import opened Attempts
  import opened Grants
  import opened Ledger
  import opened Aggregates
  import opened Invariant
  import opened Transitions
  import opened Lending
  import opened Split

  // ----- Allocate -----

  lemma QueueBucketsBounded(pools: Pools, records: Records, p: u64, q: u64)
    requires Agrees(pools, records) && p in pools
    ensures Bucket(pools[p].queueReserved, q) <= pools[p].reserved
    ensures Bucket(pools[p].queueCommitted, q) <= pools[p].committed
  {
    SumMonotone(records.Keys, Share(records, InQueueReserved(q), p), Share(records, InReserved, p));
    SumMonotone(records.Keys, Share(records, InQueueCommitted(q), p), Share(records, InCommitted, p));
    assert Field(pools[p], InQueueReserved(q)) == Total(records, InQueueReserved(q), p);
    assert Field(pools[p], InQueueCommitted(q)) == Total(records, InQueueCommitted(q), p);
    assert Field(pools[p], InReserved) == Total(records, InReserved, p);
    assert Field(pools[p], InCommitted) == Total(records, InCommitted, p);
  }

  /** Storing an affordable record succeeds: no error branch of apply_commit_units is
      reached, for the owner or for the lender. */
  lemma StoreEffect(b: Books, r: Allocation)
    requires Agrees(b.pools, b.allocations) && InRange(b.pools) && PoolsOk(b.pools) && Affordable(b.pools, r)
    ensures StoreRecord(b, r).1 == OK
    ensures var b' := StoreRecord(b, r).0;
            Extended(b.pools, b'.pools, r) && b'.pools[r.pool] == Charged(b.pools[r.pool], r) && Stored(b, b', r)
  {
    EntryFacts(b.pools, b.allocations, r.pool);
    QueueBucketsBounded(b.pools, b.allocations, r.pool, r.queue);
    assert RoomFor(b.pools[r.pool], r);
    if r.borrow != 0 {
      EntryFacts(b.pools, b.allocations, r.lender);
      assert PoolOk(b.pools[r.lender], r.lender);
    }
    StoreRecordEffect(b, r);
  }

  lemma UnitsWithinMaximum(pools: Pools, e: PoolEntry, queue: Queue, policy: Policy, state: PressureState, units: u64)
    ensures var grant := AllocateUnits(pools, e, queue, policy, state, units);
            && grant <= units && grant <= ComputeGrant(pools, e, policy).maxGrant
            && (queue.maxCommitted != 0 && grant != 0 ==> QueueHeld(e, queue.id) + grant <= queue.maxCommitted)
  {
  }

  /** A record is bound to the generations and epoch in force. */
  ghost predicate BoundNow(s: Fabric, r: Allocation) {
    && r.pool in s.books.pools && s.books.pools[r.pool].descriptor.policy in s.policies && r.queue in s.queues
    && var e := s.books.pools[r.pool];
       && r.bound.poolGeneration == e.descriptor.generation && r.bound.capacityGeneration == e.capacityGeneration
       && r.bound.policyGeneration == s.policies[e.descriptor.policy].generation && r.bound.epoch == s.epoch
       && r.bound.queueGeneration == s.queues[r.queue].generation
  }

  /** The units decided on respect the grant arithmetic and the queue's hard cap. */
  ghost predicate Grantable(s: Fabric, q: AllocateRequest, grant: u64) {
    && q.pool in s.books.pools && q.queue in s.queues && s.books.pools[q.pool].descriptor.policy in s.policies
    && var e, queue := s.books.pools[q.pool], s.queues[q.queue];
       && 0 < grant <= q.units <= MAX_UNITS && |s.books.allocations| < MAX_ALLOCATIONS
       && grant <= ComputeGrant(s.books.pools, e, s.policies[e.descriptor.policy]).maxGrant
       && (queue.maxCommitted != 0 ==> QueueHeld(e, queue.id) + grant <= queue.maxCommitted)
       && queue.pool == e.descriptor.id
  }

  lemma DraftIsAffordable(s: Fabric, q: AllocateRequest, grant: u64, now: u64)
    requires Inv(s) && Grantable(s, q, grant) && DraftRecord(s, q, grant, now).Drafted?
    ensures var r := DraftRecord(s, q, grant, now).record;
            && Affordable(s.books.pools, r) && r.pool == q.pool && r.queue == q.queue && r.units == grant
            && r.id == s.books.nextAllocation && s.books.nextAllocation + 1 < TWO64
  {
    var e := s.books.pools[q.pool];
    GrantBounds(s.books.pools, q.pool, s.policies[e.descriptor.policy], grant);
    AddOverflowIsExact(s.books.nextAllocation, 1);
    assert PoolOk(e, q.pool);
    assert e.ownUsage <= TWO61 && e.borrowedIn <= TWO60;
  }

  lemma DraftIsBound(s: Fabric, q: AllocateRequest, grant: u64, now: u64)
    requires PoolsOk(s.books.pools) && QueuesOk(s.queues) && Grantable(s, q, grant) && DraftRecord(s, q, grant, now).Drafted?
    ensures BoundNow(s, DraftRecord(s, q, grant, now).record)
  {
  }

  /** The plan verified before journaling and the closure verified afterwards look at the
      same numbers, so once a plan passes the closure check cannot fail. */
  lemma PlanDecidesClosure(e: PoolEntry, r: Allocation, limit: u64)
    requires r.Holds()
    ensures AccountingOf(Charged(e, r), limit) == AccountingOf(PlannedEntry(e, r), limit)
  {
    hide AdjustBucket, PlannedEntry, Charged, Wrap;
    ChargedAsPlanned(e, r);
  }

  lemma ChargedAsPlanned(e: PoolEntry, r: Allocation)
    requires r.Holds()
    ensures var a, b := Charged(e, r), PlannedEntry(e, r);
            && a.descriptor == b.descriptor && a.reserved == b.reserved && a.committed == b.committed && a.pinned == b.pinned
            && a.reclaimable == b.reclaimable && a.ownUsage == b.ownUsage && a.borrowedIn == b.borrowedIn && a.lentOut == b.lentOut
  {
    hide AdjustBucket;
  }

  /** A grant is all or nothing: the record is stored and remembered, or nothing changes. */
  lemma GrantAndStoreShape(s: Fabric, q: AllocateRequest, grant: u64, now: u64, r: Allocation)
    requires q.pool in s.books.pools && q.queue in s.queues && s.books.pools[q.pool].descriptor.policy in s.policies
    requires DraftRecord(s, q, grant, now) == Drafted(r)
    requires r.pool == q.pool && StoreRecord(s.books, r).1 == OK && r.Holds()
    requires q.pool in StoreRecord(s.books, r).0.pools
    requires StoreRecord(s.books, r).0.pools[q.pool] == Charged(s.books.pools[q.pool], r)
    ensures var (s', outcome) := GrantAndStore(s, q, grant, now);
            && (outcome.Failed? ==> s' == s && outcome.code == INVARIANT_VIOLATION)
            && (outcome.Decided? ==>
                  && s'.books == StoreRecord(s.books, r).0 && SameTables(s, s') && s'.shuttingDown == s.shuttingDown
                  && outcome.granted == grant && outcome.allocation == r.id && outcome.status == OK
                  && PoolCloses(s.policies, s'.books.pools[q.pool]))
            && (outcome.Decided? <==> PoolCloses(s.policies, Charged(s.books.pools[q.pool], r)))
  {
    hide Closes, PlannedEntry, StoreRecord, DraftRecord, Record;
    var policy := s.policies[s.books.pools[q.pool].descriptor.policy];
    PlanDecidesClosure(s.books.pools[q.pool], r, policy.Allowance());
    assert Charged(s.books.pools[q.pool], r).descriptor == s.books.pools[q.pool].descriptor;
  }

  /** A record was granted: what it draws on can afford it, it is well formed, bound to
      the present, within its queue's cap, and its pool closes. */
  ghost predicate Entered(s: Fabric, s': Fabric, r: Allocation) {
    && SameTables(s, s') && EnteredBooks(s.books, s'.books, r) && HolderOk(r, s.books.pools, s.queues)
    && |s.books.allocations| < MAX_ALLOCATIONS
    && BoundNow(s, r)
    && (s.queues[r.queue].maxCommitted != 0 ==>
          QueueHeld(s.books.pools[r.pool], r.queue) + r.units <= s.queues[r.queue].maxCommitted)
    && r.pool in s'.books.pools && PoolCloses(s.policies, s'.books.pools[r.pool])
  }

  lemma GrantAndStoreStep(s: Fabric, q: AllocateRequest, grant: u64, now: u64)
    requires Inv(s) && Grantable(s, q, grant)
    ensures var (s', outcome) := GrantAndStore(s, q, grant, now);
            && s'.shuttingDown == s.shuttingDown
            && (outcome.Failed? ==> s' == s)
            && (outcome.Decided? ==>
                  exists r :: Entered(s, s', r) && r.units == outcome.granted == grant && r.id == outcome.allocation)
            && (outcome.Decided? ==>
                  DraftRecord(s, q, grant, now).Drafted? && Entered(s, s', DraftRecord(s, q, grant, now).record))
            && (DraftRecord(s, q, grant, now).Drafted? ==>
                  PoolCloses(s.policies, Charged(s.books.pools[q.pool], DraftRecord(s, q, grant, now).record)) ==> outcome.Decided?)
  {
    var draft := DraftRecord(s, q, grant, now);
    if draft.Drafted? {
      var r := draft.record;
      DraftIsAffordable(s, q, grant, now);
      DraftIsBound(s, q, grant, now);
      StoreEffect(s.books, r);
      GrantAndStoreShape(s, q, grant, now, r);
      var (s', outcome) := GrantAndStore(s, q, grant, now);
      if outcome.Decided? { assert Entered(s, s', r); }
    }
  }

  lemma DecisionIsSound(s: Fabric, q: AllocateRequest, now: u64)
    requires Inv(s) && AllocateAdmission(s, q) == OK && AllocateBindings(s, q) == OK && Decide(s, q, now).Give?
    ensures Grantable(s, q, Decide(s, q, now).units)
  {
    hide AllocateUnits, ResolveEvidence, ComputeGrant, BooksOk;
    var e := s.books.pools[q.pool];
    UnitsWithinMaximum(s.books.pools, e, s.queues[q.queue], s.policies[e.descriptor.policy],
                       ResolveEvidence(s.pressure, s.policies, s.epoch, e, now).state, q.units);
  }

  /** Allocate, for every request: either the books stay as they are, or one record is
      granted. By itself it never forces a shutdown. */
  lemma AllocateStep(s: Fabric, q: AllocateRequest, now: u64)
    requires Inv(s)
    ensures var s' := Allocate(s, q, now).0;
            s'.shuttingDown == s.shuttingDown && (Still(s, s') || exists r :: Entered(s, s', r))
  {
    if AllocateAdmission(s, q) == OK && !Find(s.attempts, q.attempt, q.digest).Replay? && AllocateBindings(s, q) == OK {
      var verdict := Decide(s, q, now);
      if verdict.Give? {
        DecisionIsSound(s, q, now);
        GrantAndStoreStep(s, q, verdict.units, now);
      }
    }
  }

  /** Whenever the soft limit does not apply, evaluate reports a grant of n units exactly
      when an allocate of the same request decides on n units. */
  lemma EvaluateAgrees(s: Fabric, q: AllocateRequest, now: u64, n: u64)
    requires PoolsOk(s.books.pools) && AllocateAdmission(s, q) == OK && AllocateBindings(s, q) == OK
    requires var e := s.books.pools[q.pool];
             !SoftLimitApplies(e, s.policies[e.descriptor.policy],
                               ResolveEvidence(s.pressure, s.policies, s.epoch, e, now).state)
    ensures var outcome := Evaluate(s, q.pool, q.queue, q.units, q.expectedEpoch, now);
            Decide(s, q, now) == Give(n) <==>
            n != 0 && outcome == Decided(if n == q.units then Granted else GrantedPartial, OK, n, 0)
  {
    hide ComputeGrant, QueueCap, PolicyCap, ResolveEvidence;
    var e := s.books.pools[q.pool];
    var policy := s.policies[e.descriptor.policy];
    EvaluateMatchesAllocate(s.books.pools, e, s.queues[q.queue], policy,
                            ResolveEvidence(s.pressure, s.policies, s.epoch, e, now).state, q.units);
  }

  lemma EnteredDiffers(s: Fabric, s': Fabric, r: Allocation)
    requires Entered(s, s', r)
    ensures s'.books != s.books
  {
    hide HolderOk, BoundNow, PoolCloses, Extended;
  }

  lemma EnteredKeepsInv(s: Fabric, s': Fabric, r: Allocation)
    requires Inv(s) && NextIdFree(s.books) && Entered(s, s', r)
    ensures Inv(s')
  {
    EnteredKeepsBooks(s.books, s'.books, s.queues, r);
  }

  // ----- Commit -----

  lemma SameElsewhere(r: Allocation, r': Allocation, a: Aggregate, p: u64)
    requires r.Holds() && p != r.pool
    requires r' == r.(state := Committed, lastTouched := r'.lastTouched, revision := r'.revision)
    ensures Contribution(r', a, p) == Contribution(r, a, p)
  {
  }

  lemma CommitEntryMoves(pools: Pools, records: Records, id: u64, r': Allocation)
    requires Agrees(pools, records) && InRange(pools) && id in records && records[id].state.Reserved?
    requires records[id].pool in pools && records[id].units <= MAX_UNITS
    requires r' == records[id].(state := Committed, lastTouched := r'.lastTouched, revision := r'.revision)
    ensures var r := records[id];
            var after := pools[r.pool := CommitEntry(pools[r.pool], r)];
            SameTopology(pools, after) && Moved(pools, after, r, r')
  {
    var r := records[id];
    var e := pools[r.pool];
    var after := pools[r.pool := CommitEntry(e, r)];
    EntryFacts(pools, records, r.pool);
    QueueBucketsBounded(pools, records, r.pool, r.queue);
    TotalCovers(records, id, InReserved, r.pool);
    TotalCovers(records, id, InQueueReserved(r.queue), r.pool);
    assert Field(e, InReserved) == Total(records, InReserved, r.pool);
    assert Field(e, InQueueReserved(r.queue)) == Total(records, InQueueReserved(r.queue), r.pool);
    forall p, a | p in pools ensures Field(after[p], a) == Field(pools[p], a) - Contribution(r, a, p) + Contribution(r', a, p) {
      if p == r.pool { CommitEntryFields(e, r, r', a); } else { SameElsewhere(r, r', a, p); }
    }
  }

  /** Promoting a reservation moves its units from reserved to committed, and nothing else. */
  lemma PromotedKeepsBooks(b: Books, queues: map<u64, Queue>, id: u64, now: u64)
    requires BooksOk(b, queues) && id in b.allocations && b.allocations[id].state.Reserved?
    ensures ReplacedBooks(b, Promoted(b, id, now), id, Marked(b.allocations[id], Committed, now))
    ensures BooksOk(Promoted(b, id, now), queues)
  {
    var b', r' := Promoted(b, id, now), Marked(b.allocations[id], Committed, now);
    CommitEntryMoves(b.pools, b.allocations, id, r');
    ReplacedKeepsBooks(b, b', queues, id, r');
  }

  lemma SettleShape(s: Fabric, p: u64, kind: AttemptKind, attempt: u64, digest: Digest, allocation: u64,
                    units: u64, now: u64, closes: bool)
    requires p in s.books.pools && PoolCloses(s.policies, s.books.pools[p]) == closes
    ensures var (s', outcome) := Settle(s, p, kind, attempt, digest, allocation, units, now);
            && Still(s, s')
            && outcome == (if closes then Decided(NoOp, OK, units, allocation) else Failed(ACCOUNTING_VIOLATION))
            && s'.shuttingDown == (s.shuttingDown || !closes)
  {
  }

  /** Settling forces a shutdown exactly when the pool's own usage exceeds its allowance. */
  ghost predicate Settled(s: Fabric, p: u64, res: (Fabric, Outcome), allocation: u64, units: u64)
    requires p in s.books.pools && s.books.pools[p].descriptor.policy in s.policies
  {
    var within := WithinAllowance(s.books.pools[p], s.policies[s.books.pools[p].descriptor.policy]);
    && Still(s, res.0)
    && res.1 == (if within then Decided(NoOp, OK, units, allocation) else Failed(ACCOUNTING_VIOLATION))
    && res.0.shuttingDown == (s.shuttingDown || !within)
  }

  lemma SettleStep(s: Fabric, p: u64, kind: AttemptKind, attempt: u64, digest: Digest, allocation: u64,
                   units: u64, now: u64)
    requires Inv(s) && p in s.books.pools
    ensures Settled(s, p, Settle(s, p, kind, attempt, digest, allocation, units, now), allocation, units)
  {
    ClosureIff(s, p);
    SettleShape(s, p, kind, attempt, digest, allocation, units, now, PoolCloses(s.policies, s.books.pools[p]));
  }

  /** Commit, for every request: the books stay as they are, or the reservation is
      promoted; in the latter case a shutdown follows exactly when the pool's own usage is
      already beyond its allowance. */
  ghost predicate Committing(s: Fabric, q: CommitRequest, now: u64) {
    && ExistingAdmission(s, q.attempt, q.digest, q.allocation) == OK
    && !Find(s.attempts, q.attempt, q.digest).Replay? && CommitGuard(s, q) == OK
  }

  lemma CommitStep(s: Fabric, q: CommitRequest, now: u64)
    requires Inv(s)
    ensures !Committing(s, q, now) ==> Commit(s, q, now).0 == s
    ensures Committing(s, q, now) ==>
              var r := s.books.allocations[q.allocation];
              var s1 := s.(books := Promoted(s.books, q.allocation, now));
              Inv(s1) && r.pool in s1.books.pools && Settled(s1, r.pool, Commit(s, q, now), r.id, r.units)
  {
    if Committing(s, q, now) {
      var r := s.books.allocations[q.allocation];
      var b := Promoted(s.books, q.allocation, now);
      PromotedKeepsBooks(s.books, s.queues, q.allocation, now);
      SettleStep(s.(books := b), r.pool, CommitAttempt, q.attempt, q.digest, r.id, r.units, now);
    }
  }

  // ----- Release -----

  lemma HalvesCovered(pools: Pools, records: Records, id: u64, release: u64, now: u64)
    requires Agrees(pools, records) && id in records && records[id].Holds()
    requires 0 < records[id].units <= MAX_UNITS && records[id].borrow <= records[id].units
    requires 0 < release <= records[id].units && SplitHolds(records[id], release)
    ensures Covers(pools, ReleasedHalf(records[id], release, now))
  {
    var out := ReleasedHalf(records[id], release, now);
    forall p, a | p in pools ensures Contribution(out, a, p) <= Field(pools[p], a) {
      SplitContributions(records[id], release, now, a, p);
      TotalCovers(records, id, a, p);
      assert Field(pools[p], a) == Total(records, a, p);
    }
  }

  lemma HalvesMove(pools: Pools, after: Pools, r: Allocation, release: u64, now: u64)
    requires r.Holds() && 0 < r.units <= MAX_UNITS && r.borrow <= r.units
    requires 0 < release <= r.units && SplitHolds(r, release)
    requires Returned(pools, after, ReleasedHalf(r, release, now))
    ensures Moved(pools, after, r, RemainingHalf(r, release, now))
  {
    forall p, a | p in pools
      ensures Field(after[p], a) == Field(pools[p], a) - Contribution(r, a, p)
                                    + Contribution(RemainingHalf(r, release, now), a, p)
    {
      SplitContributions(r, release, now, a, p);
    }
  }

  lemma ReturningShape(b: Books, queues: map<u64, Queue>, id: u64, release: u64, now: u64)
    requires Agrees(b.pools, b.allocations) && id in b.allocations && b.allocations[id].Holds()
    requires HolderOk(b.allocations[id], b.pools, queues)
    requires 0 < release <= b.allocations[id].units && SplitHolds(b.allocations[id], release)
    ensures Returning(b, id, release, now).1 == OK
    ensures var b' := Returning(b, id, release, now).0;
            var left := RemainingHalf(b.allocations[id], release, now);
            && Returned(b.pools, b'.pools, ReleasedHalf(b.allocations[id], release, now))
            && b'.allocations == b.allocations[id := left] && b'.nextAllocation == b.nextAllocation
            && b'.journal == b.journal + [AllocationUpsert(OpReleased, left)]
  {
    var out := ReleasedHalf(b.allocations[id], release, now);
    HalvesCovered(b.pools, b.allocations, id, release, now);
    SplitConserves(b.allocations[id], release, now);
    ReleaseUnitsEffect(b.pools, out);
  }

  lemma ReturnedFrame(pools: Pools, after: Pools, records: Records, out: Allocation, left: Allocation)
    requires InRange(pools) && Indexed(pools, records) && out.id in records && records[out.id].pool == out.pool
    requires Returned(pools, after, out)
    ensures InRange(after) && Indexed(after, records[out.id := left])
  {
    forall p | p in after ensures after[p].ownUsage <= TWO61 && after[p].borrowedIn <= TWO60 {
      assert Field(after[p], InOwn) == Field(pools[p], InOwn) - Contribution(out, InOwn, p);
      assert Field(after[p], InBorrowed) == Field(pools[p], InBorrowed) - Contribution(out, InBorrowed, p);
    }
    forall p, k | p in after && k in after[p].members
      ensures k in records[out.id := left] && records[out.id := left][k].Holds() && records[out.id := left][k].pool == p
    {
      assert k in pools[p].members;
    }
  }

  /** Returning any part of a holder keeps the books in order, provided the split holds. */
  lemma ReturningKeepsBooks(b: Books, queues: map<u64, Queue>, id: u64, release: u64, now: u64)
    requires BooksOk(b, queues) && id in b.allocations && b.allocations[id].Holds()
    requires 0 < release <= b.allocations[id].units && SplitHolds(b.allocations[id], release)
    ensures Returning(b, id, release, now).1 == OK
    ensures ReplacedBooks(b, Returning(b, id, release, now).0, id, RemainingHalf(b.allocations[id], release, now))
    ensures BooksOk(Returning(b, id, release, now).0, queues)
  {
    var r := b.allocations[id];
    ReturningShape(b, queues, id, release, now);
    var b', left := Returning(b, id, release, now).0, RemainingHalf(r, release, now);
    SplitConserves(r, release, now);
    HalvesMove(b.pools, b'.pools, r, release, now);
    ReturnedFrame(b.pools, b'.pools, b.allocations, ReleasedHalf(r, release, now), left);
    ReplacedKeepsBooks(b, b', queues, id, left);
  }

  lemma ReleasedBorrow(pools: Pools, r: Allocation)
    requires r.pool in pools && ReleaseUnits(pools, r).1 == OK
    ensures ReleaseUnits(pools, r).0[r.pool].borrowedIn == pools[r.pool].borrowedIn - r.Borrowed()
  {
  }

  lemma ReturningParts(b: Books, id: u64, release: u64, now: u64)
    requires id in b.allocations && b.allocations[id].pool in b.pools && b.allocations[id].units != 0
    requires Returning(b, id, release, now).1 == OK
    ensures var r, b' := b.allocations[id], Returning(b, id, release, now).0;
            && r.pool in b'.pools && b'.allocations == b.allocations[id := RemainingHalf(r, release, now)]
            && b'.pools[r.pool].borrowedIn == b.pools[r.pool].borrowedIn - ReleasedHalf(r, release, now).Borrowed()
  {
    hide ReleaseUnits, RemainingHalf;
    ReleasedBorrow(b.pools, ReleasedHalf(b.allocations[id], release, now));
  }

  /** The hypothesis on a partial release is exact: returning part of a holder succeeds and
      leaves the totals in agreement with the records if and only if its split holds. */
  lemma ReturningAgreesIff(b: Books, queues: map<u64, Queue>, id: u64, release: u64, now: u64)
    requires BooksOk(b, queues) && id in b.allocations && b.allocations[id].Holds()
    requires 0 < release <= b.allocations[id].units
    ensures b.allocations[id].pool in b.pools
    ensures Returning(b, id, release, now).1 == OK
            && Agrees(Returning(b, id, release, now).0.pools, Returning(b, id, release, now).0.allocations)
       <==> SplitHolds(b.allocations[id], release)
  {
    hide Returning, RemainingHalf, ReleasedHalf, ReturnedBorrow, Forest, Indexed, Total;
    var r := b.allocations[id];
    assert HolderOk(r, b.pools, queues);
    if SplitHolds(r, release) {
      ReturningKeepsBooks(b, queues, id, release, now);
    } else if Returning(b, id, release, now).1 == OK {
      SplitLoses(r, release, now);
      ReturningParts(b, id, release, now);
      SamePool(r, release, now);
      var b', left := Returning(b, id, release, now).0, RemainingHalf(r, release, now);
      TotalReplaced(b.allocations, id, left, InBorrowed, r.pool);
      assert Field(b.pools[r.pool], InBorrowed) == Total(b.allocations, InBorrowed, r.pool);
      assert Field(b'.pools[r.pool], InBorrowed) != Total(b'.allocations, InBorrowed, r.pool);
    }
  }

  lemma SamePool(r: Allocation, release: u64, now: u64)
    requires r.units != 0
    ensures RemainingHalf(r, release, now).pool == r.pool
  {
  }

  /** The units a release request asks for, given the record. */
  function Asked(r: Allocation, q: ReleaseRequest): u64 { if q.releaseAll then r.units else q.units }

  /** The request reaches the point where units are returned. */
  ghost predicate Releasing(s: Fabric, q: ReleaseRequest) {
    && ExistingAdmission(s, q.attempt, q.digest, q.allocation) == OK
    && !Find(s.attempts, q.attempt, q.digest).Replay? && !Mismatch(q.expectedEpoch, s.epoch)
    && var r := s.books.allocations[q.allocation];
       r.Holds() && 0 < Asked(r, q) <= r.units
  }

  lemma ReleaseIdle(s: Fabric, q: ReleaseRequest, now: u64)
    requires !Releasing(s, q)
    ensures Still(s, Release(s, q, now).0) && Release(s, q, now).0.shuttingDown == s.shuttingDown
  {
    hide Record, Settle, Returning;
  }

  lemma ReleaseShape(s: Fabric, q: ReleaseRequest, now: u64)
    requires Releasing(s, q)
    ensures var r := s.books.allocations[q.allocation];
            var (b, code) := Returning(s.books, q.allocation, Asked(r, q), now);
            code == OK ==> Release(s, q, now)
                           == Settle(s.(books := b), r.pool, ReleaseAttempt, q.attempt, q.digest, r.id, Asked(r, q), now)
  {
  }

  lemma ReleaseStep(s: Fabric, q: ReleaseRequest, now: u64)
    requires Inv(s) && Releasing(s, q)
    requires SplitHolds(s.books.allocations[q.allocation], Asked(s.books.allocations[q.allocation], q))
    ensures var r := s.books.allocations[q.allocation];
            var s1 := s.(books := Returning(s.books, q.allocation, Asked(r, q), now).0);
            Inv(s1) && r.pool in s1.books.pools && Settled(s1, r.pool, Release(s, q, now), r.id, Asked(r, q))
  {
    var r := s.books.allocations[q.allocation];
    var b := Returning(s.books, q.allocation, Asked(r, q), now).0;
    ReturningKeepsBooks(s.books, s.queues, q.allocation, Asked(r, q), now);
    ReleaseShape(s, q, now);
    SettleStep(s.(books := b), r.pool, ReleaseAttempt, q.attempt, q.digest, r.id, Asked(r, q), now);
  }

  // ----- Revalidate -----

  lemma ReboundKeepsBooks(b: Books, queues: map<u64, Queue>, id: u64, bound: Bound, now: u64)
    requires BooksOk(b, queues) && id in b.allocations && b.allocations[id].Holds()
    ensures var b' := Rebound(b, id, bound, now);
            BooksOk(b', queues) && ReplacedBooks(b, b', id, b'.allocations[id])
  {
    var b', r := Rebound(b, id, bound, now), b.allocations[id];
    var r' := b'.allocations[id];
    forall p, a | p in b.pools ensures Contribution(r', a, p) == Contribution(r, a, p) {
    }
    ReplacedKeepsBooks(b, b', queues, id, r');
  }

  /** The request reaches the point where the binding is renewed. */
  ghost predicate Revalidating(s: Fabric, q: RevalidateRequest) {
    && ExistingAdmission(s, q.attempt, q.digest, q.allocation) == OK
    && !Find(s.attempts, q.attempt, q.digest).Replay? && !Mismatch(q.expectedEpoch, s.epoch)
    && var r := s.books.allocations[q.allocation];
       var e := s.books.pools[r.pool];
       && r.Holds() && s.queues[r.queue].pool == e.descriptor.id
       && !StaleBinding(r, CurrentFor(e, s.policies[e.descriptor.policy], s.epoch))
  }

  ghost function RenewedFor(s: Fabric, id: u64): Bound
    requires id in s.books.allocations && s.books.allocations[id].pool in s.books.pools
    requires s.books.pools[s.books.allocations[id].pool].descriptor.policy in s.policies
    requires s.books.allocations[id].queue in s.queues
  {
    var r := s.books.allocations[id];
    var e := s.books.pools[r.pool];
    Renewed(r.bound, CurrentFor(e, s.policies[e.descriptor.policy], s.epoch), s.queues[r.queue].generation, s.boot)
  }

  lemma RevalidateIdle(s: Fabric, q: RevalidateRequest, now: u64)
    requires !Revalidating(s, q)
    ensures Still(s, Revalidate(s, q, now).0) && Revalidate(s, q, now).0.shuttingDown == s.shuttingDown
  {
  }

  lemma RevalidateShape(s: Fabric, q: RevalidateRequest, now: u64)
    requires Revalidating(s, q)
    ensures Still(s.(books := Rebound(s.books, q.allocation, RenewedFor(s, q.allocation), now)), Revalidate(s, q, now).0)
    ensures Revalidate(s, q, now).0.shuttingDown == s.shuttingDown
  {
  }
}
