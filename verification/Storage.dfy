/** What a reachable fabric owes its snapshots: tables within the bounds enforced on
    reading, entries under their own keys, and counters that never return to zero. */
module Storage {
  import opened Arithmetic
  import opened Model
  import opened Attempts
  import opened Grants
  import opened Ledger
  import opened Topology
  import opened Reclaim
  import opened Invariant
  import opened AllocationSteps
  import opened TopologySteps
  import opened Steps
  import opened Runs
  import opened Ids
  import opened Lifecycle
  import opened Replays

  /** Counts within the bounds enforced on reading, of the tables the change relation speaks
      of; capacities are not bounded. */
  ghost predicate TablesCounted(s: Fabric) {
    && |s.policies| <= MAX_POLICIES && |s.books.pools| <= MAX_POOLS && |s.queues| <= MAX_QUEUES
    && |s.books.allocations| <= MAX_ALLOCATIONS && s.books.nextAllocation != 0
  }

  /** Records within the unit bound and capacities under their own keys. */
  ghost predicate TablesKeyed(s: Fabric) {
    && (forall id :: id in s.books.allocations ==> s.books.allocations[id].units <= MAX_UNITS)
    && (forall k :: k in s.capacities ==> s.capacities[k].resource == k)
  }

  ghost predicate TablesFit(s: Fabric) { TablesCounted(s) && TablesKeyed(s) }

  /** The decision counter is left out: it is only a label, and it may wrap to zero. */
  predicate CountersLive(c: Counters) { c.nextPool != 0 && c.nextQueue != 0 && c.nextPolicy != 0 && c.nextSnapshot != 0 }

  /** Evidence is of pools that exist, one observation each. */
  ghost predicate EvidenceFits(s: Fabric) {
    forall p :: p in s.pressure ==> p in s.books.pools && s.pressure[p].pool == p
  }

  ghost predicate Storable(s: Fabric) {
    && TablesFit(s) && CountersLive(s.counters) && EvidenceFits(s)
    && Consistent(s.attempts) && s.attempts.capacity <= MAX_ATTEMPTS
  }

  ghost predicate MemoryKeyed(m: AttemptMemory) { forall id :: id in m.records ==> m.records[id].id == id }

  ghost predicate EvidenceKeyed(s: Fabric) { forall p :: p in s.pressure ==> s.pressure[p].pool == p }

  /** Every entry is under its own key and within the unit bound. This much a recovered fabric
      has too, whatever its journal kept of removed pools. */
  ghost predicate Savable(s: Fabric) { TablesKeyed(s) && EvidenceKeyed(s) && MemoryKeyed(s.attempts) }

  lemma StorableSavable(s: Fabric)
    requires Storable(s)
    ensures Savable(s)
  {
  }

  /** A newly opened fabric is storable; open() bounds the attempt memory. */
  lemma EmptyStorable(config: Config, epoch: u64, boot: Boot, memory: nat)
    requires memory <= MAX_ATTEMPTS
    ensures Storable(Empty(config, epoch, boot, memory))
  {
  }

  // ----- Tables -----

  /** Old records keep their units or lose some. */
  lemma RecordsKeyed(s: Fabric, s': Fabric)
    requires TablesKeyed(s) && AllAdvance(s.books.allocations, s'.books.allocations)
    requires s'.books.allocations.Keys == s.books.allocations.Keys && s'.capacities == s.capacities
    ensures TablesKeyed(s')
  {
    forall id | id in s'.books.allocations ensures s'.books.allocations[id].units <= MAX_UNITS {
      assert Advances(s.books.allocations[id], s'.books.allocations[id]);
    }
  }

  lemma CapacityKeyed(s: Fabric, s': Fabric, c: Capacity, now: u64)
    requires Changes(s, s', NewCapacity(c), now) && TablesKeyed(s)
    ensures TablesKeyed(s')
  {
    hide CapacityFits;
  }

  /** Whatever the change, entries stay under their keys and within the unit bound. */
  lemma ChangeKeyed(s: Fabric, s': Fabric, c: Change, now: u64)
    requires Inv(s) && Changes(s, s', c, now) && TablesKeyed(s)
    ensures TablesKeyed(s')
  {
    hide Inv, PoolAdded, PoolDropped, ResizedTo, RetiredBy, RetargetedTo, Published, Promoted, Returning, Rebound, Becomes, Entered;
    hide AllAdvance;
    match c
    case Enter(r) => EnteredShape(s, s', r);
    case NewCapacity(capacity) => CapacityKeyed(s, s', capacity, now);
    case _ =>
      ChangeAdvances(s, s', c, now);
      ChangeKeys(s, s', c, now);
      RecordsKeyed(s, s');
  }

  lemma EnterCounted(s: Fabric, s': Fabric, r: Allocation)
    requires TablesCounted(s) && Entered(s, s', r)
    ensures TablesCounted(s') && s'.books.pools.Keys == s.books.pools.Keys
  {
    hide Entered;
    EnteredShape(s, s', r);
    GrownCount(s.books.allocations, r.id, r);
    assert |s'.books.pools| == |s'.books.pools.Keys| == |s.books.pools.Keys|;
  }

  /** A change other than a grant or a pool leaving or joining keeps the tables' sizes. */
  lemma SteadyKeys(s: Fabric, s': Fabric, c: Change, now: u64)
    requires Inv(s) && Changes(s, s', c, now) && TablesCounted(s)
    requires !c.Enter? && !c.AddPool? && !c.DropPool? && !c.NewCapacity?
    ensures SameKeys(s, s') && |s'.policies| <= MAX_POLICIES && |s'.queues| <= MAX_QUEUES
  {
    hide Inv, ResizedTo, RetiredBy, RetargetedTo, Published, Promoted, Returning, Rebound, Becomes;
    match c
    case Nothing =>
    case Promote(_) => RewriteKeys(s, s', c, now);
    case GiveBack(_, _) => RewriteKeys(s, s', c, now);
    case Rebind(_) => RewriteKeys(s, s', c, now);
    case Shed(ids, sel, to) => ShedKeys(s, s', ids, sel, to, now);
    case NewPolicy(policy, order) => PublishKeys(s, s', policy, order, now);
    case Resize(p, raw, protected) => ResizeKeys(s, s', p, raw, protected, now);
    case AddQueue(q) => GrownCount(s.queues, q.id, q);
    case EditDemand(q) => GrownCount(s.queues, q.id, q);
    case Retire(id) => RetireKeys(s, s', id, now);
    case Retarget(id, target) => RetargetKeys(s, s', id, target, now);
  }

  lemma SteadyCounted(s: Fabric, s': Fabric, c: Change, now: u64)
    requires Inv(s) && Changes(s, s', c, now) && TablesCounted(s)
    requires !c.Enter? && !c.AddPool? && !c.DropPool? && !c.NewCapacity?
    ensures TablesCounted(s') && s'.books.pools.Keys == s.books.pools.Keys
  {
    hide Inv, Changes;
    SteadyKeys(s, s', c, now);
    assert |s'.books.pools| == |s'.books.pools.Keys| == |s.books.pools.Keys|;
    assert |s'.books.allocations| == |s'.books.allocations.Keys| == |s.books.allocations.Keys|;
  }

  lemma CapacityCounted(s: Fabric, s': Fabric, c: Capacity, now: u64)
    requires Changes(s, s', NewCapacity(c), now) && TablesCounted(s)
    ensures TablesCounted(s') && s'.books.pools.Keys == s.books.pools.Keys
  {
    hide CapacityFits;
  }

  lemma AddPoolCounted(s: Fabric, s': Fabric, d: PoolDescriptor)
    requires TablesCounted(s) && PoolAdded(s, s', d)
    ensures TablesCounted(s') && s.books.pools.Keys <= s'.books.pools.Keys
  {
    hide PoolGuard;
    GrownCount(s.books.pools, d.id, EmptyEntry(d, 1));
  }

  lemma DropPoolCounted(s: Fabric, s': Fabric, p: u64)
    requires TablesCounted(s) && PoolDropped(s, s', p)
    ensures TablesCounted(s')
  {
    hide RemovalGuard;
    Fewer(s.books.pools, {p});
    Fewer(s.queues, QueuesOn(s.queues, p));
  }

  lemma Fewer<T>(m: map<u64, T>, ks: set<u64>)
    ensures |m - ks| <= |m|
  {
    assert (m - ks).Keys == m.Keys - ks;
    assert |m.Keys - ks| <= |m.Keys|;
  }

  /** Whatever the change, the tables stay in bounds, and pools leave only when dropped. */
  lemma ChangeFits(s: Fabric, s': Fabric, c: Change, now: u64)
    requires Inv(s) && Changes(s, s', c, now) && TablesFit(s)
    ensures TablesFit(s') && (!c.DropPool? ==> s.books.pools.Keys <= s'.books.pools.Keys)
  {
    hide Inv, TablesCounted, TablesKeyed, PoolAdded, PoolDropped, ResizedTo, RetiredBy, RetargetedTo, Published, Promoted, Returning;
    hide Rebound, Entered;
    ChangeKeyed(s, s', c, now);
    match c
    case Enter(r) => EnterCounted(s, s', r);
    case NewCapacity(capacity) => CapacityCounted(s, s', capacity, now);
    case AddPool(d) => AddPoolCounted(s, s', d);
    case DropPool(p) => DropPoolCounted(s, s', p);
    case _ => SteadyCounted(s, s', c, now);
  }

  // ----- Counters and evidence -----

  /** What an operation does beside the tables: counters stay live, and evidence is kept,
      replaced for an existing pool, or dropped with its pool. */
  ghost predicate Beside(s: Fabric, s': Fabric) {
    && (CountersLive(s.counters) ==> CountersLive(s'.counters))
    && (s'.pressure == s.pressure
        || exists o: PressureSnapshot :: o.pool in s'.books.pools && s'.pressure == s.pressure[o.pool := o])
  }

  lemma GrantBeside(s: Fabric, q: AllocateRequest, grant: u64, now: u64)
    requires q.pool in s.books.pools && q.queue in s.queues && s.books.pools[q.pool].descriptor.policy in s.policies
    ensures Beside(s, GrantAndStore(s, q, grant, now).0)
  {
    hide StoreRecord, DraftRecord, Record, PoolCloses, Closes, PlannedEntry;
  }

  lemma AllocateBeside(s: Fabric, q: AllocateRequest, now: u64)
    ensures Beside(s, Allocate(s, q, now).0)
  {
    hide GrantAndStore, AllocateBindings, Record, Decide, Find;
    if AllocateAdmission(s, q) == OK && AllocateBindings(s, q) == OK && Decide(s, q, now).Give? {
      GrantBeside(s, q, Decide(s, q, now).units, now);
    }
  }

  lemma CommitBeside(s: Fabric, q: CommitRequest, now: u64)
    ensures Beside(s, Commit(s, q, now).0)
  {
    hide CommitGuard, Promoted, Record, ExistingAdmission, PoolCloses;
    if Committing(s, q, now) { ExistingFacts(s, q.attempt, q.digest, q.allocation); }
  }

  lemma ReleaseBeside(s: Fabric, q: ReleaseRequest, now: u64)
    ensures Beside(s, Release(s, q, now).0)
  {
    hide Returning, Record, PoolCloses;
  }

  lemma RevalidateBeside(s: Fabric, q: RevalidateRequest, now: u64)
    ensures Beside(s, Revalidate(s, q, now).0)
  {
    hide Rebound, Record, StaleBinding;
  }

  lemma StaleBeside(s: Fabric, p: u64, now: u64)
    ensures Beside(s, FenceStale(s, p, now).0)
  {
    hide FenceAll, PoolAdmission;
  }

  lemma ExpireBeside(s: Fabric, p: u64, now: u64)
    ensures Beside(s, ExpireReservations(s, p, now).0)
  {
    hide FenceAll, PoolAdmission;
  }

  lemma ReclaimBeside(s: Fabric, q: ReclaimRequest, now: u64)
    ensures Beside(s, ApplyReclaim(s, q, now).0)
  {
    hide FenceAll, PlanAdmission, BuildPlan, PoolCloses;
  }

  lemma ResizeBeside(s: Fabric, p: u64, raw: u64, protected: u64, expected: u64, now: u64)
    ensures Beside(s, ResizePool(s, p, raw, protected, expected, now).0)
  {
    hide EnforceCapacity, ResizeGuard, PoolCloses;
  }

  lemma PolicyBeside(s: Fabric, policy: Policy, order: seq<u64>, now: u64)
    ensures Beside(s, PublishPolicy(s, policy, order, now).0)
  {
    hide FencePools, PolicyGuard;
  }

  lemma CapacityBeside(s: Fabric, answer: Capacity, raw: u64, generation: u64, now: u64)
    ensures Beside(s, PublishCapacity(s, answer, raw, generation, now).0)
  {
    hide CapacityGuard;
  }

  lemma RegisterPoolBeside(s: Fabric, d: PoolDescriptor, now: u64)
    ensures Beside(s, RegisterPool(s, d, now).0)
  {
    hide PoolGuard;
  }

  lemma RegisterQueueBeside(s: Fabric, q: Queue, now: u64)
    ensures Beside(s, RegisterQueue(s, q, now).0)
  {
    hide QueueGuard;
  }

  lemma StillBeside(s: Fabric, s': Fabric)
    requires s'.counters == s.counters && s'.pressure == s.pressure
    ensures Beside(s, s')
  {
  }

  lemma DemandBeside(s: Fabric, id: u64, demand: u64, expected: u64, now: u64)
    ensures Beside(s, UpdateDemand(s, id, demand, expected, now).0)
  {
    hide DemandGuard;
  }

  lemma RetireBeside(s: Fabric, id: u64, expected: u64, now: u64)
    ensures Beside(s, RetireQueue(s, id, expected, now).0)
  {
    hide FenceQueue;
  }

  lemma RetargetBeside(s: Fabric, id: u64, target: u64, expected: u64, now: u64)
    ensures Beside(s, RetargetQueue(s, id, target, expected, now).0)
  {
    hide FenceQueue;
  }

  lemma ObserveBeside(s: Fabric, o: PressureSnapshot, now: u64)
    ensures Beside(s, ObservePressure(s, o, now).0)
  {
    hide EvidenceGuard;
    var s' := ObservePressure(s, o, now).0;
    if EvidenceAdmission(s, o) == OK && s'.pressure != s.pressure {
      assert s'.pressure == s.pressure[o.pool := Observed(s, o, now)];
    }
  }

  lemma StepBeside(s: Fabric, op: Op, now: u64)
    requires !op.DoRemovePool?
    ensures Beside(s, Step(s, op, now))
  {
    hide Beside, Allocate, Commit, Release, Revalidate, FenceStale, ExpireReservations, ApplyReclaim, PublishCapacity, PublishPolicy;
    hide RegisterPool, RemovePool, ResizePool, RegisterQueue, UpdateDemand, RetireQueue, RetargetQueue, ObservePressure;
    match op
    case DoAllocate(q) => AllocateBeside(s, q, now);
    case DoCommit(q) => CommitBeside(s, q, now);
    case DoRelease(q) => ReleaseBeside(s, q, now);
    case DoRevalidate(q) => RevalidateBeside(s, q, now);
    case DoFenceStale(p) => StaleBeside(s, p, now);
    case DoExpire(p) => ExpireBeside(s, p, now);
    case DoReclaim(q) => ReclaimBeside(s, q, now);
    case DoAttach(id, generation) => StillBeside(s, AttachBackend(s, id, generation).0);
    case DoSetCapacity(answer, raw, generation) => CapacityBeside(s, answer, raw, generation, now);
    case DoPublish(policy, order) => PolicyBeside(s, policy, order, now);
    case DoRegisterPool(d) => RegisterPoolBeside(s, d, now);
    case DoResize(p, raw, protected, expected) => ResizeBeside(s, p, raw, protected, expected, now);
    case DoRegisterQueue(q) => RegisterQueueBeside(s, q, now);
    case DoUpdateDemand(id, demand, expected) => DemandBeside(s, id, demand, expected, now);
    case DoRetire(id, expected) => RetireBeside(s, id, expected, now);
    case DoRetarget(id, target, expected) => RetargetBeside(s, id, target, expected, now);
    case DoObserve(o) => ObserveBeside(s, o, now);
    case DoShutdown => StillBeside(s, s.(shuttingDown := true));
    case DoCheckpoint => StillBeside(s, s);
  }

  // ----- Whole runs -----

  lemma StepMemory(s: Fabric, op: Op, now: u64)
    requires Consistent(s.attempts)
    ensures Consistent(Step(s, op, now).attempts) && Step(s, op, now).attempts.capacity == s.attempts.capacity
  {
    hide Step;
    StepRecordsOnce(s, op, now);
    var s' := Step(s, op, now);
    if s'.attempts != s.attempts {
      var a: Attempt :| a.id !in s.attempts.records && s'.attempts == Record(s.attempts, a);
      if s.attempts.capacity > 0 { RecordShape(s.attempts, a); }
    }
  }

  lemma RemovalFits(s: Fabric, p: u64, expected: u64)
    requires CountersLive(s.counters) && EvidenceFits(s)
    ensures CountersLive(RemovePool(s, p, expected).0.counters) && EvidenceFits(RemovePool(s, p, expected).0)
  {
    hide RemovalGuard;
  }

  lemma BesideFits(s: Fabric, s': Fabric)
    requires EvidenceFits(s) && Beside(s, s') && s.books.pools.Keys <= s'.books.pools.Keys
    ensures EvidenceFits(s')
  {
  }

  lemma StepStorable(s: Fabric, op: Op, now: u64)
    requires Inv(s) && Admissible(s, op, now) && Storable(s)
    ensures Storable(Step(s, op, now))
  {
    hide Inv, Step, Admissible, Changes, TablesFit, Consistent, EvidenceFits, CountersLive;
    var s' := Step(s, op, now);
    var c := StepChanges(s, op, now);
    ChangeFits(s, s', c, now);
    StepMemory(s, op, now);
    if op.DoRemovePool? {
      RemovalFits(s, op.pool, op.expected);
      RemovalIsStep(s, op, now);
    } else {
      StepBeside(s, op, now);
      BesideFits(s, s');
    }
  }

  lemma RemovalIsStep(s: Fabric, op: Op, now: u64)
    requires op.DoRemovePool?
    ensures Step(s, op, now) == RemovePool(s, op.pool, op.expected).0
  {
    hide RemovePool;
  }

  /** Over every run from a storable fabric, in particular from a newly opened one, the
      fabric stays storable. */
  lemma {:induction false} StorageTheorem(s: Fabric, calls: seq<Call>)
    requires Inv(s) && AdmissibleRun(s, calls) && Storable(s)
    ensures Inv(Run(s, calls)) && Storable(Run(s, calls))
    decreases |calls|
  {
    hide Inv, Step, Admissible, Storable;
    if calls != [] {
      StepKeepsInv(s, calls[0].op, calls[0].now);
      StepStorable(s, calls[0].op, calls[0].now);
      StorageTheorem(Step(s, calls[0].op, calls[0].now), calls[1..]);
    }
  }

  // ----- Runs from a recovered fabric -----

  lemma {:induction false} EvictKeyed(m: AttemptMemory)
    requires MemoryKeyed(m)
    ensures MemoryKeyed(Evict(m))
    decreases |m.order|
  {
    if |m.records| > m.capacity && m.order != [] {
      EvictKeyed(m.(records := m.records - {m.order[0]}, order := m.order[1..]));
    }
  }

  lemma RecordKeyed(m: AttemptMemory, a: Attempt)
    requires MemoryKeyed(m)
    ensures MemoryKeyed(Record(m, a))
  {
    hide Evict;
    if m.capacity != 0 {
      EvictKeyed(m.(order := if a.id in m.records then m.order else m.order + [a.id], records := m.records[a.id := a]));
    }
  }

  lemma StepMemoryKeyed(s: Fabric, op: Op, now: u64)
    requires MemoryKeyed(s.attempts)
    ensures MemoryKeyed(Step(s, op, now).attempts)
  {
    hide Step, MemoryKeyed, Record;
    StepRecordsOnce(s, op, now);
    var s' := Step(s, op, now);
    if s'.attempts != s.attempts {
      var a: Attempt :| a.id !in s.attempts.records && s'.attempts == Record(s.attempts, a);
      RecordKeyed(s.attempts, a);
    }
  }

  lemma RemovalKeyed(s: Fabric, p: u64, expected: u64)
    requires EvidenceKeyed(s)
    ensures EvidenceKeyed(RemovePool(s, p, expected).0)
  {
    hide RemovalGuard;
  }

  lemma StepEvidenceKeyed(s: Fabric, op: Op, now: u64)
    requires EvidenceKeyed(s)
    ensures EvidenceKeyed(Step(s, op, now))
  {
    hide Step;
    if op.DoRemovePool? {
      RemovalKeyed(s, op.pool, op.expected);
      RemovalIsStep(s, op, now);
    } else {
      StepBeside(s, op, now);
    }
  }

  lemma StepSavable(s: Fabric, op: Op, now: u64)
    requires Inv(s) && Admissible(s, op, now) && Savable(s)
    ensures Savable(Step(s, op, now))
  {
    hide Inv, Step, Admissible, Changes, TablesKeyed;
    var c := StepChanges(s, op, now);
    ChangeKeyed(s, Step(s, op, now), c, now);
    StepMemoryKeyed(s, op, now);
    StepEvidenceKeyed(s, op, now);
  }

  /** Over every run, also from a recovered fabric, every entry stays under its own key and
      within the unit bound. */
  lemma {:induction false} SavableTheorem(s: Fabric, calls: seq<Call>)
    requires Inv(s) && AdmissibleRun(s, calls) && Savable(s)
    ensures Inv(Run(s, calls)) && Savable(Run(s, calls))
    decreases |calls|
  {
    hide Inv, Step, Admissible, Savable;
    if calls != [] {
      StepKeepsInv(s, calls[0].op, calls[0].now);
      StepSavable(s, calls[0].op, calls[0].now);
      SavableTheorem(Step(s, calls[0].op, calls[0].now), calls[1..]);
    }
  }
}
