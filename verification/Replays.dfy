/** Idempotent replay at the level of the ledger: a repeated request is answered from
    memory and changes nothing. */
module Replays {
  import opened Arithmetic
  import opened Model
  import opened Attempts
  import Order
  import opened Grants
  import opened Ledger
  import opened Topology
  import opened Reclaim
  import opened Invariant
  import opened AllocationSteps
  import opened Steps
  import opened Runs
  import opened Lifecycle

  /** An operation leaves the memory alone, or records one attempt new to it. */
  ghost predicate RecordsOnce(m: AttemptMemory, m': AttemptMemory) {
    m' == m || exists a: Attempt :: a.id !in m.records && m' == Record(m, a)
  }

  /** What a decision leaves in memory. */
  ghost predicate Recorded(m: AttemptMemory, m': AttemptMemory, a: Attempt, attempt: u64, digest: Digest, outcome: Outcome) {
    && a.id == attempt && attempt !in m.records && m' == Record(m, a) && a.digest == digest
    && outcome.Decided? && a.outcome == outcome.status && a.granted == outcome.granted && a.allocation == outcome.allocation
  }

  ghost predicate DecidedAnew(outcome: Outcome) { outcome.Decided? && !outcome.kind.IdempotentReplay? }

  lemma AllocateRecords(s: Fabric, q: AllocateRequest, now: u64)
    ensures var (s', outcome) := Allocate(s, q, now);
            if DecidedAnew(outcome) then exists a :: Recorded(s.attempts, s'.attempts, a, q.attempt, q.digest, outcome)
            else s'.attempts == s.attempts
  {
    hide StoreRecord, DraftRecord, AllocateBindings, Record, PoolCloses, Closes, PlannedEntry, ResolveEvidence, AllocateUnits;
    var (s', outcome) := Allocate(s, q, now);
    if DecidedAnew(outcome) {
      var a := Attempt(q.attempt, AllocateAttempt, q.digest, outcome.status, outcome.allocation, outcome.granted,
                       s.counters.nextDecision, now, false);
      assert Recorded(s.attempts, s'.attempts, a, q.attempt, q.digest, outcome);
    }
  }

  lemma SettleRecords(s: Fabric, p: u64, kind: AttemptKind, attempt: u64, digest: Digest, allocation: u64, units: u64, now: u64)
    requires attempt !in s.attempts.records
    ensures var (s', outcome) := Settle(s, p, kind, attempt, digest, allocation, units, now);
            if DecidedAnew(outcome) then exists a :: Recorded(s.attempts, s'.attempts, a, attempt, digest, outcome)
            else s'.attempts == s.attempts
  {
    hide PoolCloses, Record;
    var (s', outcome) := Settle(s, p, kind, attempt, digest, allocation, units, now);
    if outcome.Decided? {
      var a := Attempt(attempt, kind, digest, OK, allocation, units, s.counters.nextDecision, now, false);
      assert Recorded(s.attempts, s'.attempts, a, attempt, digest, outcome);
    }
  }

  lemma CommitRecords(s: Fabric, q: CommitRequest, now: u64)
    ensures var (s', outcome) := Commit(s, q, now);
            if DecidedAnew(outcome) then exists a :: Recorded(s.attempts, s'.attempts, a, q.attempt, q.digest, outcome)
            else s'.attempts == s.attempts
  {
    hide Settle, CommitGuard, Promoted, Record;
    if Committing(s, q, now) {
      var r := s.books.allocations[q.allocation];
      SettleRecords(s.(books := Promoted(s.books, q.allocation, now)), r.pool, CommitAttempt, q.attempt, q.digest, r.id, r.units, now);
    }
  }

  lemma ReleaseRecords(s: Fabric, q: ReleaseRequest, now: u64)
    ensures var (s', outcome) := Release(s, q, now);
            if DecidedAnew(outcome) then exists a :: Recorded(s.attempts, s'.attempts, a, q.attempt, q.digest, outcome)
            else s'.attempts == s.attempts
  {
    hide Settle, Returning, Record;
    if Releasing(s, q) {
      var r := s.books.allocations[q.allocation];
      var b := Returning(s.books, q.allocation, Asked(r, q), now).0;
      SettleRecords(s.(books := b), r.pool, ReleaseAttempt, q.attempt, q.digest, r.id, Asked(r, q), now);
    } else {
      ReleaseIdleRecords(s, q, now);
    }
  }

  lemma ReleaseIdleRecords(s: Fabric, q: ReleaseRequest, now: u64)
    requires !Releasing(s, q)
    ensures var (s', outcome) := Release(s, q, now);
            if DecidedAnew(outcome) then exists a :: Recorded(s.attempts, s'.attempts, a, q.attempt, q.digest, outcome)
            else s'.attempts == s.attempts
  {
    hide Settle, Returning, Record;
    var (s', outcome) := Release(s, q, now);
    if DecidedAnew(outcome) {
      var a := Attempt(q.attempt, ReleaseAttempt, q.digest, outcome.status, outcome.allocation, outcome.granted,
                       s.counters.nextDecision, now, false);
      assert Recorded(s.attempts, s'.attempts, a, q.attempt, q.digest, outcome);
    }
  }

  lemma RevalidateRecords(s: Fabric, q: RevalidateRequest, now: u64)
    ensures RecordsOnce(s.attempts, Revalidate(s, q, now).0.attempts)
  {
    hide Rebound, Record, StaleBinding;
    var s' := Revalidate(s, q, now).0;
    if Revalidating(s, q) {
      var a := Attempt(q.attempt, RevalidateAttempt, q.digest, OK, s.books.allocations[q.allocation].id,
                       s.books.allocations[q.allocation].units, s.counters.nextDecision, now, false);
      assert s'.attempts == Record(s.attempts, a);
    }
  }

  // ----- Operations that keep the memory -----

  lemma FencingKeeps(s: Fabric, p: u64, now: u64)
    ensures FenceStale(s, p, now).0.attempts == s.attempts && ExpireReservations(s, p, now).0.attempts == s.attempts
  {
    hide FenceAll, PoolAdmission;
  }

  lemma ReclaimKeeps(s: Fabric, q: ReclaimRequest, now: u64)
    ensures ApplyReclaim(s, q, now).0.attempts == s.attempts
  {
    hide FenceAll, PlanAdmission, BuildPlan, PoolCloses;
  }

  lemma ResizeKeeps(s: Fabric, p: u64, raw: u64, protected: u64, expected: u64, now: u64)
    ensures ResizePool(s, p, raw, protected, expected, now).0.attempts == s.attempts
  {
    hide EnforceCapacity, ResizeGuard, PoolCloses;
  }

  lemma PolicyKeeps(s: Fabric, policy: Policy, order: seq<u64>, now: u64)
    ensures PublishPolicy(s, policy, order, now).0.attempts == s.attempts
  {
    hide FencePools, PolicyGuard;
  }

  lemma CapacityKeeps(s: Fabric, answer: Capacity, raw: u64, generation: u64, now: u64)
    ensures PublishCapacity(s, answer, raw, generation, now).0.attempts == s.attempts
  {
    hide CapacityGuard;
  }

  lemma RegistrationKeeps(s: Fabric, d: PoolDescriptor, now: u64)
    ensures RegisterPool(s, d, now).0.attempts == s.attempts
  {
    hide PoolGuard;
  }

  lemma RemovalKeeps(s: Fabric, p: u64, expected: u64)
    ensures RemovePool(s, p, expected).0.attempts == s.attempts
  {
  }

  lemma QueueKeeps(s: Fabric, q: Queue, now: u64)
    ensures RegisterQueue(s, q, now).0.attempts == s.attempts
  {
    hide QueueGuard;
  }

  lemma DemandKeeps(s: Fabric, id: u64, demand: u64, expected: u64, now: u64)
    ensures UpdateDemand(s, id, demand, expected, now).0.attempts == s.attempts
  {
  }

  lemma RetiringKeeps(s: Fabric, id: u64, target: u64, expected: u64, now: u64)
    ensures RetireQueue(s, id, expected, now).0.attempts == s.attempts
    ensures RetargetQueue(s, id, target, expected, now).0.attempts == s.attempts
  {
    hide FenceQueue;
  }

  lemma ObservingKeeps(s: Fabric, o: PressureSnapshot, now: u64)
    ensures ObservePressure(s, o, now).0.attempts == s.attempts
  {
    hide EvidenceGuard;
  }

  lemma StepRecordsOnce(s: Fabric, op: Op, now: u64)
    ensures RecordsOnce(s.attempts, Step(s, op, now).attempts)
  {
    hide Allocate, Commit, Release, Revalidate, FenceStale, ExpireReservations, ApplyReclaim, PublishCapacity, PublishPolicy;
    hide RegisterPool, RemovePool, ResizePool, RegisterQueue, UpdateDemand, RetireQueue, RetargetQueue, ObservePressure, Record;
    match op
    case DoAllocate(q) => AllocateRecords(s, q, now);
    case DoCommit(q) => CommitRecords(s, q, now);
    case DoRelease(q) => ReleaseRecords(s, q, now);
    case DoRevalidate(q) => RevalidateRecords(s, q, now);
    case DoFenceStale(p) => FencingKeeps(s, p, now);
    case DoExpire(p) => FencingKeeps(s, p, now);
    case DoReclaim(q) => ReclaimKeeps(s, q, now);
    case DoAttach(_, _) =>
    case DoSetCapacity(answer, raw, generation) => CapacityKeeps(s, answer, raw, generation, now);
    case DoPublish(policy, order) => PolicyKeeps(s, policy, order, now);
    case DoRegisterPool(d) => RegistrationKeeps(s, d, now);
    case DoRemovePool(p, expected) => RemovalKeeps(s, p, expected);
    case DoResize(p, raw, protected, expected) => ResizeKeeps(s, p, raw, protected, expected, now);
    case DoRegisterQueue(q) => QueueKeeps(s, q, now);
    case DoUpdateDemand(id, demand, expected) => DemandKeeps(s, id, demand, expected, now);
    case DoRetire(id, expected) => RetiringKeeps(s, id, 0, expected, now);
    case DoRetarget(id, target, expected) => RetiringKeeps(s, id, target, expected, now);
    case DoObserve(o) => ObservingKeeps(s, o, now);
    case DoShutdown =>
    case DoCheckpoint =>
  }

  // ----- Replay after any run -----

  /** How many of the calls record an attempt. */
  ghost function NewlyRecorded(s: Fabric, calls: seq<Call>): nat
    decreases |calls|
  {
    if calls == [] then 0
    else
      var s' := Step(s, calls[0].op, calls[0].now);
      (if s'.attempts == s.attempts then 0 else 1) + NewlyRecorded(s', calls[1..])
  }

  /** A remembered attempt outlives fewer than capacity newer ones, whatever the calls. */
  lemma {:induction false} RunRemembers(s: Fabric, calls: seq<Call>, i: nat)
    requires Consistent(s.attempts) && i < |s.attempts.order|
    requires |s.attempts.order| - 1 - i + NewlyRecorded(s, calls) < s.attempts.capacity
    ensures var id, m := s.attempts.order[i], Run(s, calls).attempts;
            id in s.attempts.records && id in m.records && m.records[id] == s.attempts.records[id]
    decreases |calls|
  {
    hide Step, Record;
    assert s.attempts.order[i] in Order.Elements(s.attempts.order);
    if calls != [] {
      var s' := Step(s, calls[0].op, calls[0].now);
      StepRecordsOnce(s, calls[0].op, calls[0].now);
      if s'.attempts == s.attempts {
        RunRemembers(s', calls[1..], i);
      } else {
        var a: Attempt :| a.id !in s.attempts.records && s'.attempts == Record(s.attempts, a);
        ListedCount(s.attempts);
        OneLater(s.attempts, i, a);
        RunRemembers(s', calls[1..], if |s.attempts.order| < s.attempts.capacity then i else i - 1);
      }
    }
  }

  /** The memory stays a bounded queue listing exactly what it remembers. */
  lemma {:induction false} RunKeepsMemory(s: Fabric, calls: seq<Call>)
    requires Consistent(s.attempts)
    ensures Consistent(Run(s, calls).attempts) && Run(s, calls).attempts.capacity == s.attempts.capacity
    decreases |calls|
  {
    hide Step;
    if calls != [] {
      var s' := Step(s, calls[0].op, calls[0].now);
      StepRecordsOnce(s, calls[0].op, calls[0].now);
      if s'.attempts != s.attempts {
        var a: Attempt :| a.id !in s.attempts.records && s'.attempts == Record(s.attempts, a);
        if s.attempts.capacity > 0 { RecordShape(s.attempts, a); }
      }
      RunKeepsMemory(s', calls[1..]);
    }
  }

  /** Right after a decision, fewer than capacity recordings later, the memory answers. */
  lemma DecisionRemembered(s: Fabric, s1: Fabric, a: Attempt, attempt: u64, digest: Digest, outcome: Outcome, calls: seq<Call>)
    requires Consistent(s.attempts) && s.attempts.capacity > 0
    requires Recorded(s.attempts, s1.attempts, a, attempt, digest, outcome)
    requires NewlyRecorded(s1, calls) < s.attempts.capacity
    ensures Find(Run(s1, calls).attempts, attempt, digest) == Replay(a)
    ensures forall d :: d != digest ==> Find(Run(s1, calls).attempts, attempt, d) == Conflict
  {
    hide Step, Run, NewlyRecorded;
    RecordShape(s.attempts, a);
    var m := s1.attempts;
    assert m.order[|m.order| - 1] == a.id && m.records[a.id] == a;
    RunRemembers(s1, calls, |m.order| - 1);
  }

  /** Why a repeated allocate is refused rather than answered. */
  function AllocateRefusal(s: Fabric, q: AllocateRequest): Code {
    if s.Refusing() then SHUTTING_DOWN
    else if |s.books.allocations| >= MAX_ALLOCATIONS then EXHAUSTED
    else if q.pool !in s.books.pools then UNKNOWN_POOL
    else if q.queue !in s.queues then UNKNOWN_QUEUE
    else if s.books.pools[q.pool].descriptor.policy !in s.policies then UNKNOWN_POLICY
    else OK
  }

  /** A repeated allocate leaves the ledger unchanged. It returns the recorded grant, unless
      the fabric is shutting down, the table is full, or the pool, queue or policy is gone;
      then it is refused for that reason. The same attempt with other content is always
      refused. Any run may lie in between. */
  lemma AllocateReplayed(s: Fabric, q: AllocateRequest, now: u64, calls: seq<Call>, later: u64, d: Digest)
    requires Consistent(s.attempts) && s.attempts.capacity > 0
    requires DecidedAnew(Allocate(s, q, now).1)
    requires NewlyRecorded(Allocate(s, q, now).0, calls) < s.attempts.capacity
    ensures var (s1, outcome) := Allocate(s, q, now);
            var s2 := Run(s1, calls);
            var refusal := AllocateRefusal(s2, q);
            && Allocate(s2, q, later)
               == (s2, if refusal == OK then Decided(IdempotentReplay, outcome.status, outcome.granted, outcome.allocation)
                       else Failed(refusal))
            && (d != q.digest ==>
                  Allocate(s2, q.(digest := d), later).0 == s2 && Allocate(s2, q.(digest := d), later).1.Failed?)
  {
    hide Step, Run, NewlyRecorded, Record, Allocate, AllocateRefusal;
    AllocateRecords(s, q, now);
    AllocateWellFormed(s, q, now);
    var (s1, outcome) := Allocate(s, q, now);
    var a :| Recorded(s.attempts, s1.attempts, a, q.attempt, q.digest, outcome);
    DecisionRemembered(s, s1, a, q.attempt, q.digest, outcome, calls);
    AllocateAnswered(Run(s1, calls), q, later, a);
    if d != q.digest { AllocateConflicts(Run(s1, calls), q.(digest := d), later); }
  }

  /** A request that was decided is well formed. */
  lemma AllocateWellFormed(s: Fabric, q: AllocateRequest, now: u64)
    requires Allocate(s, q, now).1.Decided?
    ensures q.attempt != 0 && 0 < q.units <= MAX_UNITS && q.pool != 0 && q.queue != 0
  {
    hide GrantAndStore, Decide, AllocateBindings, Find;
  }

  lemma AllocateAnswered(s: Fabric, q: AllocateRequest, now: u64, a: Attempt)
    requires Find(s.attempts, q.attempt, q.digest) == Replay(a)
    requires q.attempt != 0 && 0 < q.units <= MAX_UNITS && q.pool != 0 && q.queue != 0
    ensures var refusal := AllocateRefusal(s, q);
            Allocate(s, q, now)
            == (s, if refusal == OK then Decided(IdempotentReplay, a.outcome, a.granted, a.allocation) else Failed(refusal))
  {
    hide GrantAndStore, Decide, AllocateBindings;
  }

  lemma AllocateConflicts(s: Fabric, q: AllocateRequest, now: u64)
    requires Find(s.attempts, q.attempt, q.digest) == Conflict
    ensures Allocate(s, q, now).0 == s && Allocate(s, q, now).1.Failed?
  {
    hide GrantAndStore, Decide, AllocateBindings;
  }

  /** Why a repeat on an existing allocation is refused: its pool is gone, or its queue. */
  function Gone(s: Fabric, r: Allocation): Code {
    if r.pool !in s.books.pools then UNKNOWN_POOL else if r.queue !in s.queues then UNKNOWN_QUEUE else OK
  }

  /** The run from s to s' did not hand out this id; in a fabric never restarted it cannot. */
  predicate NotReissued(s: Fabric, s': Fabric, id: u64) {
    id < s.books.nextAllocation || s'.books.nextAllocation <= id
  }

  /** After any run that does not hand its id out again the record is still there, with the
      same pool and queue, so only their removal can refuse the repeat. */
  lemma RepeatCode(s: Fabric, calls: seq<Call>, attempt: u64, digest: Digest, id: u64)
    requires Inv(s) && AdmissibleRun(s, calls) && attempt != 0 && id in s.books.allocations
    requires s.books.allocations[id].pool != 0 && s.books.allocations[id].queue != 0
    requires NotReissued(s, Run(s, calls), id)
    requires !Find(Run(s, calls).attempts, attempt, digest).Conflict?
    ensures ExistingAdmission(Run(s, calls), attempt, digest, id) == Gone(Run(s, calls), s.books.allocations[id])
  {
    hide BooksOk, Run, AdmissibleRun, Find;
    var s2 := Run(s, calls);
    RunKeepsInv(s, calls);
    LifecycleTheorem(s, calls);
    assert Advances(s.books.allocations[id], s2.books.allocations[id]);
  }

  /** A repeated commit changes nothing and returns the recorded answer, unless admission
      refuses it; over the runs of the ledger theorem that is exactly when the allocation's
      pool or queue has been removed, unless its id was handed out again. */
  lemma CommitReplayed(s: Fabric, q: CommitRequest, now: u64, calls: seq<Call>, later: u64, d: Digest)
    requires Consistent(s.attempts) && s.attempts.capacity > 0
    requires DecidedAnew(Commit(s, q, now).1)
    requires NewlyRecorded(Commit(s, q, now).0, calls) < s.attempts.capacity
    ensures var (s1, outcome) := Commit(s, q, now);
            var s2 := Run(s1, calls);
            var (s3, answer) := Commit(s2, q, later);
            var code := ExistingAdmission(s2, q.attempt, q.digest, q.allocation);
            && s3 == s2
            && (code != OK ==> answer == Failed(code))
            && (code == OK ==>
                  && answer.Decided? && answer.kind == IdempotentReplay
                  && answer.status == outcome.status && answer.granted == outcome.granted)
            && (Inv(s) && AdmissibleRun(s1, calls) && NotReissued(s1, s2, q.allocation) ==>
                  && q.allocation in s1.books.allocations && code == Gone(s2, s1.books.allocations[q.allocation]))
            && (d != q.digest ==> Commit(s2, q.(digest := d), later).0 == s2 && Commit(s2, q.(digest := d), later).1.Failed?)
  {
    hide Step, Run, AdmissibleRun, NewlyRecorded, Record, Commit, Inv, ExistingAdmission, Gone, Admissible;
    CommitRecords(s, q, now);
    var (s1, outcome) := Commit(s, q, now);
    var a :| Recorded(s.attempts, s1.attempts, a, q.attempt, q.digest, outcome);
    DecisionRemembered(s, s1, a, q.attempt, q.digest, outcome, calls);
    CommitAnswered(Run(s1, calls), q, later, a);
    if Inv(s) && AdmissibleRun(s1, calls) && NotReissued(s1, Run(s1, calls), q.allocation) {
      CommitExisting(s, q, now);
      RepeatCode(s1, calls, q.attempt, q.digest, q.allocation);
    }
    if d != q.digest { CommitConflicts(Run(s1, calls), q.(digest := d), later); }
  }

  /** A commit that was decided names a record on an existing pool and queue. */
  lemma CommitExisting(s: Fabric, q: CommitRequest, now: u64)
    requires Inv(s) && Commit(s, q, now).1.Decided?
    ensures var s1 := Commit(s, q, now).0;
            && Inv(s1) && q.attempt != 0 && q.allocation in s1.books.allocations
            && s1.books.allocations[q.allocation].pool != 0 && s1.books.allocations[q.allocation].queue != 0
  {
    hide Inv, Step, Commit, Admissible, ExistingAdmission;
    CommitDecided(s, q, now);
    AdmittedRecord(s, q.attempt, q.digest, q.allocation);
    CommitAdmissible(s, q, now);
    StepKeepsRecord(s, DoCommit(q), now, q.allocation);
    CommitIsStep(s, q, now);
  }

  lemma CommitAdmissible(s: Fabric, q: CommitRequest, now: u64)
    ensures Admissible(s, DoCommit(q), now)
  {
  }

  lemma CommitIsStep(s: Fabric, q: CommitRequest, now: u64)
    ensures Step(s, DoCommit(q), now) == Commit(s, q, now).0
  {
    hide Commit;
  }

  lemma CommitDecided(s: Fabric, q: CommitRequest, now: u64)
    requires Commit(s, q, now).1.Decided?
    ensures ExistingAdmission(s, q.attempt, q.digest, q.allocation) == OK
  {
    hide CommitGuard, Settle, Promoted, ExistingAdmission;
  }

  lemma AdmittedRecord(s: Fabric, attempt: u64, digest: Digest, id: u64)
    requires ExistingAdmission(s, attempt, digest, id) == OK
    ensures attempt != 0 && id in s.books.allocations
    ensures s.books.allocations[id].pool != 0 && s.books.allocations[id].queue != 0
  {
  }

  /** A step keeps a record with its pool and queue. */
  lemma StepKeepsRecord(s: Fabric, op: Op, now: u64, id: u64)
    requires Inv(s) && Admissible(s, op, now) && id in s.books.allocations && !op.DoAllocate?
    ensures var s' := Step(s, op, now);
            && Inv(s') && id in s'.books.allocations
            && s'.books.allocations[id].pool == s.books.allocations[id].pool
            && s'.books.allocations[id].queue == s.books.allocations[id].queue
  {
    hide Inv, Step, Admissible, Changes;
    var s' := Step(s, op, now);
    var c := StepChanges(s, op, now);
    NoEntry(s, op, c);
    ChangeKeepsInv(s, s', c, now);
    ChangeAdvances(s, s', c, now);
    assert Advances(s.books.allocations[id], s'.books.allocations[id]);
  }

  lemma NoEntry(s: Fabric, op: Op, c: Change)
    requires Fits(s, op, c) && !op.DoAllocate?
    ensures !c.Enter?
  {
  }

  lemma CommitAnswered(s: Fabric, q: CommitRequest, now: u64, a: Attempt)
    requires Find(s.attempts, q.attempt, q.digest) == Replay(a)
    ensures var code := ExistingAdmission(s, q.attempt, q.digest, q.allocation);
            && (code != OK ==> Commit(s, q, now) == (s, Failed(code)))
            && (code == OK ==>
                  Commit(s, q, now) == (s, Decided(IdempotentReplay, a.outcome, a.granted, s.books.allocations[q.allocation].id)))
  {
    hide Settle, Promoted, CommitGuard;
  }

  lemma CommitConflicts(s: Fabric, q: CommitRequest, now: u64)
    requires Find(s.attempts, q.attempt, q.digest) == Conflict
    ensures Commit(s, q, now).0 == s && Commit(s, q, now).1.Failed?
  {
    hide Settle, Promoted, CommitGuard;
  }

  /** And for release: in particular a repeated release never returns units twice. */
  lemma ReleaseReplayed(s: Fabric, q: ReleaseRequest, now: u64, calls: seq<Call>, later: u64, d: Digest)
    requires Consistent(s.attempts) && s.attempts.capacity > 0
    requires DecidedAnew(Release(s, q, now).1)
    requires NewlyRecorded(Release(s, q, now).0, calls) < s.attempts.capacity
    ensures var (s1, outcome) := Release(s, q, now);
            var s2 := Run(s1, calls);
            var (s3, answer) := Release(s2, q, later);
            var code := ExistingAdmission(s2, q.attempt, q.digest, q.allocation);
            && s3 == s2
            && (code != OK ==> answer == Failed(code))
            && (code == OK ==>
                  && answer.Decided? && answer.kind == IdempotentReplay
                  && answer.status == outcome.status && answer.granted == outcome.granted)
            && (Inv(s) && SplitAdmissible(s, DoRelease(q)) && AdmissibleRun(s1, calls) && NotReissued(s1, s2, q.allocation) ==>
                  && q.allocation in s1.books.allocations && code == Gone(s2, s1.books.allocations[q.allocation]))
            && (d != q.digest ==> Release(s2, q.(digest := d), later).0 == s2 && Release(s2, q.(digest := d), later).1.Failed?)
  {
    hide Step, Run, AdmissibleRun, NewlyRecorded, Record, Release, Inv, ExistingAdmission, Gone, Admissible;
    ReleaseRecords(s, q, now);
    var (s1, outcome) := Release(s, q, now);
    var a :| Recorded(s.attempts, s1.attempts, a, q.attempt, q.digest, outcome);
    DecisionRemembered(s, s1, a, q.attempt, q.digest, outcome, calls);
    ReleaseAnswered(Run(s1, calls), q, later, a);
    if Inv(s) && SplitAdmissible(s, DoRelease(q)) && AdmissibleRun(s1, calls)
       && NotReissued(s1, Run(s1, calls), q.allocation) {
      ReleaseExisting(s, q, now);
      RepeatCode(s1, calls, q.attempt, q.digest, q.allocation);
    }
    if d != q.digest { ReleaseConflicts(Run(s1, calls), q.(digest := d), later); }
  }

  lemma ReleaseExisting(s: Fabric, q: ReleaseRequest, now: u64)
    requires Inv(s) && SplitAdmissible(s, DoRelease(q)) && Release(s, q, now).1.Decided?
    ensures var s1 := Release(s, q, now).0;
            && Inv(s1) && q.attempt != 0 && q.allocation in s1.books.allocations
            && s1.books.allocations[q.allocation].pool != 0 && s1.books.allocations[q.allocation].queue != 0
  {
    hide Inv, Step, Release, SplitAdmissible, ExistingAdmission;
    ReleaseDecided(s, q, now);
    AdmittedRecord(s, q.attempt, q.digest, q.allocation);
    ReleaseIsStep(s, q, now);
    StepKeepsRecord(s, DoRelease(q), now, q.allocation);
  }

  lemma ReleaseIsStep(s: Fabric, q: ReleaseRequest, now: u64)
    ensures Step(s, DoRelease(q), now) == Release(s, q, now).0
    ensures SplitAdmissible(s, DoRelease(q)) ==> Admissible(s, DoRelease(q), now)
  {
    hide Release;
  }

  lemma ReleaseDecided(s: Fabric, q: ReleaseRequest, now: u64)
    requires Release(s, q, now).1.Decided?
    ensures ExistingAdmission(s, q.attempt, q.digest, q.allocation) == OK
  {
    hide Settle, Returning, ExistingAdmission;
  }

  lemma ReleaseAnswered(s: Fabric, q: ReleaseRequest, now: u64, a: Attempt)
    requires Find(s.attempts, q.attempt, q.digest) == Replay(a)
    ensures var code := ExistingAdmission(s, q.attempt, q.digest, q.allocation);
            && (code != OK ==> Release(s, q, now) == (s, Failed(code)))
            && (code == OK ==>
                  Release(s, q, now) == (s, Decided(IdempotentReplay, a.outcome, a.granted, s.books.allocations[q.allocation].id)))
  {
    hide Settle, Returning;
  }

  lemma ReleaseConflicts(s: Fabric, q: ReleaseRequest, now: u64)
    requires Find(s.attempts, q.attempt, q.digest) == Conflict
    ensures Release(s, q, now).0 == s && Release(s, q, now).1.Failed?
  {
    hide Settle, Returning;
  }
}
