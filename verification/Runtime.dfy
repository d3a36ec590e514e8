/** The fabric as the runtime holds it: one object whose tables are updated in place. Each
    method is proved to do what the ledger's step function says, and every handler keeps
    the ledger's invariant, so what holds of runs holds of this object. */
module Runtime {
  import opened Arithmetic
  import opened Sums
  import opened Pressure
  import opened Model
  import opened Attempts
  import opened Grants
  import opened Ledger
  import opened Topology
  import opened Reclaim
  import opened Invariant
  import AllocationSteps
  import Steps
  import Ids
  import Runs
  import Handlers
  import Answers
  import Sweeps
  import Layout
  import Granting
  import Shedding
  import Order

  class LiveFabric {
    const config: Config
    var shuttingDown: bool
    var epoch: u64
    var boot: Boot
    var counters: Counters
    var names: Names
    var backends: map<u64, u64>
    var capacities: map<u64, Capacity>
    var policies: map<u64, Policy>
    var queues: map<u64, Queue>
    var pressure: map<u64, PressureSnapshot>
    var attempts: AttemptMemory
    var pools: Pools
    var allocations: map<u64, Allocation>
    var nextAllocation: u64
    var journal: seq<JournalRecord>

    /** The books as a value. */
    function BooksNow(): Books
      reads this`pools, this`allocations, this`nextAllocation, this`journal
    {
      Books(pools, allocations, nextAllocation, journal)
    }

    /** The whole state as a value. */
    function Now(): Fabric
      reads this
    {
      Fabric(config, shuttingDown, epoch, boot, counters, names, backends, capacities, policies, queues, pressure,
             attempts, BooksNow())
    }

    /** The invariant of the ledger. */
    ghost predicate Valid()
      reads this
    {
      Inv(Now())
    }

    /** open, on an empty directory. */
    constructor (config: Config, epoch: u64, boot: Boot, memory: nat)
      ensures Now() == Runs.Empty(config, epoch, boot, memory) && Valid()
    {
      this.config, this.epoch, this.boot := config, epoch, boot;
      shuttingDown, counters := false, Counters(1, 1, 1, 1, 1);
      names := Names(map[], map[], map[]);
      backends, capacities, policies, queues, pressure := map[], map[], map[], map[], map[];
      attempts := AttemptMemory(memory, map[], []);
      pools, allocations, nextAllocation, journal := map[], map[], 1, [];
      new;
      Runs.EmptyInv(config, epoch, boot, memory);
    }

    // ----- Units -----

    /** apply_commit_units: the owner is charged first, the lender after its own checks. */
    method ApplyCommitUnits(p: u64, units: u64, borrow: u64, lender: u64) returns (code: Code)
      requires p in pools
      modifies this`pools
      ensures (pools, code) == CommitUnits(old(pools), p, units, borrow, lender)
    {
      if borrow > units { return INVARIANT_VIOLATION; }
      var e := pools[p];
      if AddOverflows(e.ownUsage, units - borrow) { return OVERFLOW; }
      if AddOverflows(e.borrowedIn, borrow) { return OVERFLOW; }
      pools := pools[p := e.(ownUsage := Wrap(e.ownUsage + units - borrow), borrowedIn := Wrap(e.borrowedIn + borrow))];
      if borrow == 0 { return OK; }
      if lender == 0 { return INVARIANT_VIOLATION; }
      if lender !in pools { return UNKNOWN_POOL; }
      var l := pools[lender];
      if AddOverflows(l.lentOut, borrow) { return OVERFLOW; }
      if AddOverflows(l.ownUsage, borrow) { return OVERFLOW; }
      if Wrap(l.ownUsage + borrow) > SatAdd(l.Usable(), MAX_OVERCOMMIT) { return CAPACITY_EXCEEDED; }
      pools := pools[lender := l.(lentOut := Wrap(l.lentOut + borrow), ownUsage := Wrap(l.ownUsage + borrow))];
      return OK;
    }

    /** The owner's half of apply_release_units, counter by counter. */
    method DebitPool(r: Allocation) returns (code: Code)
      requires r.pool in pools
      modifies this`pools
      ensures pools == old(pools)[r.pool := DebitOwner(old(pools)[r.pool], r).0]
      ensures code == DebitOwner(old(pools)[r.pool], r).1
    {
      var e := pools[r.pool];
      if e.ownUsage < r.Own() || e.borrowedIn < r.Borrowed() { return INVARIANT_VIOLATION; }
      if r.state.Reserved? {
        if e.reserved < r.units { return INVARIANT_VIOLATION; }
        pools := pools[r.pool := e.(reserved := e.reserved - r.units)];
      } else {
        if e.committed < r.units { return INVARIANT_VIOLATION; }
        pools := pools[r.pool := e.(committed := e.committed - r.units)];
      }
      var e1 := pools[r.pool];
      if r.reclaimClass.Pinned? {
        if e1.pinned < r.units { return INVARIANT_VIOLATION; }
        pools := pools[r.pool := e1.(pinned := e1.pinned - r.units)];
      } else {
        if e1.reclaimable < r.units { return INVARIANT_VIOLATION; }
        pools := pools[r.pool := e1.(reclaimable := e1.reclaimable - r.units)];
      }
      var e2 := pools[r.pool];
      pools := pools[r.pool := e2.(ownUsage := e2.ownUsage - r.Own(), borrowedIn := e2.borrowedIn - r.Borrowed())];
      return OK;
    }

    /** apply_release_units. */
    method ApplyReleaseUnits(r: Allocation) returns (code: Code)
      requires r.pool in pools
      modifies this`pools
      ensures (pools, code) == ReleaseUnits(old(pools), r)
    {
      hide DebitOwner;
      if !r.Holds() { return INVARIANT_VIOLATION; }
      code := DebitPool(r);
      if code != OK { return; }
      if r.Borrowed() != 0 {
        if r.lender == 0 || r.lender !in pools { return INVARIANT_VIOLATION; }
        var l := pools[r.lender];
        if l.lentOut < r.Borrowed() || l.ownUsage < r.Borrowed() { return INVARIANT_VIOLATION; }
        pools := pools[r.lender := l.(lentOut := l.lentOut - r.Borrowed(), ownUsage := l.ownUsage - r.Borrowed())];
      }
      var owner := AdjustQueue(pools[r.pool], r.queue, 0 - r.units, r.state.Reserved?);
      pools := pools[r.pool := owner.(members := owner.members - {r.id})];
      return OK;
    }

    // ----- Fencing -----

    /** fence_allocation_locked: units first, then the record, then the journal. */
    method FenceAllocation(id: u64, to: AllocationState, now: u64) returns (code: Code)
      requires id in allocations
      modifies this`pools, this`allocations, this`journal
      ensures (BooksNow(), code) == FenceOne(old(BooksNow()), id, to, now)
    {
      hide ReleaseUnits;
      var r := allocations[id];
      if r.pool !in pools { return UNKNOWN_POOL; }
      if !r.Holds() { return NO_CHANGE; }
      code := ApplyReleaseUnits(r);
      if code != OK { return; }
      var r' := Marked(r, to, now);
      allocations := allocations[id := r'];
      journal := journal + [AllocationUpsert(OpFor(to), r')];
      return OK;
    }

    /** A fencing loop. */
    method FenceEach(ids: seq<u64>, sel: Selector, to: AllocationState, now: u64) returns (code: Code)
      modifies this`pools, this`allocations, this`journal
      ensures (BooksNow(), code) == FenceAll(old(BooksNow()), ids, sel, to, now)
    {
      hide FenceOne, Selects;
      var i := 0;
      assert ids[0..] == ids;
      while i < |ids|
        invariant 0 <= i <= |ids|
        invariant FenceAll(BooksNow(), ids[i..], sel, to, now) == FenceAll(old(BooksNow()), ids, sel, to, now)
      {
        assert ids[i..][1..] == ids[i + 1..];
        if ids[i] in allocations && Selects(allocations[ids[i]], sel) {
          code := FenceAllocation(ids[i], to, now);
          if code != OK { return; }
        }
        i := i + 1;
      }
      return OK;
    }

    /** fence_stale and expire_reservations share this sweep over the sorted members. */
    method Sweep(p: u64, sel: Selector, to: AllocationState, now: u64) returns (code: Code)
      requires p in pools
      modifies this`pools, this`allocations, this`journal, this`counters
      ensures (Now(), code) == SweepPool(old(Now()), p, sel, to, now)
    {
      hide FenceAll;
      var ids := Order.Sort(pools[p].members, Order.ById());
      code := FenceEach(ids, sel, to, now);
      if code == OK { counters := counters.(nextDecision := Wrap(counters.nextDecision + 1)); }
    }

    /** fence_stale: exactly the members that hold units and are not bound to the present are
        fenced. */
    method FenceStale(p: u64, now: u64) returns (code: Code)
      modifies this`pools, this`allocations, this`journal, this`counters
      ensures (Now(), code) == Ledger.FenceStale(old(Now()), p, now)
      ensures old(Valid()) ==> Valid() && Sweeps.FenceStaleAnswer(old(Now()), Now(), p, code, now)
    {
      hide SweepPool, Inv, Sweeps.FenceStaleAnswer;
      if Valid() {
        Handlers.FenceStaleKeeps(Now(), p, now);
        Sweeps.FenceStaleAnswers(Now(), p, now);
      }
      code := PoolAdmission(Now(), p);
      if code != OK { return; }
      var e := pools[p];
      code := Sweep(p, StaleFor(CurrentFor(e, policies[e.descriptor.policy], epoch)), Fenced, now);
    }

    /** expire_reservations: exactly the reservations of the pool that are due come to be expired. */
    method ExpireReservations(p: u64, now: u64) returns (code: Code)
      modifies this`pools, this`allocations, this`journal, this`counters
      ensures (Now(), code) == Ledger.ExpireReservations(old(Now()), p, now)
      ensures old(Valid()) ==> Valid() && Sweeps.ExpireAnswer(old(Now()), Now(), p, code, now)
    {
      hide SweepPool, Inv, Sweeps.ExpireAnswer;
      if Valid() {
        Handlers.ExpireKeeps(Now(), p, now);
        Sweeps.ExpireAnswers(Now(), p, now);
      }
      code := PoolAdmission(Now(), p);
      if code != OK { return; }
      code := Sweep(p, LapsedBy(policies[pools[p].descriptor.policy].reservationTtl, now), Expired, now);
    }

    // ----- Grants -----

    /** The ancestry walk of compute_grant. */
    method FindLender(start: u64) returns (lender: u64)
      ensures lender == NearestLender(pools, start, 0)
    {
      var cursor, depth := start, 0;
      while cursor != 0 && depth < MAX_DEPTH && cursor in pools
        invariant 0 <= depth <= MAX_DEPTH
        invariant NearestLender(pools, cursor, depth) == NearestLender(pools, start, 0)
        decreases MAX_DEPTH - depth
      {
        var e := pools[cursor];
        if !e.descriptor.retired && e.Free() != 0 { return e.descriptor.id; }
        cursor, depth := e.descriptor.parent, depth + 1;
      }
      return 0;
    }

    /** compute_grant. */
    method GrantFor(e: PoolEntry, policy: Policy) returns (g: Grant)
      ensures g == ComputeGrant(pools, e, policy)
    {
      hide NearestLender;
      var ownFree, headroom := e.Free(), Headroom(e, policy);
      var allowance := SatAdd(ownFree, headroom);
      g := Grant(ownFree, headroom, 0, 0, 0, 0, allowance);
      if policy.borrow.mode.FromAncestorFree? {
        var remaining := if policy.borrow.limit > e.borrowedIn then policy.borrow.limit - e.borrowedIn else 0;
        var lender := FindLender(e.descriptor.parent);
        var lenderFree := if lender != 0 && lender in pools then pools[lender].Free() else 0;
        var borrowable := Min(lenderFree, remaining);
        g := Grant(ownFree, headroom, remaining, lender, lenderFree, borrowable, SatAdd(allowance, borrowable));
      }
    }

    // ----- Attempt memory -----

    /** evict_attempts: the oldest go until the bound holds. */
    method EvictAttempts()
      modifies this`attempts
      ensures attempts == Evict(old(attempts))
    {
      while |attempts.records| > attempts.capacity && attempts.order != []
        invariant Evict(attempts) == Evict(old(attempts))
        decreases |attempts.order|
      {
        attempts := attempts.(records := attempts.records - {attempts.order[0]}, order := attempts.order[1..]);
      }
    }

    /** record_attempt. */
    method RecordAttempt(a: Attempt)
      modifies this`attempts
      ensures attempts == Record(old(attempts), a)
    {
      if attempts.capacity == 0 { return; }
      if a.id !in attempts.records { attempts := attempts.(order := attempts.order + [a.id]); }
      attempts := attempts.(records := attempts.records[a.id := a]);
      EvictAttempts();
    }

    method RememberAttempt(kind: AttemptKind, attempt: u64, digest: Digest, outcome: Code, allocation: u64,
                           granted: u64, now: u64)
      modifies this`attempts, this`counters
      ensures Now() == Remember(old(Now()), kind, attempt, digest, outcome, allocation, granted, now)
    {
      hide Record;
      RecordAttempt(Attempt(attempt, kind, digest, outcome, allocation, granted, counters.nextDecision, now, false));
      counters := counters.(nextDecision := Wrap(counters.nextDecision + 1));
    }

    // ----- Allocate, commit, release, revalidate -----

    /** Journal, charge, then enter the record: the order of allocate_locked. */
    method Enter(r: Allocation) returns (code: Code)
      requires r.pool in pools
      modifies this`pools, this`allocations, this`nextAllocation, this`journal
      ensures (BooksNow(), code) == StoreRecord(old(BooksNow()), r)
    {
      hide CommitUnits;
      journal := journal + [AllocationUpsert(OpFor(r.state), r)];
      code := ApplyCommitUnits(r.pool, r.units, r.borrow, r.lender);
      if code != OK { return; }
      var e := AdjustQueue(CreditOwner(pools[r.pool], r), r.queue, r.units, r.state.Reserved?);
      pools := pools[r.pool := e.(members := e.members + {r.id})];
      nextAllocation := Wrap(nextAllocation + 1);
      allocations := allocations[r.id := r];
      return OK;
    }

    method GrantUnits(q: AllocateRequest, grant: u64, now: u64) returns (outcome: Outcome)
      requires q.pool in pools && q.queue in queues && pools[q.pool].descriptor.policy in policies
      modifies this
      ensures (Now(), outcome) == GrantAndStore(old(Now()), q, grant, now)
    {
      hide StoreRecord, DraftRecord, Closes, PoolCloses, Record, PlannedEntry;
      var e := pools[q.pool];
      var policy := policies[e.descriptor.policy];
      var draft := DraftRecord(Now(), q, grant, now);
      if draft.Rejected? { return Failed(draft.code); }
      var r := draft.record;
      if !Closes(AccountingOf(PlannedEntry(e, r), policy.Allowance()), policy.overcommit.mode, policy.overcommit.limit) {
        return Failed(INVARIANT_VIOLATION);
      }
      if r.pool !in pools { return Failed(UNKNOWN_POOL); }
      var code := Enter(r);
      if code != OK { return Failed(code); }
      if q.pool in pools && !PoolCloses(policies, pools[q.pool]) {
        shuttingDown := true;
        return Failed(ACCOUNTING_VIOLATION);
      }
      RememberAttempt(AllocateAttempt, q.attempt, q.digest, OK, r.id, grant, now);
      return Decided(if grant == q.units then Granted else GrantedPartial, OK, grant, r.id);
    }

    /** The decision half of allocate_locked: evidence, then the arithmetic and its caps. */
    method DecideUnits(q: AllocateRequest, now: u64) returns (verdict: Verdict)
      requires q.pool in pools && q.queue in queues && pools[q.pool].descriptor.policy in policies
      ensures verdict == Decide(Now(), q, now)
      ensures Valid() ==> exists lender, lent ::
                Granting.Decision(Now(), q.pool, q.queue, q.units, now, lender, lent, verdict)
    {
      hide ComputeGrant, ResolveEvidence, QueueCap, PolicyCap, SoftCap, Inv, Granting.Decision, Granting.Found;
      if Valid() { Granting.DecisionIsMost(Now(), q, now); }
      var e, queue := pools[q.pool], queues[q.queue];
      var policy := policies[e.descriptor.policy];
      var evidence := ResolveEvidence(pressure, policies, epoch, e, now);
      if e.descriptor.retired || queue.retired { return Deny(Refused, WRONG_STATE); }
      if !evidence.state.Known() && policy.pressure.refuseOnUnknown { return Deny(RevalidateRequired, evidence.reason); }
      if evidence.state.Known() && !policy.refuseAt.Unknown? && evidence.state.AtLeast(policy.refuseAt) {
        return Deny(ReduceUsage, POLICY_FORBIDS);
      }
      var g := GrantFor(e, policy);
      var limit := SoftCap(e, policy, evidence.state, QueueCap(e, queue, PolicyCap(policy, g.maxGrant)));
      var units := Partial(policy, q.units, limit);
      if units != 0 { return Give(units); }
      if evidence.state.Known() && evidence.state.AtLeast(policy.reduceAt) { return Deny(ReduceUsage, POLICY_FORBIDS); }
      return Deny(Refused, CAPACITY_EXCEEDED);
    }

    /** allocate_locked. */
    method AllocateLocked(q: AllocateRequest, now: u64) returns (outcome: Outcome)
      modifies this
      ensures (Now(), outcome) == Ledger.Allocate(old(Now()), q, now)
    {
      hide GrantAndStore, Decide, Record;
      var admission := AllocateAdmission(Now(), q);
      if admission != OK { return Failed(admission); }
      var seen := Find(attempts, q.attempt, q.digest);
      if seen.Replay? {
        return Decided(IdempotentReplay, seen.previous.outcome, seen.previous.granted, seen.previous.allocation);
      }
      var bindings := AllocateBindings(Now(), q);
      if bindings != OK { return Failed(bindings); }
      var verdict := DecideUnits(q, now);
      if verdict.Give? {
        outcome := GrantUnits(q, verdict.units, now);
      } else {
        RememberAttempt(AllocateAttempt, q.attempt, q.digest, verdict.status, 0, 0, now);
        outcome := Decided(verdict.kind, verdict.status, 0, 0);
      }
    }

    /** allocate. The most that may be granted is stored as exactly one record under the next id;
        anything else leaves books and tables alone. The invariant survives exactly if nothing
        was stored or the id was free. */
    method Allocate(q: AllocateRequest, now: u64) returns (outcome: Outcome)
      modifies this
      ensures (Now(), outcome) == Ledger.Allocate(old(Now()), q, now)
      ensures old(Valid()) ==> (Valid() <==> old(Steps.IdAdmissible(Now(), Steps.DoAllocate(q), now)))
      ensures old(Valid()) ==> exists lender, lent :: Granting.AllocateAnswer(old(Now()), Now(), q, lender, lent, outcome, now)
      ensures old(Valid()) && Handlers.IsGranted(outcome) ==> Handlers.GrantsOne(old(Now()), Now(), q, outcome)
      ensures old(Valid()) && !Handlers.IsGranted(outcome) ==>
                BooksNow() == old(BooksNow()) && policies == old(policies) && queues == old(queues) && capacities == old(capacities)
    {
      hide Ledger.Allocate, Inv, Handlers.GrantsOne, Steps.IdAdmissible, Granting.AllocateAnswer;
      if Valid() {
        Granting.AllocateAnswers(Now(), q, now);
        Ids.AllocateKeepsInvIff(Now(), q, now);
        Handlers.AllocateMeans(Now(), q, now);
      }
      outcome := AllocateLocked(q, now);
    }

    method SettleUp(p: u64, kind: AttemptKind, attempt: u64, digest: Digest, allocation: u64, units: u64, now: u64)
      returns (outcome: Outcome)
      modifies this`shuttingDown, this`attempts, this`counters
      ensures (Now(), outcome) == Settle(old(Now()), p, kind, attempt, digest, allocation, units, now)
    {
      hide PoolCloses, Record;
      if p in pools && !PoolCloses(policies, pools[p]) {
        shuttingDown := true;
        return Failed(ACCOUNTING_VIOLATION);
      }
      RememberAttempt(kind, attempt, digest, OK, allocation, units, now);
      return Decided(NoOp, OK, units, allocation);
    }

    /** The checks shared by the operations on an existing allocation. */
    method AdmitExisting(attempt: u64, digest: Digest, id: u64) returns (code: Code)
      ensures code == ExistingAdmission(Now(), attempt, digest, id)
      ensures code == OK ==>
                && id in allocations && allocations[id].pool in pools && allocations[id].queue in queues
                && pools[allocations[id].pool].descriptor.policy in policies
                && (attempt in attempts.records ==> attempts.records[attempt].digest == digest)
    {
      if attempt == 0 { return INVALID_ARGUMENT; }
      if attempt in attempts.records && attempts.records[attempt].digest != digest { return ATTEMPT_CONFLICT; }
      if id !in allocations { return UNKNOWN_ALLOCATION; }
      var r := allocations[id];
      if r.pool == 0 { return INVALID_ARGUMENT; }
      if r.pool !in pools { return UNKNOWN_POOL; }
      if pools[r.pool].descriptor.policy !in policies { return UNKNOWN_POLICY; }
      if r.queue == 0 { return INVALID_ARGUMENT; }
      if r.queue !in queues { return UNKNOWN_QUEUE; }
      return OK;
    }

    /** Journal, then move the units, then the record: the order of commit_locked. */
    method Promote(id: u64, now: u64)
      requires id in allocations && allocations[id].pool in pools
      modifies this`pools, this`allocations, this`journal
      ensures BooksNow() == Promoted(old(BooksNow()), id, now)
    {
      hide CommitEntry;
      var r := allocations[id];
      var r' := Marked(r, Committed, now);
      journal := journal + [AllocationUpsert(OpCommitted, r')];
      pools := pools[r.pool := CommitEntry(pools[r.pool], r)];
      allocations := allocations[id := r'];
    }

    /** The checks of a commit that is not a repeat. */
    method AdmitCommit(q: CommitRequest) returns (code: Code)
      requires ExistingAdmission(Now(), q.attempt, q.digest, q.allocation) == OK
      ensures code == CommitGuard(Now(), q)
    {
      var r := allocations[q.allocation];
      var e := pools[r.pool];
      if Mismatch(q.expectedEpoch, epoch) { return STALE_EPOCH; }
      if Mismatch(q.expectedPool, e.descriptor.generation) { return STALE_GENERATION; }
      if !r.state.Reserved? { return WRONG_STATE; }
      if StaleBinding(r, CurrentFor(e, policies[e.descriptor.policy], epoch)) { return STALE_GENERATION; }
      return OK;
    }

    method CommitLocked(q: CommitRequest, now: u64) returns (outcome: Outcome)
      modifies this
      ensures (Now(), outcome) == Ledger.Commit(old(Now()), q, now)
    {
      hide Settle, Promoted, ExistingAdmission, CommitGuard;
      var admission := AdmitExisting(q.attempt, q.digest, q.allocation);
      if admission != OK { return Failed(admission); }
      var r := allocations[q.allocation];
      if q.attempt in attempts.records {
        return Decided(IdempotentReplay, attempts.records[q.attempt].outcome, attempts.records[q.attempt].granted, r.id);
      }
      var guard := AdmitCommit(q);
      if guard != OK { return Failed(guard); }
      Promote(q.allocation, now);
      outcome := SettleUp(r.pool, CommitAttempt, q.attempt, q.digest, r.id, r.units, now);
    }

    /** commit. Exactly a current reservation, under assertions that hold, becomes a commitment,
        moving its units and nothing else; a refusal or a repeat changes nothing. A pool found
        beyond its allowance after a promotion shuts the fabric down. */
    method Commit(q: CommitRequest, now: u64) returns (outcome: Outcome)
      modifies this
      ensures (Now(), outcome) == Ledger.Commit(old(Now()), q, now)
      ensures old(Valid()) ==> Valid() && Answers.CommitAnswer(old(Now()), Now(), q, outcome, now)
    {
      hide Ledger.Commit, Inv, Answers.CommitAnswer;
      if Valid() {
        Handlers.CommitKeeps(Now(), q, now);
        Answers.CommitAnswers(Now(), q, now);
      }
      outcome := CommitLocked(q, now);
    }

    method ReturnUnits(id: u64, release: u64, now: u64) returns (code: Code)
      requires id in allocations && allocations[id].pool in pools && allocations[id].units != 0
      modifies this`pools, this`allocations, this`journal
      ensures (BooksNow(), code) == Returning(old(BooksNow()), id, release, now)
    {
      hide ReleaseUnits, ReleasedHalf, RemainingHalf;
      var r := allocations[id];
      HalfStays(r, release, now);
      code := ApplyReleaseUnits(ReleasedHalf(r, release, now));
      if code != OK { return; }
      var left := RemainingHalf(r, release, now);
      journal := journal + [AllocationUpsert(OpReleased, left)];
      allocations := allocations[id := left];
      return OK;
    }

    /** release_locked. */
    method ReleaseLocked(q: ReleaseRequest, now: u64) returns (outcome: Outcome)
      modifies this
      ensures (Now(), outcome) == Ledger.Release(old(Now()), q, now)
    {
      hide Settle, Returning, Record;
      var admission := AdmitExisting(q.attempt, q.digest, q.allocation);
      if admission != OK { return Failed(admission); }
      var r := allocations[q.allocation];
      if q.attempt in attempts.records {
        return Decided(IdempotentReplay, attempts.records[q.attempt].outcome, attempts.records[q.attempt].granted, r.id);
      }
      if Mismatch(q.expectedEpoch, epoch) { return Failed(STALE_EPOCH); }
      if !r.Holds() {
        RememberAttempt(ReleaseAttempt, q.attempt, q.digest, OK, r.id, 0, now);
        return Decided(NoOp, OK, 0, r.id);
      }
      if !q.releaseAll && (q.units == 0 || q.units > r.units) { return Failed(INVALID_ARGUMENT); }
      if r.units == 0 { return Failed(INVARIANT_VIOLATION); }
      var release := if q.releaseAll then r.units else q.units;
      var code := ReturnUnits(q.allocation, release, now);
      if code != OK { return Failed(code); }
      outcome := SettleUp(r.pool, ReleaseAttempt, q.attempt, q.digest, r.id, release, now);
    }

    /** release. With a split that holds, exactly the units asked for are returned by exactly one
        record; any other request leaves books and tables alone. */
    method Release(q: ReleaseRequest, now: u64) returns (outcome: Outcome)
      modifies this
      ensures (Now(), outcome) == Ledger.Release(old(Now()), q, now)
      ensures old(Valid() && Steps.SplitAdmissible(Now(), Steps.DoRelease(q))) ==> Valid()
      ensures old(Valid() && Steps.SplitAdmissible(Now(), Steps.DoRelease(q))) ==>
                Answers.ReleaseAnswer(old(Now()), Now(), q, outcome, now)
      ensures old(Valid() && !AllocationSteps.Releasing(Now(), q)) ==>
                BooksNow() == old(BooksNow()) && policies == old(policies) && queues == old(queues) && capacities == old(capacities)
    {
      hide Ledger.Release, Inv, Answers.ReleaseAnswer, Steps.SplitAdmissible;
      if Valid() && Steps.SplitAdmissible(Now(), Steps.DoRelease(q)) {
        Handlers.ReleaseKeeps(Now(), q, now);
        Answers.ReleaseAnswers(Now(), q, now);
      }
      if !AllocationSteps.Releasing(Now(), q) { AllocationSteps.ReleaseIdle(Now(), q, now); }
      outcome := ReleaseLocked(q, now);
    }

    method Rebind(id: u64, bound: Bound, now: u64)
      requires id in allocations
      modifies this`allocations, this`journal
      ensures BooksNow() == Rebound(old(BooksNow()), id, bound, now)
    {
      var r' := allocations[id].(bound := bound, lastTouched := now, revision := Wrap(allocations[id].revision + 1));
      journal := journal + [AllocationUpsert(OpRevalidated, r')];
      allocations := allocations[id := r'];
    }

    method RevalidateLocked(q: RevalidateRequest, now: u64) returns (outcome: Outcome)
      modifies this
      ensures (Now(), outcome) == Ledger.Revalidate(old(Now()), q, now)
    {
      hide Record, StaleBinding, Rebound, Renewed, ExistingAdmission;
      var admission := AdmitExisting(q.attempt, q.digest, q.allocation);
      if admission != OK { return Failed(admission); }
      var r := allocations[q.allocation];
      var e, queue := pools[r.pool], queues[r.queue];
      var current := CurrentFor(e, policies[e.descriptor.policy], epoch);
      if q.attempt in attempts.records {
        return Decided(IdempotentReplay, attempts.records[q.attempt].outcome, attempts.records[q.attempt].granted, r.id);
      }
      if Mismatch(q.expectedEpoch, epoch) { return Failed(STALE_EPOCH); }
      if !r.Holds() { return Failed(FENCED); }
      if queue.pool != e.descriptor.id { return Failed(STALE_GENERATION); }
      if StaleBinding(r, current) {
        counters := counters.(nextDecision := Wrap(counters.nextDecision + 1));
        return Decided(FenceRequired, STALE_GENERATION, 0, r.id);
      }
      Rebind(q.allocation, Renewed(r.bound, current, queue.generation, boot), now);
      RememberAttempt(RevalidateAttempt, q.attempt, q.digest, OK, r.id, r.units, now);
      return Decided(NoOp, OK, r.units, r.id);
    }

    /** revalidate. Exactly a holding record that is current is bound anew to the generations,
        epoch and boot in force; nothing else changes books or tables. */
    method Revalidate(q: RevalidateRequest, now: u64) returns (outcome: Outcome)
      modifies this
      ensures (Now(), outcome) == Ledger.Revalidate(old(Now()), q, now)
      ensures old(Valid()) ==> Valid() && Answers.RevalidateAnswer(old(Now()), Now(), q, outcome, now)
    {
      hide Ledger.Revalidate, Inv, Answers.RevalidateAnswer;
      if Valid() {
        Handlers.RevalidateKeeps(Now(), q, now);
        Answers.RevalidateAnswers(Now(), q, now);
      }
      outcome := RevalidateLocked(q, now);
    }

    // ----- Shrinking a pool -----

    /** A loop of enforce_capacity: it looks at the pool's usage before every victim. */
    method ShrinkEach(p: u64, ids: seq<u64>, allowance: u64, everything: bool, now: u64) returns (code: Code)
      modifies this`pools, this`allocations, this`journal
      ensures (BooksNow(), code) == ShrinkAll(old(BooksNow()), p, ids, allowance, everything, now)
    {
      hide FenceOne;
      var i := 0;
      assert ids[0..] == ids;
      while i < |ids|
        invariant 0 <= i <= |ids|
        invariant ShrinkAll(BooksNow(), p, ids[i..], allowance, everything, now)
               == ShrinkAll(old(BooksNow()), p, ids, allowance, everything, now)
      {
        assert ids[i..][1..] == ids[i + 1..];
        if p !in pools || (!everything && pools[p].ownUsage <= allowance) { return OK; }
        if ids[i] in allocations && allocations[ids[i]].Holds() {
          code := FenceAllocation(ids[i], Fenced, now);
          if code != OK { return; }
        }
        i := i + 1;
      }
      return OK;
    }

    /** The borrowers of p, found by scanning every record in whatever order. */
    method FindBorrowers(p: u64) returns (ids: set<u64>)
      ensures ids == BorrowersOf(BooksNow(), p)
    {
      ids := {};
      var todo := allocations.Keys;
      while todo != {}
        invariant todo <= allocations.Keys
        invariant forall id :: id in ids <==> id in allocations.Keys - todo && id in BorrowersOf(BooksNow(), p)
        decreases todo
      {
        var id :| id in todo;
        var r := allocations[id];
        if r.Holds() && r.lender == p && r.borrow != 0 { ids := ids + {id}; }
        todo := todo - {id};
      }
    }

    /** enforce_capacity. */
    method Enforce(p: u64, allowance: u64, everything: bool, now: u64) returns (code: Code)
      requires p in pools
      modifies this`pools, this`allocations, this`journal
      ensures (BooksNow(), code) == EnforceCapacity(old(BooksNow()), p, allowance, everything, now)
    {
      hide ShrinkAll, BorrowersOf;
      var victims := Order.Sort(pools[p].members, ShrinkRank(allocations));
      code := ShrinkEach(p, victims, allowance, everything, now);
      if code != OK { return; }
      if p !in pools || pools[p].ownUsage <= allowance { return OK; }
      var ids := FindBorrowers(p);
      var borrowers := Order.Sort(ids, Order.ById());
      code := ShrinkEach(p, borrowers, allowance, false, now);
    }

    /** The raw units of some pools that lie on a resource, added up with an overflow check
        at every step. */
    method SumPartition(resource: u64, among: set<u64>) returns (overflow: bool, total: u64)
      requires among <= pools.Keys
      ensures var sum := SumOver(among, RawShare(pools, resource));
              overflow == (sum >= TWO64) && (!overflow ==> total == sum)
    {
      hide SumOver;
      overflow, total := false, 0;
      var todo := among;
      ghost var done: set<u64> := {};
      SumZero(done, RawShare(pools, resource));
      while todo != {}
        invariant done + todo == among && done !! todo
        invariant total == SumOver(done, RawShare(pools, resource))
        decreases todo
      {
        var p :| p in todo;
        var raw := if pools[p].descriptor.resource == resource then pools[p].descriptor.raw else 0;
        SumInsert(done, RawShare(pools, resource), p);
        AddOverflowIsExact(total, raw);
        if AddOverflows(total, raw) {
          SumSubset(done + {p}, among, RawShare(pools, resource), RawShare(pools, resource));
          return true, 0;
        }
        total := Wrap(total + raw);
        todo := todo - {p};
        done := done + {p};
      }
      assert done == among;
    }

    /** resize_pool's admission, with its partition loop. */
    method AdmitResize(p: u64, raw: u64, protected: u64, expected: u64) returns (code: Code)
      ensures code == ResizeGuard(Now(), p, raw, protected, expected)
    {
      code := ResizeAdmission(Now(), p, raw, protected, expected);
      if code != OK { return; }
      var e := pools[p];
      var overflow, others := SumPartition(e.descriptor.resource, pools.Keys - {p});
      if overflow { return OVERFLOW; }
      AddOverflowIsExact(others, raw);
      if AddOverflows(others, raw) { return OVERFLOW; }
      if others + raw > capacities[e.descriptor.resource].raw { return CAPACITY_EXCEEDED; }
      if AddOverflows(e.descriptor.generation, 1) || AddOverflows(e.capacityGeneration, 1) { return OVERFLOW; }
      return OK;
    }

    /** The new size and generations, in place, then the journal. */
    method ResizeEntry(p: u64, raw: u64, protected: u64)
      requires p in pools
      modifies this`pools, this`journal
      ensures BooksNow() == ResizedBooks(old(BooksNow()), p, raw, protected)
      ensures p in pools && pools[p] == Resized(old(pools)[p], raw, protected)
      ensures pools[p].descriptor.policy == old(pools)[p].descriptor.policy
    {
      var e := Resized(pools[p], raw, protected);
      pools := pools[p := e];
      journal := journal + [PoolUpsert(e.descriptor, e.capacityGeneration)];
    }

    /** resize_pool: a pool that may have the size gets it, under its next generations, with members
        and then borrowers fenced in order. */
    method ResizePool(p: u64, raw: u64, protected: u64, expected: u64, now: u64) returns (code: Code)
      modifies this`pools, this`allocations, this`journal, this`shuttingDown
      ensures (Now(), code) == Topology.ResizePool(old(Now()), p, raw, protected, expected, now)
      ensures old(Valid()) ==> Valid() && Shedding.ResizeAnswer(old(Now()), Now(), p, raw, protected, expected, code, now)
    {
      hide EnforceCapacity, ResizeGuard, PoolCloses, ShrinkAllowance, Inv, ResizedBooks, Resized, Shedding.ResizeAnswer;
      if Valid() {
        Handlers.ResizeKeeps(Now(), p, raw, protected, expected, now);
        Shedding.ResizeAnswers(Now(), p, raw, protected, expected, now);
      }
      code := AdmitResize(p, raw, protected, expected);
      if code != OK { return; }
      Admitted(Now(), p, raw, protected, expected);
      ResizeEntry(p, raw, protected);
      code := Enforce(p, ShrinkAllowance(pools[p], policies), policies[pools[p].descriptor.policy].fenceOnChange, now);
      if code != OK { return; }
      if p in pools && !PoolCloses(policies, pools[p]) {
        shuttingDown := true;
        return ACCOUNTING_VIOLATION;
      }
      return OK;
    }

    // ----- Policies -----

    /** The fencing loop of publish_policy, over the pool table in the order given. */
    method FencePoolsOf(order: seq<u64>, policy: u64, generation: u64, now: u64) returns (code: Code)
      modifies this`pools, this`allocations, this`journal
      ensures (BooksNow(), code) == FencePools(old(BooksNow()), order, policy, generation, now)
    {
      hide FenceAll;
      var i := 0;
      assert order[0..] == order;
      while i < |order|
        invariant 0 <= i <= |order|
        invariant FencePools(BooksNow(), order[i..], policy, generation, now)
               == FencePools(old(BooksNow()), order, policy, generation, now)
      {
        assert order[i..][1..] == order[i + 1..];
        if order[i] in pools && pools[order[i]].descriptor.policy == policy {
          var ids := Order.Sort(pools[order[i]].members, Order.ById());
          code := FenceEach(ids, OtherPolicyGeneration(generation), Fenced, now);
          if code != OK { return; }
        }
        i := i + 1;
      }
      return OK;
    }

    /** Journal, name and install a policy, then fence if it says so. */
    method InstallPolicy(policy: Policy, order: seq<u64>, now: u64) returns (code: Code)
      modifies this`names, this`policies, this`pools, this`allocations, this`journal
      ensures names == old(names).(policies := old(names).policies[policy.name := policy.id])
      ensures policies == old(policies)[policy.id := policy]
      ensures var logged := Log(old(BooksNow()), PolicyUpsert(policy));
              (BooksNow(), code) == if policy.fenceOnChange then FencePools(logged, order, policy.id, policy.generation, now)
                                    else (logged, OK)
    {
      hide FencePools;
      journal := journal + [PolicyUpsert(policy)];
      names := names.(policies := names.policies[policy.name := policy.id]);
      policies := policies[policy.id := policy];
      code := OK;
      if policy.fenceOnChange { code := FencePoolsOf(order, policy.id, policy.generation, now); }
    }

    /** publish_policy: the policy installed is the one asked for, in its next generation, and exactly
        the holders it makes outdated are fenced if it says so. */
    method PublishPolicy(request: Policy, order: seq<u64>, now: u64) returns (code: Code)
      modifies this`counters, this`names, this`policies, this`pools, this`allocations, this`journal
      ensures (Now(), code) == Topology.PublishPolicy(old(Now()), request, order, now)
      ensures old(Valid()) ==> Valid() && Layout.PublishAnswer(old(Now()), Now(), request, order, code, now)
    {
      hide FencePools, PolicyGuard, Proposed, Advanced, Policy.Valid, Inv, Layout.PublishAnswer;
      if Valid() {
        Handlers.PublishKeeps(Now(), request, order, now);
        Layout.PublishAnswers(Now(), request, order, now);
      }
      var policy := Proposed(Now(), request);
      if Now().Refusing() { return SHUTTING_DOWN; }
      if IdExhausted(policy.id, counters.nextPolicy) { return OVERFLOW; }
      var guard := PolicyGuard(Now(), policy);
      counters := counters.(nextPolicy := Advanced(policy.id, counters.nextPolicy));
      if guard != OK { return if guard == NO_CHANGE then OK else guard; }
      code := InstallPolicy(policy, order, now);
    }

    // ----- Registration and removal -----

    /** The ancestry walk of register_pool. */
    method WalkUp(start: u64) returns (code: Code)
      requires start in pools
      ensures code == WalkAncestry(pools, start, 1)
    {
      var cursor, depth := start, 1;
      while pools[cursor].descriptor.parent != 0
        invariant cursor in pools && 1 <= depth <= MAX_DEPTH
        invariant WalkAncestry(pools, cursor, depth) == WalkAncestry(pools, start, 1)
        decreases MAX_DEPTH - depth
      {
        var parent := pools[cursor].descriptor.parent;
        if depth + 1 > MAX_DEPTH { return DEPTH_EXCEEDED; }
        if parent !in pools { return UNKNOWN_POOL; }
        cursor, depth := parent, depth + 1;
      }
      return OK;
    }

    method AdmitPool(d: PoolDescriptor) returns (code: Code)
      ensures code == PoolGuard(Now(), d)
    {
      if d.Validate() != OK { return d.Validate(); }
      if d.id in pools { return DUPLICATE_POOL; }
      if d.name in names.pools { return DUPLICATE_NAME; }
      if d.backend !in backends { return UNKNOWN_BACKEND; }
      if d.policy !in policies { return UNKNOWN_POLICY; }
      if d.parent != 0 {
        if d.parent !in pools { return UNKNOWN_POOL; }
        code := WalkUp(d.parent);
        if code != OK { return; }
      }
      if d.resource !in capacities { return UNKNOWN_RESOURCE; }
      var overflow, partitioned := SumPartition(d.resource, pools.Keys);
      if overflow { return OVERFLOW; }
      AddOverflowIsExact(partitioned, d.raw);
      if AddOverflows(partitioned, d.raw) { return OVERFLOW; }
      if partitioned + d.raw > capacities[d.resource].raw { return CAPACITY_EXCEEDED; }
      return OK;
    }

    method InstallPool(d: PoolDescriptor)
      modifies this`names, this`pools, this`journal
      ensures names == old(names).(pools := old(names).pools[d.name := d.id])
      ensures BooksNow() == Log(old(BooksNow()), PoolUpsert(d, 1)).(pools := old(pools)[d.id := EmptyEntry(d, 1)])
    {
      journal := journal + [PoolUpsert(d, 1)];
      names := names.(pools := names.pools[d.name := d.id]);
      pools := pools[d.id := EmptyEntry(d, 1)];
    }

    /** register_pool: a pool that may be registered joins as requested, empty, under an id not taken
        before; any other request leaves tables and books alone. */
    method RegisterPool(request: PoolDescriptor, now: u64) returns (code: Code)
      modifies this`counters, this`names, this`pools, this`journal
      ensures (Now(), code) == Topology.RegisterPool(old(Now()), request, now)
      ensures old(Valid()) ==> Valid() && Layout.RegisterPoolAnswer(old(Now()), Now(), request, code, now)
    {
      hide PoolGuard, Advanced, PoolDescriptor.Validate, Inv, Layout.RegisterPoolAnswer;
      if Valid() {
        Handlers.RegisterPoolKeeps(Now(), request, now);
        Layout.RegisterPoolAnswers(Now(), request, now);
      }
      var d := NewPool(Now(), request, now);
      if Now().Refusing() { return SHUTTING_DOWN; }
      if |pools| >= MAX_POOLS { return EXHAUSTED; }
      if IdExhausted(d.id, counters.nextPool) { return OVERFLOW; }
      code := AdmitPool(d);
      counters := counters.(nextPool := Advanced(d.id, counters.nextPool));
      if code != OK { return; }
      InstallPool(d);
    }

    method HasChild(p: u64) returns (found: bool)
      ensures found == exists c :: c in pools && pools[c].descriptor.parent == p
    {
      var todo := pools.Keys;
      while todo != {}
        invariant todo <= pools.Keys
        invariant forall c :: c in pools && c !in todo ==> pools[c].descriptor.parent != p
        decreases todo
      {
        var c :| c in todo;
        if pools[c].descriptor.parent == p { return true; }
        todo := todo - {c};
      }
      return false;
    }

    method HasLiveQueue(p: u64) returns (found: bool)
      ensures found == exists q :: q in queues && queues[q].pool == p && !queues[q].retired
    {
      var todo := queues.Keys;
      while todo != {}
        invariant todo <= queues.Keys
        invariant forall q :: q in queues && q !in todo ==> queues[q].pool != p || queues[q].retired
        decreases todo
      {
        var q :| q in todo;
        if queues[q].pool == p && !queues[q].retired { return true; }
        todo := todo - {q};
      }
      return false;
    }

    /** Children, live queues, lending and holdings each forbid a removal. */
    method AdmitRemoval(p: u64, expected: u64) returns (code: Code)
      ensures code == RemovalGuard(Now(), p, expected)
    {
      if p == 0 { return INVALID_ARGUMENT; }
      if p !in pools { return UNKNOWN_POOL; }
      if Mismatch(expected, pools[p].descriptor.generation) { return STALE_GENERATION; }
      var parent := HasChild(p);
      if parent { return LIFECYCLE_VIOLATION; }
      var busy := HasLiveQueue(p);
      if busy { return LIFECYCLE_VIOLATION; }
      if pools[p].lentOut != 0 { return LIFECYCLE_VIOLATION; }
      if pools[p].Allocated() != 0 { return LIFECYCLE_VIOLATION; }
      return OK;
    }

    /** remove_pool: exactly a pool nobody draws on, without children or live queues, goes,
        with its retired queues and its evidence; nothing else changes. */
    method RemovePool(p: u64, expected: u64) returns (code: Code)
      modifies this`names, this`pools, this`pressure, this`queues, this`journal
      ensures (Now(), code) == Topology.RemovePool(old(Now()), p, expected)
      ensures old(Valid()) ==> Valid()
      ensures old(Valid()) ==> (code == OK <==> old(Handlers.Removable(Now(), p, expected)))
      ensures old(Valid()) && code == OK ==> Handlers.PoolGone(old(Now()), Now(), p) && Handlers.Unused(Now(), p)
      ensures code != OK ==> Now() == old(Now())
      ensures old(Valid()) && code != OK ==> old(Layout.RemovalObjection(Now(), p, expected, code))
    {
      hide RemovalGuard, Inv, Handlers.Removable, Handlers.PoolGone, Handlers.Unused, Layout.RemovalObjection;
      if Valid() {
        if Topology.RemovePool(Now(), p, expected).1 != OK { Layout.RemovalExplained(Now(), p, expected); }
        Handlers.RemovePoolKeeps(Now(), p, expected, 0);
        Handlers.RemovalMeans(Now(), p, expected);
      }
      code := AdmitRemoval(p, expected);
      if code != OK { return; }
      PoolKnown(Now(), p, expected);
      DropPool(p);
    }

    /** Journal first, then the pool, its names, its evidence and the queues on it. */
    method DropPool(p: u64)
      requires p in pools
      modifies this`names, this`pools, this`pressure, this`queues, this`journal
      ensures var gone := old(QueuesOn(queues, p));
              && names == old(names.(pools := names.pools - {pools[p].descriptor.name},
                                     queues := names.queues - (set q | q in QueuesOn(queues, p) :: queues[q].name)))
              && queues == old(queues) - gone
      ensures BooksNow() == Log(old(BooksNow()), PoolRemoved(p)).(pools := old(pools) - {p}) && pressure == old(pressure) - {p}
    {
      var gone := QueuesOn(queues, p);
      journal := journal + [PoolRemoved(p)];
      names := names.(pools := names.pools - {pools[p].descriptor.name},
                      queues := names.queues - (set q | q in gone :: queues[q].name));
      pools := pools - {p};
      pressure := pressure - {p};
      queues := queues - gone;
    }

    // ----- Queues -----

    method FindHeld(queue: u64) returns (ids: set<u64>)
      ensures ids == HeldBy(BooksNow(), queue)
    {
      ids := {};
      var todo := allocations.Keys;
      while todo != {}
        invariant todo <= allocations.Keys
        invariant forall id :: id in ids <==> id in allocations.Keys - todo && id in HeldBy(BooksNow(), queue)
        decreases todo
      {
        var id :| id in todo;
        if allocations[id].queue == queue && allocations[id].Holds() { ids := ids + {id}; }
        todo := todo - {id};
      }
    }

    method FenceHeld(queue: u64, now: u64) returns (code: Code)
      modifies this`pools, this`allocations, this`journal
      ensures (BooksNow(), code) == FenceQueue(old(Now()), queue, now)
    {
      hide FenceAll, HeldBy;
      var ids := FindHeld(queue);
      var sorted := Order.Sort(ids, Order.ById());
      code := FenceEach(sorted, AnyHolding, Fenced, now);
    }

    method AdmitQueue(q: Queue) returns (code: Code)
      ensures code == QueueGuard(Now(), q)
    {
      if !ValidName(q.name) { return NAME_TOO_LONG; }
      if q.pool == 0 { return INVALID_ARGUMENT; }
      if q.demand > MAX_UNITS || q.maxCommitted > MAX_UNITS { return OVERFLOW; }
      if q.id in queues { return DUPLICATE_QUEUE; }
      if q.name in names.queues { return DUPLICATE_NAME; }
      if q.pool !in pools { return UNKNOWN_POOL; }
      return OK;
    }

    /** register_queue. A success adds one queue under an id not taken before, holding
        nothing; a failure changes neither queues nor books. */
    method RegisterQueue(request: Queue, now: u64) returns (code: Code)
      modifies this`counters, this`names, this`queues, this`journal
      ensures (Now(), code) == Topology.RegisterQueue(old(Now()), request, now)
      ensures old(Valid()) ==> Valid()
      ensures old(Valid()) ==> Layout.RegisterQueueAnswer(old(Now()), Now(), request, code, now)
    {
      hide QueueGuard, Advanced, Inv, Layout.RegisterQueueAnswer;
      if Valid() {
        Handlers.RegisterQueueKeeps(Now(), request, now);
        Layout.RegisterQueueAnswers(Now(), request, now);
      }
      var q := NewQueue(Now(), request, now);
      if Now().Refusing() { return SHUTTING_DOWN; }
      if |queues| >= MAX_QUEUES { return EXHAUSTED; }
      if IdExhausted(q.id, counters.nextQueue) { return OVERFLOW; }
      code := AdmitQueue(q);
      counters := counters.(nextQueue := Advanced(q.id, counters.nextQueue));
      if code != OK { return; }
      InstallQueue(q);
    }

    method InstallQueue(q: Queue)
      modifies this`names, this`queues, this`journal
      ensures names == old(names).(queues := old(names).queues[q.name := q.id]) && queues == old(queues)[q.id := q]
      ensures BooksNow() == Log(old(BooksNow()), QueueUpsert(q))
    {
      journal := journal + [QueueUpsert(q)];
      names := names.(queues := names.queues[q.name := q.id]);
      queues := queues[q.id := q];
    }

    /** update_queue_demand. A success sets the demand and nothing else, which is a cap for a
        queue without a hard one and matters to no other decision of allocate. */
    method UpdateDemand(id: u64, demand: u64, expected: u64, now: u64) returns (code: Code)
      modifies this`queues, this`journal
      ensures (Now(), code) == Topology.UpdateDemand(old(Now()), id, demand, expected, now)
      ensures old(Valid()) ==> Valid()
      ensures old(Valid()) && code == OK ==>
                && Handlers.DemandSet(old(Now()), Now(), id, demand) && Handlers.DecidesAlike(old(Now()), Now(), id)
                && Handlers.WithinDemand(Now(), id)
      ensures Layout.DemandAnswer(old(Now()), id, demand, expected, code)
      ensures code != OK ==> Now() == old(Now())
    {
      hide Inv, Handlers.DemandSet, Handlers.DecidesAlike, Handlers.WithinDemand, Layout.DemandAnswer;
      Layout.DemandAnswers(Now(), id, demand, expected, now);
      if Valid() {
        Handlers.DemandKeeps(Now(), id, demand, expected, now);
        Handlers.DemandMeans(Now(), id, demand, expected, now);
      }
      if id == 0 { return INVALID_ARGUMENT; }
      if id !in queues { return UNKNOWN_QUEUE; }
      if Mismatch(expected, queues[id].generation) { return STALE_GENERATION; }
      if queues[id].retired { return WRONG_STATE; }
      if demand > MAX_UNITS { return OVERFLOW; }
      var q := queues[id].(demand := demand, demandUpdatedAt := now);
      queues := queues[q.id := q];
      journal := journal + [QueueUpsert(q)];
      return OK;
    }

    /** retire_queue. A success leaves the queue retired, and with automatic fencing nothing of a
        queue just retired holds units; a failure changes nothing. */
    method RetireQueue(id: u64, expected: u64, now: u64) returns (code: Code)
      modifies this`pools, this`allocations, this`journal, this`queues
      ensures (Now(), code) == Topology.RetireQueue(old(Now()), id, expected, now)
      ensures old(Valid()) ==> Valid()
      ensures old(Valid()) ==> Sweeps.RetireAnswer(old(Now()), Now(), id, expected, code, now)
      ensures old(Valid()) && Now() != old(Now()) ==>
                (config.autoFenceOnRetirement ==> Handlers.Drained(Now(), id)) && Shrunk(old(BooksNow()), BooksNow())
    {
      hide FenceQueue, Inv, Handlers.Drained, Shrunk, Sweeps.RetireAnswer;
      if Valid() {
        Handlers.RetireKeeps(Now(), id, expected, now);
        Handlers.RetireMeans(Now(), id, expected, now);
        Sweeps.RetireAnswers(Now(), id, expected, now);
      }
      var guard := RetireGuard(Now(), id, expected);
      if guard != OK { return if guard == NO_CHANGE then OK else guard; }
      var q := RetiredQueue(queues[id]);
      journal := journal + [QueueUpsert(q)];
      queues := queues[q.id := q];
      code := OK;
      if config.autoFenceOnRetirement { code := FenceHeld(id, now); }
    }

    /** retarget_queue. A success leaves the queue on the target with nothing held under its
        old binding; a failure changes nothing. */
    method RetargetQueue(id: u64, target: u64, expected: u64, now: u64) returns (code: Code)
      modifies this`pools, this`allocations, this`journal, this`queues
      ensures (Now(), code) == Topology.RetargetQueue(old(Now()), id, target, expected, now)
      ensures old(Valid()) ==> Valid()
      ensures old(Valid()) ==> Sweeps.RetargetAnswer(old(Now()), Now(), id, target, expected, code, now)
      ensures old(Valid()) && Now() != old(Now()) ==> Handlers.Drained(Now(), id) && Shrunk(old(BooksNow()), BooksNow())
    {
      hide FenceQueue, Inv, Handlers.Drained, Shrunk, Sweeps.RetargetAnswer;
      if Valid() {
        Handlers.RetargetKeeps(Now(), id, target, expected, now);
        Handlers.RetargetMeans(Now(), id, target, expected, now);
        Sweeps.RetargetAnswers(Now(), id, target, expected, now);
      }
      var guard := RetargetGuard(Now(), id, target, expected);
      if guard != OK { return if guard == NO_CHANGE then OK else guard; }
      code := FenceHeld(id, now);
      if code != OK { return; }
      var q := Retargeted(queues[id], target);
      journal := journal + [QueueUpsert(q)];
      queues := queues[q.id := q];
    }

    // ----- Capacity and evidence -----

    /** The publishing section of set_capacity, with its partition loop. Exactly an answer under
        assertions that hold, which the pools on the resource fit, is published. */
    method SetCapacity(answer: Capacity, expectedRaw: u64, expectedGeneration: u64, now: u64) returns (code: Code)
      modifies this`capacities, this`journal
      ensures (Now(), code) == PublishCapacity(old(Now()), answer, expectedRaw, expectedGeneration, now)
      ensures old(Valid()) ==> Valid()
      ensures Layout.CapacityAnswer(old(Now()), Now(), answer, expectedRaw, expectedGeneration, code, now)
    {
      hide SumOver, RawShare, Inv, Layout.CapacityAnswer;
      Layout.CapacityAnswers(Now(), answer, expectedRaw, expectedGeneration, now);
      if Valid() { Handlers.CapacityKeeps(Now(), answer, expectedRaw, expectedGeneration, now); }
      if Now().Refusing() { return SHUTTING_DOWN; }
      if Mismatch(expectedRaw, answer.raw) || Mismatch(expectedGeneration, answer.generation) { return STALE_GENERATION; }
      var overflow, partitioned := SumPartition(answer.resource, pools.Keys);
      if overflow { return OVERFLOW; }
      if partitioned > answer.raw { return CAPACITY_EXCEEDED; }
      var c := answer.(observedAt := now);
      journal := journal + [CapacitySet(c)];
      capacities := capacities[c.resource := c];
      return OK;
    }

    method AdmitEvidence(o: PressureSnapshot, now: u64) returns (code: Code)
      requires o.pool in pools
      ensures code == EvidenceGuard(Now(), o, now)
    {
      if o.epoch != epoch { return STALE_EPOCH; }
      if o.poolGeneration != pools[o.pool].descriptor.generation { return STALE_GENERATION; }
      if o.observedAt > now { return INVALID_ARGUMENT; }
      if o.demand > MAX_UNITS || o.committed > 2 * MAX_UNITS || o.reclaimable > MAX_UNITS { return OVERFLOW; }
      return OK;
    }

    /** observe_pressure. A success puts the observation in force for its pool: known exactly
        while fresh and true to the usage it asserts. Other pools' evidence stays. */
    method ObservePressure(request: PressureSnapshot, now: u64) returns (code: Code)
      modifies this`counters, this`pressure, this`journal
      ensures (Now(), code) == Topology.ObservePressure(old(Now()), request, now)
      ensures old(Valid()) ==> Valid()
      ensures old(Valid()) && code == OK ==>
                && old(request.pool in pools) && Handlers.EvidenceInForce(Now(), old(Observed(Now(), request, now)))
                && Handlers.OthersResolveAlike(old(Now()), Now(), request.pool)
      ensures old(Valid()) ==> Granting.ObserveAnswer(old(Now()), Now(), request, code, now)
    {
      hide EvidenceGuard, Advanced, Inv, Handlers.EvidenceInForce, Handlers.OthersResolveAlike, Granting.ObserveAnswer;
      if Valid() {
        Handlers.ObserveKeeps(Now(), request, now);
        Handlers.ObserveMeans(Now(), request, now);
        Granting.ObserveAnswers(Now(), request, now);
      }
      if Now().Refusing() { return SHUTTING_DOWN; }
      if request.pool == 0 { return INVALID_ARGUMENT; }
      if request.pool !in pools { return UNKNOWN_POOL; }
      var o := Observed(Now(), request, now);
      if IdExhausted(o.id, counters.nextSnapshot) { return OVERFLOW; }
      code := AdmitEvidence(o, now);
      counters := counters.(nextSnapshot := Advanced(o.id, counters.nextSnapshot));
      if code != OK { return; }
      journal := journal + [PressureObserved(o)];
      pressure := pressure[o.pool := o];
    }

    // ----- Reclamation -----

    /** One greedy phase of plan_reclaim. */
    method TakeFrom(ids: seq<u64>, start: Plan, target: u64, startingFree: u64, policy: Policy) returns (plan: Plan)
      ensures plan == Take(BooksNow(), ids, start, target, startingFree, policy)
    {
      plan := start;
      var i := 0;
      assert ids[0..] == ids;
      while i < |ids| && NeedsMore(plan.planned, target, startingFree, policy.reclaim.reserve)
        invariant 0 <= i <= |ids|
        invariant Take(BooksNow(), ids[i..], plan, target, startingFree, policy)
               == Take(BooksNow(), ids, start, target, startingFree, policy)
      {
        assert ids[i..][1..] == ids[i + 1..];
        if ids[i] in allocations {
          var units := allocations[ids[i]].units;
          if |plan.victims| >= MAX_VICTIMS || Wrap(plan.planned + units) > policy.reclaim.maxUnits {
            plan := plan.(truncated := true);
            return;
          }
          plan := plan.(victims := plan.victims + [ids[i]], planned := Wrap(plan.planned + units),
                        protectedUsed := plan.protectedUsed || allocations[ids[i]].reclaimClass.Pinned?);
        }
        i := i + 1;
      }
    }

    /** The eligible members of one class, found by visiting the index in whatever order. */
    method Gather(p: u64, policy: Policy, c: ReclaimClass, now: u64) returns (ids: set<u64>)
      requires p in pools
      ensures ids == Candidates(BooksNow(), p, policy, c, now)
    {
      ids := {};
      var todo := pools[p].members;
      while todo != {}
        invariant todo <= pools[p].members
        invariant forall id :: id in ids <==> id in pools[p].members - todo && id in Candidates(BooksNow(), p, policy, c, now)
        decreases todo
      {
        var id :| id in todo;
        if Eligible(BooksNow(), id, policy, now) && allocations[id].reclaimClass == c { ids := ids + {id}; }
        todo := todo - {id};
      }
    }

    /** plan_reclaim_locked: the candidates of each class are gathered, sorted and taken. */
    method PlanReclaim(p: u64, policy: Policy, target: u64, now: u64) returns (plan: Plan)
      requires p in pools
      ensures plan == BuildPlan(BooksNow(), p, policy, target, now)
      ensures Valid() && policy.Valid() ==> Shedding.Chosen(BooksNow(), p, policy.reclaim, target, now, plan.victims)
    {
      hide Take, Candidates, Policy.Valid, Shedding.Chosen;
      if Valid() && policy.Valid() { Shedding.PlanChooses(BooksNow(), queues, p, policy, target, now); }
      var reclaimable := Gather(p, policy, Reclaimable, now);
      var soft := Order.Sort(reclaimable, ReclaimRank(allocations));
      plan := TakeFrom(soft, Plan([], 0, false, false), target, pools[p].Free(), policy);
      if NeedsMore(plan.planned, target, pools[p].Free(), policy.reclaim.reserve) && policy.reclaim.allowProtected {
        var pinned := Gather(p, policy, Pinned, now);
        var hard := Order.Sort(pinned, ReclaimRank(allocations));
        plan := TakeFrom(hard, plan, target, pools[p].Free(), policy);
      }
    }

    /** apply_reclaim_locked: exactly the chosen victims are revoked. */
    method ApplyReclaim(q: ReclaimRequest, now: u64) returns (code: Code)
      modifies this`pools, this`allocations, this`journal, this`shuttingDown
      ensures (Now(), code) == Reclaim.ApplyReclaim(old(Now()), q, now)
      ensures old(Valid()) ==> Valid() && exists victims :: Shedding.ReclaimAnswer(old(Now()), Now(), q, victims, code, now)
    {
      hide BuildPlan, FenceAll, PoolCloses, Inv, Shedding.ReclaimAnswer;
      if Valid() {
        Handlers.ReclaimKeeps(Now(), q, now);
        Shedding.ReclaimAnswers(Now(), q, now);
      }
      if Now().Refusing() { return SHUTTING_DOWN; }
      code := PlanAdmission(Now(), q);
      if code != OK { return; }
      var plan := PlanReclaim(q.pool, policies[pools[q.pool].descriptor.policy], q.target, now);
      code := FenceEach(plan.victims, AnyHolding, AllocationState.Reclaimed, now);
      if code != OK { return; }
      if q.pool in pools && !PoolCloses(policies, pools[q.pool]) {
        shuttingDown := true;
        return ACCOUNTING_VIOLATION;
      }
      return OK;
    }
  }

  lemma PoolKnown(s: Fabric, p: u64, expected: u64)
    requires RemovalGuard(s, p, expected) == OK
    ensures p in s.books.pools
  {
  }

  lemma Admitted(s: Fabric, p: u64, raw: u64, protected: u64, expected: u64)
    requires ResizeGuard(s, p, raw, protected, expected) == OK
    ensures p in s.books.pools && s.books.pools[p].descriptor.policy in s.policies
  {
  }

  lemma HalfStays(r: Allocation, release: u64, now: u64)
    requires r.units != 0
    ensures ReleasedHalf(r, release, now).pool == r.pool
  {
  }
}
