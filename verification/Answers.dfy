/** When each operation on existing records succeeds, what it then does to them, and with which
    status it fails otherwise: all in terms of the fields of the tables. */
module Answers {
  import opened Arithmetic
  import opened Model
  import opened Attempts
  import opened Grants
  import opened Ledger
  import opened Aggregates
  import opened Invariant
  import opened AllocationSteps
  import opened Split
  import opened Steps
  import opened Handlers

  // ----- Shared conditions -----

  /** A generation or epoch the caller did not assert, or asserted correctly. */
  predicate Asserted(expected: u64, actual: u64) { expected == 0 || expected == actual }

  /** The record is there, with its pool, policy and queue. */
  ghost predicate Knows(s: Fabric, id: u64) { id in s.books.allocations && Tracked(s, s.books.allocations[id]) }

  /** Why a record is not known in full. */
  ghost predicate Untraceable(s: Fabric, id: u64, code: Code) {
    if id !in s.books.allocations then code == UNKNOWN_ALLOCATION
    else
      var r := s.books.allocations[id];
      || (code == INVALID_ARGUMENT && (r.pool == 0 || r.queue == 0))
      || (code == UNKNOWN_POOL && r.pool !in s.books.pools)
      || (code == UNKNOWN_POLICY && r.pool in s.books.pools && s.books.pools[r.pool].descriptor.policy !in s.policies)
      || (code == UNKNOWN_QUEUE && r.queue !in s.queues)
  }

  /** The answers every operation on an existing record gives before it looks at the record:
      an attempt without identity, one used for another request, one answered already, and a
      record that is not known in full. Nothing changes. */
  ghost predicate AnswersEarly(s: Fabric, s': Fabric, attempt: u64, digest: Digest, id: u64, outcome: Outcome) {
    && s' == s
    && (attempt == 0 ==> outcome == Failed(INVALID_ARGUMENT))
    && (attempt != 0 && attempt in s.attempts.records && s.attempts.records[attempt].digest != digest ==>
          outcome == Failed(ATTEMPT_CONFLICT))
    && (attempt != 0 && (attempt in s.attempts.records ==> s.attempts.records[attempt].digest == digest) && !Knows(s, id) ==>
          outcome.Failed? && Untraceable(s, id, outcome.code))
    && (attempt != 0 && attempt in s.attempts.records && s.attempts.records[attempt].digest == digest && Knows(s, id) ==>
          outcome == Decided(IdempotentReplay, s.attempts.records[attempt].outcome, s.attempts.records[attempt].granted,
                             s.books.allocations[id].id))
  }

  /** A new attempt on a record known in full: the cases AnswersEarly leaves. */
  ghost predicate Considered(s: Fabric, attempt: u64, id: u64) {
    attempt != 0 && attempt !in s.attempts.records && Knows(s, id)
  }

  lemma AdmissionMeans(s: Fabric, attempt: u64, digest: Digest, id: u64)
    ensures var code := ExistingAdmission(s, attempt, digest, id);
            && (code == OK <==> attempt != 0 && Knows(s, id)
                                && (attempt in s.attempts.records ==> s.attempts.records[attempt].digest == digest))
            && (attempt == 0 ==> code == INVALID_ARGUMENT)
            && (attempt != 0 && attempt in s.attempts.records && s.attempts.records[attempt].digest != digest ==>
                  code == ATTEMPT_CONFLICT)
            && (attempt != 0 && (attempt in s.attempts.records ==> s.attempts.records[attempt].digest == digest) && !Knows(s, id) ==>
                  Untraceable(s, id, code))
  {
  }

  /** Own usage is beyond usable capacity and the policy's overcommit limit. */
  ghost predicate Overdrawn(s: Fabric, p: u64)
    requires p in s.books.pools && s.books.pools[p].descriptor.policy in s.policies
  {
    var e := s.books.pools[p];
    var overcommit := s.policies[e.descriptor.policy].overcommit;
    e.ownUsage + e.descriptor.protected > e.descriptor.raw + (if overcommit.mode.Bounded? then overcommit.limit else 0)
  }

  lemma OverdrawnIs(s: Fabric, p: u64)
    requires PoolsOk(s.books.pools) && p in s.books.pools && s.books.pools[p].descriptor.policy in s.policies
    ensures Overdrawn(s, p) <==> !WithinAllowance(s.books.pools[p], s.policies[s.books.pools[p].descriptor.policy])
  {
    assert PoolOk(s.books.pools[p], p);
  }

  /** Books changed as intended, and the pool verified afterwards: the decision, or, for a pool
      found overdrawn, a shutdown. */
  ghost predicate Closing(s': Fabric, p: u64, outcome: Outcome, units: u64, id: u64) {
    && p in s'.books.pools && s'.books.pools[p].descriptor.policy in s'.policies
    && outcome == (if Overdrawn(s', p) then Failed(ACCOUNTING_VIOLATION) else Decided(NoOp, OK, units, id))
    && (Overdrawn(s', p) ==> s'.shuttingDown)
  }

  /** What else becomes of a decision on a new attempt: it is counted and remembered with what was
      answered. A failure after the books changed leaves only them and the shutdown flag. */
  ghost predicate Aftermath(s: Fabric, s': Fabric, kind: AttemptKind, attempt: u64, digest: Digest, outcome: Outcome, now: u64) {
    if outcome.Decided? then
      && s' == s.(books := s'.books, attempts := s'.attempts,
                  counters := s.counters.(nextDecision := (s.counters.nextDecision + 1) % TWO64))
      && s'.attempts == Record(s.attempts, Attempt(attempt, kind, digest, outcome.status, outcome.allocation,
                                                   outcome.granted, s.counters.nextDecision, now, false))
    else s' == s.(books := s'.books, shuttingDown := s'.shuttingDown)
  }

  lemma SettledCloses(s1: Fabric, p: u64, res: (Fabric, Outcome), id: u64, units: u64)
    requires Inv(s1) && p in s1.books.pools && s1.books.pools[p].descriptor.policy in s1.policies
    requires Settled(s1, p, res, id, units)
    ensures Closing(res.0, p, res.1, units, id)
  {
    hide RecordsOk, Agrees, InRange, Indexed, Forest, WithinAllowance, Overdrawn;
    OverdrawnIs(s1, p);
    OverdrawnIs(res.0, p);
  }

  // ----- Commit -----

  /** The record may be committed: a reservation that is current, under assertions that hold. */
  ghost predicate Committable(s: Fabric, q: CommitRequest)
    requires Knows(s, q.allocation)
  {
    var r := s.books.allocations[q.allocation];
    && r.state.Reserved? && InForce(s, r)
    && Asserted(q.expectedEpoch, s.epoch) && Asserted(q.expectedPool, s.books.pools[r.pool].descriptor.generation)
  }

  /** The status for each condition that fails, those before it holding. */
  ghost predicate CommitRefused(s: Fabric, q: CommitRequest, code: Code)
    requires Knows(s, q.allocation)
  {
    var r := s.books.allocations[q.allocation];
    var epoch := Asserted(q.expectedEpoch, s.epoch);
    var asserted := epoch && Asserted(q.expectedPool, s.books.pools[r.pool].descriptor.generation);
    && (!epoch ==> code == STALE_EPOCH)
    && (epoch && !asserted ==> code == STALE_GENERATION)
    && (asserted && !r.state.Reserved? ==> code == WRONG_STATE)
    && (asserted && r.state.Reserved? && !InForce(s, r) ==> code == STALE_GENERATION)
  }

  ghost predicate CommitAnswer(s: Fabric, s': Fabric, q: CommitRequest, outcome: Outcome, now: u64) {
    if !Considered(s, q.attempt, q.allocation) then AnswersEarly(s, s', q.attempt, q.digest, q.allocation, outcome)
    else if Committable(s, q) then
      var r := s.books.allocations[q.allocation];
      && CommitsOne(s, s', q.allocation, now) && Closing(s', r.pool, outcome, r.units, q.allocation)
      && Aftermath(s, s', CommitAttempt, q.attempt, q.digest, outcome, now)
    else s' == s && outcome.Failed? && CommitRefused(s, q, outcome.code)
  }

  lemma GuardIsCommittable(s: Fabric, q: CommitRequest)
    requires ExistingAdmission(s, q.attempt, q.digest, q.allocation) == OK && Knows(s, q.allocation)
    ensures CommitGuard(s, q) == OK <==> Committable(s, q)
    ensures CommitGuard(s, q) != OK ==> CommitRefused(s, q, CommitGuard(s, q))
  {
    hide ExistingAdmission;
  }

  /** Commit, for every request: exactly a reservation that is current, under assertions that
      hold, is promoted, and that and nothing else happens. */
  lemma CommitAnswers(s: Fabric, q: CommitRequest, now: u64)
    requires Inv(s)
    ensures CommitAnswer(s, Commit(s, q, now).0, q, Commit(s, q, now).1, now)
  {
    hide Inv, CommitsOne, CommitGuard, Settled, Aftermath, Promoted, Settle, Committable, CommitRefused, ExistingAdmission, Knows,
      Untraceable, Closing;
    AdmissionMeans(s, q.attempt, q.digest, q.allocation);
    if ExistingAdmission(s, q.attempt, q.digest, q.allocation) == OK {
      GuardIsCommittable(s, q);
      if Considered(s, q.attempt, q.allocation) && Committable(s, q) {
        CommitDone(s, q, now);
        CommitAftermath(s, q, now);
      }
    }
  }

  lemma CommitAftermath(s: Fabric, q: CommitRequest, now: u64)
    requires Committing(s, q, now) && Knows(s, q.allocation) && Considered(s, q.attempt, q.allocation)
    ensures Aftermath(s, Commit(s, q, now).0, CommitAttempt, q.attempt, q.digest, Commit(s, q, now).1, now)
  {
    hide CommitGuard, Promoted, ExistingAdmission, PoolCloses, Record;
  }

  lemma CommitDone(s: Fabric, q: CommitRequest, now: u64)
    requires Inv(s) && Committing(s, q, now) && Knows(s, q.allocation)
    ensures var (s', outcome) := Commit(s, q, now);
            var r := s.books.allocations[q.allocation];
            CommitsOne(s, s', q.allocation, now) && Closing(s', r.pool, outcome, r.units, q.allocation)
  {
    hide CommitsOne, CommitGuard, Settled, Promoted, Commit, ExistingAdmission, Closing, Agrees, InRange, Indexed, Forest, PoolsOk;
    var r := s.books.allocations[q.allocation];
    var s1 := s.(books := Promoted(s.books, q.allocation, now));
    CommitStep(s, q, now);
    assert r.id == q.allocation;
    SettledCloses(s1, r.pool, Commit(s, q, now), q.allocation, r.units);
    CommitGuardFacts(s, q);
    BecomesPromoted(s, q, now);
    PromotionCommits(s, Commit(s, q, now).0, q.allocation, now);
  }

  lemma BecomesPromoted(s: Fabric, q: CommitRequest, now: u64)
    requires Committing(s, q, now) && Knows(s, q.allocation) && s.books.allocations[q.allocation].state.Reserved?
    ensures Changes(s, Commit(s, q, now).0, Promote(q.allocation), now)
  {
    hide CommitGuard, Promoted, ExistingAdmission, PoolCloses, Record;
  }

  // ----- Release -----

  /** The units a release asks for: all the record has, or as many as it names. */
  ghost function Wanted(r: Allocation, q: ReleaseRequest): u64 { if q.releaseAll then r.units else q.units }

  /** Units may be returned: the record holds them, and the asserted epoch is the present one. */
  ghost predicate Returnable(s: Fabric, q: ReleaseRequest)
    requires Knows(s, q.allocation)
  {
    var r := s.books.allocations[q.allocation];
    Asserted(q.expectedEpoch, s.epoch) && r.Holds() && 0 < Wanted(r, q) <= r.units
  }

  ghost predicate ReleaseAnswer(s: Fabric, s': Fabric, q: ReleaseRequest, outcome: Outcome, now: u64) {
    if !Considered(s, q.attempt, q.allocation) then AnswersEarly(s, s', q.attempt, q.digest, q.allocation, outcome)
    else
      var r := s.books.allocations[q.allocation];
      if Returnable(s, q) then
        && ReturnsOne(s, s', q.allocation, Wanted(r, q), now) && Closing(s', r.pool, outcome, Wanted(r, q), q.allocation)
        && Aftermath(s, s', ReleaseAttempt, q.attempt, q.digest, outcome, now)
      else
        && s'.books == s.books && Aftermath(s, s', ReleaseAttempt, q.attempt, q.digest, outcome, now)
        && (outcome.Failed? ==> s' == s)
        && outcome == (if !Asserted(q.expectedEpoch, s.epoch) then Failed(STALE_EPOCH)
                       else if r.Holds() then Failed(INVALID_ARGUMENT)
                       else Decided(NoOp, OK, 0, q.allocation))
  }

  /** Release, for every request whose split holds: exactly a holder gives back exactly the units
      wanted; a record that holds nothing any more is left alone and the call succeeds. */
  lemma ReleaseAnswers(s: Fabric, q: ReleaseRequest, now: u64)
    requires Inv(s) && SplitAdmissible(s, DoRelease(q))
    ensures ReleaseAnswer(s, Release(s, q, now).0, q, Release(s, q, now).1, now)
  {
    hide Inv, ReturnsOne, Release, ExistingAdmission, Knows, Untraceable, Closing, Settled, Aftermath;
    AdmissionMeans(s, q.attempt, q.digest, q.allocation);
    if ExistingAdmission(s, q.attempt, q.digest, q.allocation) == OK && Considered(s, q.attempt, q.allocation) {
      if Returnable(s, q) {
        ReleaseDone(s, q, now);
        ReleaseAftermath(s, q, now);
      } else {
        ReleaseNotDone(s, q, now);
      }
    } else {
      ReleaseEarly(s, q, now);
    }
  }

  lemma ReleaseEarly(s: Fabric, q: ReleaseRequest, now: u64)
    requires ExistingAdmission(s, q.attempt, q.digest, q.allocation) == OK ==> q.attempt in s.attempts.records
    ensures AnswersEarly(s, Release(s, q, now).0, q.attempt, q.digest, q.allocation, Release(s, q, now).1)
  {
    hide ExistingAdmission, Knows, Untraceable, Returning, Settle;
    AdmissionMeans(s, q.attempt, q.digest, q.allocation);
  }

  lemma ReleaseNotDone(s: Fabric, q: ReleaseRequest, now: u64)
    requires Inv(s) && ExistingAdmission(s, q.attempt, q.digest, q.allocation) == OK
    requires Considered(s, q.attempt, q.allocation) && !Returnable(s, q)
    ensures ReleaseAnswer(s, Release(s, q, now).0, q, Release(s, q, now).1, now)
  {
    hide ExistingAdmission, ReturnsOne, Returning, Settle, Record, Inv, Closing, Tracked;
    RecordFacts(s, q.allocation);
  }

  lemma RecordFacts(s: Fabric, id: u64)
    requires Inv(s) && id in s.books.allocations
    ensures s.books.allocations[id].id == id && (s.books.allocations[id].Holds() ==> s.books.allocations[id].units > 0)
  {
    hide Agrees, InRange, Indexed, Forest, PoolsOk;
    if s.books.allocations[id].Holds() { assert HolderOk(s.books.allocations[id], s.books.pools, s.queues); }
  }

  lemma ReleaseAftermath(s: Fabric, q: ReleaseRequest, now: u64)
    requires ExistingAdmission(s, q.attempt, q.digest, q.allocation) == OK
    requires Considered(s, q.attempt, q.allocation) && Returnable(s, q)
    ensures Aftermath(s, Release(s, q, now).0, ReleaseAttempt, q.attempt, q.digest, Release(s, q, now).1, now)
  {
    hide Returning, ExistingAdmission, PoolCloses, Record, Tracked;
  }

  lemma ReleaseDone(s: Fabric, q: ReleaseRequest, now: u64)
    requires Inv(s) && SplitAdmissible(s, DoRelease(q)) && ExistingAdmission(s, q.attempt, q.digest, q.allocation) == OK
    requires Considered(s, q.attempt, q.allocation) && Returnable(s, q)
    ensures var (s', outcome) := Release(s, q, now);
            var r := s.books.allocations[q.allocation];
            ReturnsOne(s, s', q.allocation, Wanted(r, q), now) && Closing(s', r.pool, outcome, Wanted(r, q), q.allocation)
  {
    hide ReturnsOne, Settled, Returning, Release, ExistingAdmission, Closing, Agrees, InRange, Indexed, Forest, PoolsOk, SplitHolds;
    var r := s.books.allocations[q.allocation];
    assert Releasing(s, q) && Asked(r, q) == Wanted(r, q) && r.id == q.allocation;
    ReleasingFacts(s, q);
    ReleaseStep(s, q, now);
    var s1 := s.(books := Returning(s.books, q.allocation, Asked(r, q), now).0);
    ReleaseMeans(s, q, now);
    SettledCloses(s1, r.pool, Release(s, q, now), q.allocation, Asked(r, q));
  }

  // ----- Revalidate -----

  ghost predicate RevalidateAnswer(s: Fabric, s': Fabric, q: RevalidateRequest, outcome: Outcome, now: u64) {
    if !Considered(s, q.attempt, q.allocation) then AnswersEarly(s, s', q.attempt, q.digest, q.allocation, outcome)
    else
      var r := s.books.allocations[q.allocation];
      if Asserted(q.expectedEpoch, s.epoch) && r.Holds() && InForce(s, r) then
        && RebindsOne(s, s', q.allocation, now) && outcome == Decided(NoOp, OK, r.units, q.allocation)
        && Aftermath(s, s', RevalidateAttempt, q.attempt, q.digest, outcome, now)
      else
        && (if outcome.Failed? then s' == s
            else s' == s.(counters := s.counters.(nextDecision := (s.counters.nextDecision + 1) % TWO64)))
        && outcome == (if !Asserted(q.expectedEpoch, s.epoch) then Failed(STALE_EPOCH)
                       else if !r.Holds() then Failed(FENCED)
                       else Decided(FenceRequired, STALE_GENERATION, 0, q.allocation))
  }

  /** Revalidate, for every request: exactly a holder that is current is bound anew; a holder
      that is not is to be fenced, and stays as it is. */
  lemma RevalidateAnswers(s: Fabric, q: RevalidateRequest, now: u64)
    requires Inv(s)
    ensures RevalidateAnswer(s, Revalidate(s, q, now).0, q, Revalidate(s, q, now).1, now)
  {
    hide Inv, RebindsOne, Revalidate, ExistingAdmission, Knows, Untraceable;
    AdmissionMeans(s, q.attempt, q.digest, q.allocation);
    if ExistingAdmission(s, q.attempt, q.digest, q.allocation) == OK && Considered(s, q.attempt, q.allocation) {
      RevalidateMeans(s, q, now);
      RevalidateConsidered(s, q, now);
      RevalidateAftermath(s, q, now);
    } else {
      RevalidateEarly(s, q, now);
    }
  }

  lemma RevalidateEarly(s: Fabric, q: RevalidateRequest, now: u64)
    requires ExistingAdmission(s, q.attempt, q.digest, q.allocation) == OK ==> q.attempt in s.attempts.records
    ensures AnswersEarly(s, Revalidate(s, q, now).0, q.attempt, q.digest, q.allocation, Revalidate(s, q, now).1)
  {
    hide ExistingAdmission, Knows, Untraceable, Rebound, Record, Renewed, StaleBinding;
    AdmissionMeans(s, q.attempt, q.digest, q.allocation);
    if ExistingAdmission(s, q.attempt, q.digest, q.allocation) == OK {
      ExistingFacts(s, q.attempt, q.digest, q.allocation);
    }
  }

  lemma RevalidateAftermath(s: Fabric, q: RevalidateRequest, now: u64)
    requires ExistingAdmission(s, q.attempt, q.digest, q.allocation) == OK && Considered(s, q.attempt, q.allocation)
    ensures var (s', outcome) := Revalidate(s, q, now);
            && (outcome.Decided? && outcome.kind.NoOp? ==>
                  Aftermath(s, s', RevalidateAttempt, q.attempt, q.digest, outcome, now))
            && (outcome.Decided? && !outcome.kind.NoOp? ==>
                  s' == s.(counters := s.counters.(nextDecision := (s.counters.nextDecision + 1) % TWO64)))
            && (outcome.Failed? ==> s' == s)
  {
    hide ExistingAdmission, Rebound, Record, Renewed, StaleBinding;
    ExistingFacts(s, q.attempt, q.digest, q.allocation);
  }

  lemma RevalidateConsidered(s: Fabric, q: RevalidateRequest, now: u64)
    requires Inv(s) && ExistingAdmission(s, q.attempt, q.digest, q.allocation) == OK && Considered(s, q.attempt, q.allocation)
    ensures var r := s.books.allocations[q.allocation];
            Revalidate(s, q, now).1
            == (if !Asserted(q.expectedEpoch, s.epoch) then Failed(STALE_EPOCH)
                else if !r.Holds() then Failed(FENCED)
                else if InForce(s, r) then Decided(NoOp, OK, r.units, q.allocation)
                else Decided(FenceRequired, STALE_GENERATION, 0, q.allocation))
  {
    hide ExistingAdmission, Rebound, Record, Renewed, Agrees, InRange, Indexed, Forest;
    var r := s.books.allocations[q.allocation];
    assert r.id == q.allocation && PoolOk(s.books.pools[r.pool], r.pool);
    if r.Holds() { assert HolderOk(r, s.books.pools, s.queues); }
  }
}
