/** Which records a fencing loop stamps: expire_reservations, fence_stale, the fencing of a policy
    change and of a queue. A record is stamped exactly if its own fields say so. */
module Sweeps {
  import opened Arithmetic
  import opened Model
  import opened Ledger
  import opened Topology
  import opened Aggregates
  import opened Invariant
  import opened TopologySteps
  import opened Answers
  import Order

  // ----- Stamps -----

  /** The record has its new state, the tick, and the next revision, and is otherwise as it was. */
  ghost predicate Stamped(r: Allocation, r': Allocation, to: AllocationState, now: u64) {
    r' == r.(state := to, lastTouched := now, revision := (r.revision + 1) % TWO64)
  }

  /** Exactly the records listed are stamped. */
  ghost predicate RecordsStamped(records: Records, records': Records, hit: set<u64>, to: AllocationState, now: u64) {
    && records'.Keys == records.Keys
    && forall id :: id in records ==>
         if id in hit then Stamped(records[id], records'[id], to, now) else records'[id] == records[id]
  }

  /** Exactly the records listed are stamped, one decision is counted, and the tables are as they
      were. */
  ghost predicate Stamps(s: Fabric, s': Fabric, hit: set<u64>, to: AllocationState, now: u64) {
    && s' == s.(books := s'.books, counters := s.counters.(nextDecision := (s.counters.nextDecision + 1) % TWO64))
    && s'.books.nextAllocation == s.books.nextAllocation
    && RecordsStamped(s.books.allocations, s'.books.allocations, hit, to, now)
  }

  ghost function Selected(records: Records, ids: set<u64>, sel: Selector): set<u64> {
    set id | id in ids && id in records && Selects(records[id], sel)
  }

  lemma MarkedIsStamped(r: Allocation, to: AllocationState, now: u64)
    requires !to.Holds()
    ensures Stamped(r, Marked(r, to, now), to, now) && forall sel :: !Selects(Marked(r, to, now), sel)
  {
  }

  lemma HeadStamped(records: Records, records1: Records, records': Records, ids: seq<u64>, sel: Selector,
                    to: AllocationState, now: u64)
    requires ids != [] && !to.Holds() && ids[0] in records && Selects(records[ids[0]], sel)
    requires records1 == records[ids[0] := Marked(records[ids[0]], to, now)]
    requires RecordsStamped(records1, records', Selected(records1, Order.Elements(ids[1..]), sel), to, now)
    ensures RecordsStamped(records, records', Selected(records, Order.Elements(ids), sel), to, now)
  {
    hide Stamped, Marked, Selects;
    MarkedIsStamped(records[ids[0]], to, now);
    var later, all := Selected(records1, Order.Elements(ids[1..]), sel), Selected(records, Order.Elements(ids), sel);
    assert ids == [ids[0]] + ids[1..];
    assert ids[0] in all && ids[0] !in later;
    forall id | id in records
      ensures if id in all then Stamped(records[id], records'[id], to, now) else records'[id] == records[id]
    {
      if id != ids[0] { assert id in all <==> id in later; }
    }
  }

  lemma TailStamped(records: Records, records': Records, ids: seq<u64>, sel: Selector, to: AllocationState, now: u64)
    requires ids != [] && (ids[0] !in records || !Selects(records[ids[0]], sel))
    requires RecordsStamped(records, records', Selected(records, Order.Elements(ids[1..]), sel), to, now)
    ensures RecordsStamped(records, records', Selected(records, Order.Elements(ids), sel), to, now)
  {
    hide Selects;
    assert ids == [ids[0]] + ids[1..];
    assert Selected(records, Order.Elements(ids), sel) == Selected(records, Order.Elements(ids[1..]), sel);
  }

  /** A fencing loop stamps exactly the listed records it selects. */
  lemma {:induction false} FenceAllStamps(b: Books, queues: map<u64, Queue>, ids: seq<u64>, sel: Selector,
                                          to: AllocationState, now: u64)
    requires BooksOk(b, queues) && !to.Holds()
    ensures var (b', code) := FenceAll(b, ids, sel, to, now);
            && code == OK && b'.nextAllocation == b.nextAllocation
            && RecordsStamped(b.allocations, b'.allocations, Selected(b.allocations, Order.Elements(ids), sel), to, now)
    decreases |ids|
  {
    hide BooksOk, RecordsStamped, Selected, FenceOne, Shrunk, Marked, Selects;
    if ids == [] {
      NothingStamped(b.allocations, sel, to, now);
    } else if ids[0] !in b.allocations || !Selects(b.allocations[ids[0]], sel) {
      FenceAllStamps(b, queues, ids[1..], sel, to, now);
      TailStamped(b.allocations, FenceAll(b, ids, sel, to, now).0.allocations, ids, sel, to, now);
    } else {
      HoldsWhenSelected(b.allocations[ids[0]], sel);
      FenceOneKeepsBooks(b, queues, ids[0], to, now);
      FenceOneMarks(b, queues, ids[0], to, now);
      var b1 := FenceOne(b, ids[0], to, now).0;
      FenceAllStamps(b1, queues, ids[1..], sel, to, now);
      HeadStamped(b.allocations, b1.allocations, FenceAll(b, ids, sel, to, now).0.allocations, ids, sel, to, now);
    }
  }

  lemma NothingStamped(records: Records, sel: Selector, to: AllocationState, now: u64)
    ensures RecordsStamped(records, records, Selected(records, Order.Elements([]), sel), to, now)
  {
  }

  lemma FenceOneMarks(b: Books, queues: map<u64, Queue>, id: u64, to: AllocationState, now: u64)
    requires BooksOk(b, queues) && id in b.allocations && b.allocations[id].Holds()
    ensures var b' := FenceOne(b, id, to, now).0;
            b'.allocations == b.allocations[id := Marked(b.allocations[id], to, now)] && b'.nextAllocation == b.nextAllocation
  {
    hide FenceOne, Marked;
    FenceOneShape(b, queues, id, to, now);
  }

  // ----- The two sweeps over a pool's members -----

  /** A pool is swept exactly if it is known and the fabric accepts work; otherwise nothing
      changes. */
  ghost predicate SweepAnswer(s: Fabric, s': Fabric, p: u64, code: Code) {
    && (code == OK <==> !(s.shuttingDown && s.config.refuseAfterShutdown) && p != 0 && p in s.books.pools)
    && (code != OK ==>
          && s' == s
          && code == (if s.shuttingDown && s.config.refuseAfterShutdown then SHUTTING_DOWN
                      else if p == 0 then INVALID_ARGUMENT else UNKNOWN_POOL))
  }

  /** The reservation has lapsed: at its own expiry, or, without one, once the policy's lifetime
      has passed since it was created, that sum being capped at the largest tick. */
  ghost predicate Due(r: Allocation, lifetime: u64, now: u64) {
    && r.state.Reserved?
    && (if r.expiresAt != 0 then r.expiresAt <= now
        else lifetime != 0 && Min(r.createdAt + lifetime, MAX_U64) <= now)
  }

  /** The members of the pool that are due under its policy. */
  ghost function DueIn(s: Fabric, p: u64, now: u64): set<u64>
    requires p in s.books.pools
  {
    var e := s.books.pools[p];
    set id | id in e.members && id in s.books.allocations && e.descriptor.policy in s.policies
             && Due(s.books.allocations[id], s.policies[e.descriptor.policy].reservationTtl, now)
  }

  /** The members of the pool that hold units and are not bound to the present. */
  ghost function StaleIn(s: Fabric, p: u64): set<u64>
    requires p in s.books.pools
  {
    set id | id in s.books.pools[p].members && id in s.books.allocations
             && s.books.allocations[id].Holds() && OutOfForce(s, p, s.books.allocations[id])
  }

  /** One of the generations or the epoch the record is bound to is not the pool's present one. */
  ghost predicate OutOfForce(s: Fabric, p: u64, r: Allocation)
    requires p in s.books.pools
  {
    var e := s.books.pools[p];
    || r.bound.poolGeneration != e.descriptor.generation
    || r.bound.capacityGeneration != e.capacityGeneration
    || (e.descriptor.policy in s.policies && r.bound.policyGeneration != s.policies[e.descriptor.policy].generation)
    || r.bound.epoch != s.epoch
  }

  /** What expire_reservations answers. */
  ghost predicate ExpireAnswer(s: Fabric, s': Fabric, p: u64, code: Code, now: u64) {
    SweepAnswer(s, s', p, code) && (code == OK ==> Stamps(s, s', DueIn(s, p, now), Expired, now))
  }

  /** What fence_stale answers. */
  ghost predicate FenceStaleAnswer(s: Fabric, s': Fabric, p: u64, code: Code, now: u64) {
    SweepAnswer(s, s', p, code) && (code == OK ==> Stamps(s, s', StaleIn(s, p), Fenced, now))
  }

  lemma SweepStamps(s: Fabric, p: u64, sel: Selector, to: AllocationState, now: u64)
    requires Inv(s) && p in s.books.pools && !to.Holds()
    ensures var (s', code) := SweepPool(s, p, sel, to, now);
            code == OK && Stamps(s, s', Selected(s.books.allocations, s.books.pools[p].members, sel), to, now)
  {
    hide FenceAll, RecordsStamped, Selected, Inv, SweepPool;
    InvBooks(s);
    FenceAllStamps(s.books, s.queues, Order.Ascending(s.books.pools[p].members), sel, to, now);
    SweepIs(s, p, sel, to, now);
  }

  lemma SweepIs(s: Fabric, p: u64, sel: Selector, to: AllocationState, now: u64)
    requires p in s.books.pools
    ensures var (b, code) := FenceAll(s.books, Order.Ascending(s.books.pools[p].members), sel, to, now);
            code == OK ==>
              SweepPool(s, p, sel, to, now)
              == (s.(books := b, counters := s.counters.(nextDecision := (s.counters.nextDecision + 1) % TWO64)), OK)
  {
    hide FenceAll;
  }

  lemma InvBooks(s: Fabric)
    requires Inv(s)
    ensures BooksOk(s.books, s.queues)
  {
  }

  lemma LapsedIsDue(r: Allocation, lifetime: u64, now: u64)
    ensures Selects(r, LapsedBy(lifetime, now)) <==> Due(r, lifetime, now)
  {
  }

  lemma PoolAdmissionMeans(s: Fabric, p: u64)
    requires Inv(s)
    ensures PoolAdmission(s, p) == (if s.shuttingDown && s.config.refuseAfterShutdown then SHUTTING_DOWN
                                    else if p == 0 then INVALID_ARGUMENT else if p !in s.books.pools then UNKNOWN_POOL else OK)
  {
    hide BooksOk;
  }

  /** Expiry, for every pool and tick: exactly the reservations of the pool that are due come
      to be expired. */
  lemma ExpireAnswers(s: Fabric, p: u64, now: u64)
    requires Inv(s)
    ensures ExpireAnswer(s, ExpireReservations(s, p, now).0, p, ExpireReservations(s, p, now).1, now)
  {
    hide BooksOk, SweepPool, Stamps, Due, Selects, PoolAdmission;
    PoolAdmissionMeans(s, p);
    if PoolAdmission(s, p) == OK {
      var lifetime := s.policies[s.books.pools[p].descriptor.policy].reservationTtl;
      SweepStamps(s, p, LapsedBy(lifetime, now), Expired, now);
      forall id | id in s.books.allocations
        ensures Selects(s.books.allocations[id], LapsedBy(lifetime, now)) <==> Due(s.books.allocations[id], lifetime, now)
      {
        LapsedIsDue(s.books.allocations[id], lifetime, now);
      }
      assert Selected(s.books.allocations, s.books.pools[p].members, LapsedBy(lifetime, now)) == DueIn(s, p, now);
    }
  }

  /** fence_stale, for every pool: exactly the holders of the pool not bound to the present are
      fenced. */
  lemma FenceStaleAnswers(s: Fabric, p: u64, now: u64)
    requires Inv(s)
    ensures FenceStaleAnswer(s, FenceStale(s, p, now).0, p, FenceStale(s, p, now).1, now)
  {
    hide BooksOk, SweepPool, Stamps, PoolAdmission;
    PoolAdmissionMeans(s, p);
    if PoolAdmission(s, p) == OK {
      var e := s.books.pools[p];
      var sel := StaleFor(CurrentFor(e, s.policies[e.descriptor.policy], s.epoch));
      SweepStamps(s, p, sel, Fenced, now);
      assert Selected(s.books.allocations, e.members, sel) == StaleIn(s, p);
    }
  }

  // ----- Retiring and retargeting a queue -----

  ghost function HoldersOf(s: Fabric, queue: u64): set<u64> {
    set id | id in s.books.allocations && s.books.allocations[id].Holds() && s.books.allocations[id].queue == queue
  }

  /** The queue is replaced, exactly the records listed are fenced, and the other tables stay. */
  ghost predicate QueueReplaced(s: Fabric, s': Fabric, id: u64, q: Queue, hit: set<u64>, now: u64) {
    && s' == s.(queues := s.queues[id := q], books := s'.books) && s'.books.nextAllocation == s.books.nextAllocation
    && RecordsStamped(s.books.allocations, s'.books.allocations, hit, Fenced, now)
  }

  lemma FenceQueueStamps(s: Fabric, id: u64, now: u64)
    requires BooksOk(s.books, s.queues)
    ensures var (b, code) := FenceQueue(s, id, now);
            && code == OK && b.nextAllocation == s.books.nextAllocation
            && RecordsStamped(s.books.allocations, b.allocations, HoldersOf(s, id), Fenced, now)
  {
    hide FenceAll, RecordsStamped, BooksOk;
    FenceAllStamps(s.books, s.queues, Order.Ascending(HeldBy(s.books, id)), AnyHolding, Fenced, now);
    assert Selected(s.books.allocations, HeldBy(s.books, id), AnyHolding) == HoldersOf(s, id);
  }

  /** A queue known under the asserted generation and not retired yet is retired under the next
      generation, and its holders are fenced if the fabric is so configured. */
  ghost predicate RetireAnswer(s: Fabric, s': Fabric, id: u64, expected: u64, code: Code, now: u64) {
    if id == 0 then code == INVALID_ARGUMENT && s' == s
    else if id !in s.queues then code == UNKNOWN_QUEUE && s' == s
    else
      var q := s.queues[id];
      if !Asserted(expected, q.generation) then code == STALE_GENERATION && s' == s
      else if q.retired then code == OK && s' == s
      else if q.generation == MAX_U64 then code == OVERFLOW && s' == s
      else
        code == OK && QueueReplaced(s, s', id, q.(retired := true, generation := q.generation + 1),
                                    if s.config.autoFenceOnRetirement then HoldersOf(s, id) else {}, now)
  }

  lemma RetireAnswers(s: Fabric, id: u64, expected: u64, now: u64)
    requires Inv(s)
    ensures RetireAnswer(s, RetireQueue(s, id, expected, now).0, id, expected, RetireQueue(s, id, expected, now).1, now)
  {
    hide BooksOk, FenceQueue, RecordsStamped, HoldersOf;
    if RetireGuard(s, id, expected) == OK {
      var s1 := WithQueue(s, RetiredQueue(s.queues[id]));
      QueueKeptKeepsInv(s, s1, RetiredQueue(s.queues[id]));
      if s.config.autoFenceOnRetirement {
        FenceQueueStamps(s1, id, now);
        SameHolders(s, s1, id);
      } else {
        NoneStamped(s.books.allocations, now);
      }
    }
  }

  lemma SameHolders(s: Fabric, s1: Fabric, id: u64)
    requires s1.books.allocations == s.books.allocations
    ensures HoldersOf(s1, id) == HoldersOf(s, id)
  {
  }

  lemma NoneStamped(records: Records, now: u64)
    ensures RecordsStamped(records, records, {}, Fenced, now)
  {
  }

  /** A queue known under the asserted generation and not retired is moved to another pool that
      exists, under the next generation, and its holders are fenced. */
  ghost predicate RetargetAnswer(s: Fabric, s': Fabric, id: u64, target: u64, expected: u64, code: Code, now: u64) {
    if id == 0 then code == INVALID_ARGUMENT && s' == s
    else if id !in s.queues then code == UNKNOWN_QUEUE && s' == s
    else
      var q := s.queues[id];
      if !Asserted(expected, q.generation) then code == STALE_GENERATION && s' == s
      else if q.retired then code == WRONG_STATE && s' == s
      else if target !in s.books.pools then code == UNKNOWN_POOL && s' == s
      else if q.pool == target then code == OK && s' == s
      else if q.generation == MAX_U64 then code == OVERFLOW && s' == s
      else
        code == OK && QueueReplaced(s, s', id, q.(pool := target, generation := q.generation + 1), HoldersOf(s, id), now)
  }

  lemma RetargetAnswers(s: Fabric, id: u64, target: u64, expected: u64, now: u64)
    requires Inv(s)
    ensures RetargetAnswer(s, RetargetQueue(s, id, target, expected, now).0, id, target, expected,
                           RetargetQueue(s, id, target, expected, now).1, now)
  {
    hide BooksOk, FenceQueue, RecordsStamped, HoldersOf;
    FenceQueueStamps(s, id, now);
  }

  // ----- Publishing a policy -----

  /** The holders that a change of policy fences: members of a pool it governs, bound to another
      generation of it. */
  ghost function Outdated(b: Books, order: seq<u64>, policy: u64, generation: u64): set<u64> {
    set id | id in b.allocations && Lags(b, order, policy, generation, id)
  }

  ghost predicate Lags(b: Books, order: seq<u64>, policy: u64, generation: u64, id: u64)
    requires id in b.allocations
  {
    && b.allocations[id].Holds() && b.allocations[id].bound.policyGeneration != generation
    && exists p :: p in order && p in b.pools && b.pools[p].descriptor.policy == policy && id in b.pools[p].members
  }

  lemma StampsCompose(a: Records, b: Records, c: Records, first: set<u64>, second: set<u64>, to: AllocationState, now: u64)
    requires RecordsStamped(a, b, first, to, now) && RecordsStamped(b, c, second, to, now) && first !! second
    ensures RecordsStamped(a, c, first + second, to, now)
  {
    hide Stamped;
  }

  /** After one pool's members are fenced, what is still to be fenced is what was, less those. */
  lemma OutdatedLeft(b: Books, b1: Books, order: seq<u64>, policy: u64, generation: u64, now: u64)
    requires order != [] && order[0] in b.pools && b.pools[order[0]].descriptor.policy == policy
    requires Shrunk(b, b1) && Indexed(b.pools, b.allocations)
    requires RecordsStamped(b.allocations, b1.allocations,
                            Selected(b.allocations, b.pools[order[0]].members, OtherPolicyGeneration(generation)), Fenced, now)
    ensures var hit := Selected(b.allocations, b.pools[order[0]].members, OtherPolicyGeneration(generation));
            var left := Outdated(b1, order[1..], policy, generation);
            hit !! left && Outdated(b, order, policy, generation) == hit + left
  {
    hide RecordsShrunk;
    var hit := Selected(b.allocations, b.pools[order[0]].members, OtherPolicyGeneration(generation));
    forall id | id in b.allocations
      ensures Lags(b, order, policy, generation, id) <==> id in hit || Lags(b1, order[1..], policy, generation, id)
      ensures id in hit ==> !Lags(b1, order[1..], policy, generation, id)
    {
      LagsOrHit(b, b1, order, policy, generation, id, id in hit);
    }
  }

  lemma LagsOrHit(b: Books, b1: Books, order: seq<u64>, policy: u64, generation: u64, id: u64, hit: bool)
    requires order != [] && order[0] in b.pools && b.pools[order[0]].descriptor.policy == policy
    requires SameTopology(b.pools, b1.pools) && IndexShrunk(b, b1) && id in b.allocations && id in b1.allocations
    requires hit <==> id in b.pools[order[0]].members && b.allocations[id].Holds()
                      && b.allocations[id].bound.policyGeneration != generation
    requires if hit then !b1.allocations[id].Holds() else b1.allocations[id] == b.allocations[id]
    ensures Lags(b, order, policy, generation, id) <==> hit || Lags(b1, order[1..], policy, generation, id)
    ensures hit ==> !Lags(b1, order[1..], policy, generation, id)
  {
    if Lags(b, order, policy, generation, id) && !hit {
      var p :| p in order && p in b.pools && b.pools[p].descriptor.policy == policy && id in b.pools[p].members;
      assert p in order[1..];
      assert p in b1.pools && id in b1.pools[p].members;
    }
    if Lags(b1, order[1..], policy, generation, id) && !hit {
      var p :| p in order[1..] && p in b1.pools && b1.pools[p].descriptor.policy == policy && id in b1.pools[p].members;
      assert p in order && p in b.pools && id in b.pools[p].members;
    }
  }

  lemma OutdatedSkips(b: Books, order: seq<u64>, policy: u64, generation: u64)
    requires order != [] && (order[0] !in b.pools || b.pools[order[0]].descriptor.policy != policy)
    ensures Outdated(b, order, policy, generation) == Outdated(b, order[1..], policy, generation)
  {
    assert order == [order[0]] + order[1..];
    forall id | id in b.allocations ensures Lags(b, order, policy, generation, id) <==> Lags(b, order[1..], policy, generation, id) {}
  }

  /** The fencing loop of publish_policy stamps exactly the outdated holders. */
  lemma {:induction false} FencePoolsStamps(b: Books, queues: map<u64, Queue>, order: seq<u64>, policy: u64,
                                            generation: u64, now: u64)
    requires BooksOk(b, queues)
    ensures var (b', code) := FencePools(b, order, policy, generation, now);
            && code == OK && b'.nextAllocation == b.nextAllocation
            && RecordsStamped(b.allocations, b'.allocations, Outdated(b, order, policy, generation), Fenced, now)
    decreases |order|
  {
    hide BooksOk, RecordsStamped, Outdated, Selected, FenceAll, Shrunk;
    if order == [] {
      NothingOutdated(b, policy, generation, now);
    } else if order[0] !in b.pools || b.pools[order[0]].descriptor.policy != policy {
      OutdatedSkips(b, order, policy, generation);
      FencePoolsStamps(b, queues, order[1..], policy, generation, now);
    } else {
      var ids := Order.Ascending(b.pools[order[0]].members);
      var b1 := FenceAll(b, ids, OtherPolicyGeneration(generation), Fenced, now).0;
      FenceAllKeepsBooks(b, queues, ids, OtherPolicyGeneration(generation), Fenced, now);
      FenceAllStamps(b, queues, ids, OtherPolicyGeneration(generation), Fenced, now);
      FencePoolsStamps(b1, queues, order[1..], policy, generation, now);
      BooksIndexed(b, queues);
      OutdatedLeft(b, b1, order, policy, generation, now);
      StampsCompose(b.allocations, b1.allocations, FencePools(b, order, policy, generation, now).0.allocations,
                    Selected(b.allocations, b.pools[order[0]].members, OtherPolicyGeneration(generation)),
                    Outdated(b1, order[1..], policy, generation), Fenced, now);
    }
  }

  lemma BooksIndexed(b: Books, queues: map<u64, Queue>)
    requires BooksOk(b, queues)
    ensures Indexed(b.pools, b.allocations)
  {
  }

  lemma NothingOutdated(b: Books, policy: u64, generation: u64, now: u64)
    ensures RecordsStamped(b.allocations, b.allocations, Outdated(b, [], policy, generation), Fenced, now)
  {
  }
}
