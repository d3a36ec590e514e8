/** The journal mirrors the live tables: after every completed operation, replaying what
    was journaled reproduces the live pools, policies, capacities and allocations. */
module Mirror {
  import opened Arithmetic
  import opened Model
  import opened Grants
  import opened Ledger
  import opened Topology
  import opened Aggregates
  import opened Invariant
  import opened Transitions
  import opened AllocationSteps
  import opened TopologySteps
  import opened Steps
  import opened Runs
  import opened Split
  import opened Image
  import Order

  function PoolsImage(pools: Pools): map<u64, PoolImage> {
    map p | p in pools :: PoolImage(pools[p].descriptor, pools[p].capacityGeneration)
  }

  /** The live tables, as a durable image. */
  function CoreOf(b: Books, policies: map<u64, Policy>, capacities: map<u64, Capacity>): Core {
    Core(PoolsImage(b.pools), policies, capacities, b.allocations)
  }

  /** A record recovery accepts, bound to the epoch it was written in. */
  predicate Sane(r: JournalRecord, epoch: u64) {
    && Applicable(r) && (r.PressureObserved? ==> r.snapshot.epoch <= epoch)
    && !r.EpochAdvance? && !r.QueueRetired? && !r.AttemptRecorded?
    && (r.QueueUpsert? ==> |r.queue.name| <= MAX_NAME)
  }

  predicate AllSane(js: seq<JournalRecord>, epoch: u64) { forall i :: 0 <= i < |js| ==> Sane(js[i], epoch) }

  lemma SameTopologyImage(pools: Pools, pools': Pools)
    requires SameTopology(pools, pools')
    ensures PoolsImage(pools') == PoolsImage(pools)
  {
  }

  // ----- Fencing loops -----

  /** Only allocation records were journaled, they account for the change, and none of them
      is a grant. */
  ghost predicate Accounted(b: Books, b': Books, js: seq<JournalRecord>) {
    && b'.journal == b.journal + js
    && (forall i :: 0 <= i < |js| ==> js[i].AllocationUpsert? && js[i].allocation.units <= MAX_UNITS)
    && (forall c: Core :: c.allocations == b.allocations ==> Replay(c, js) == c.(allocations := b'.allocations))
    && b'.nextAllocation == b.nextAllocation
    && (forall c: Core, next: u64 :: c.allocations == b.allocations ==> ReplayNext(c, next, js) == next)
  }

  lemma AccountedNone(b: Books)
    ensures Accounted(b, b, [])
  {
    assert b.journal == b.journal + [];
  }

  lemma AccountedOne(b: Books, b': Books, op: AllocationOp, r: Allocation)
    requires b'.journal == b.journal + [AllocationUpsert(op, r)] && b'.allocations == b.allocations[r.id := r]
    requires r.units <= MAX_UNITS && r.id in b.allocations && b.allocations[r.id].Holds()
    requires b'.nextAllocation == b.nextAllocation
    ensures Accounted(b, b', [AllocationUpsert(op, r)])
  {
    var js := [AllocationUpsert(op, r)];
    forall c: Core, next: u64 | c.allocations == b.allocations ensures ReplayNext(c, next, js) == next {
      ReplayNextOne(c, next, js[0]);
    }
    forall c: Core | c.allocations == b.allocations ensures Replay(c, js) == c.(allocations := b'.allocations) {
      ReplayOne(c, js[0]);
    }
  }

  lemma AccountedThen(b: Books, b1: Books, b2: Books, js: seq<JournalRecord>, ks: seq<JournalRecord>)
    requires Accounted(b, b1, js) && Accounted(b1, b2, ks)
    ensures Accounted(b, b2, js + ks)
  {
    assert b.journal + (js + ks) == (b.journal + js) + ks;
    forall c: Core | c.allocations == b.allocations ensures Replay(c, js + ks) == c.(allocations := b2.allocations) {
      ReplayAppend(c, js, ks);
      assert Replay(c, js) == c.(allocations := b1.allocations);
    }
    forall c: Core, next: u64 | c.allocations == b.allocations ensures ReplayNext(c, next, js + ks) == next {
      ReplayNextAppend(c, next, js, ks);
      assert Replay(c, js) == c.(allocations := b1.allocations);
      assert ReplayNext(c, next, js) == next;
    }
  }

  /** Where a loop stood once it had journaled js: whole books over the same pools. */
  ghost predicate Midway(b: Books, m: Books, js: seq<JournalRecord>, queues: map<u64, Queue>) {
    Accounted(b, m, js) && BooksOk(m, queues) && SameTopology(b.pools, m.pools)
  }

  ghost predicate WholeAt(b: Books, js: seq<JournalRecord>, queues: map<u64, Queue>) { exists m :: Midway(b, m, js, queues) }

  /** The books were whole after every single record. */
  ghost predicate Traced(b: Books, b': Books, js: seq<JournalRecord>, queues: map<u64, Queue>) {
    && Midway(b, b', js, queues)
    && forall i :: 0 <= i <= |js| ==> WholeAt(b, js[..i], queues)
  }

  lemma TracedNone(b: Books, queues: map<u64, Queue>)
    requires BooksOk(b, queues)
    ensures Traced(b, b, [], queues)
  {
    hide BooksOk, Accounted;
    AccountedNone(b);
    assert Midway(b, b, [], queues);
    var none: seq<JournalRecord> := [];
    forall i | 0 <= i <= |none| ensures WholeAt(b, none[..i], queues) { assert none[..i] == none; }
  }

  lemma TracedOne(b: Books, b': Books, r: JournalRecord, queues: map<u64, Queue>)
    requires BooksOk(b, queues) && Midway(b, b', [r], queues)
    ensures Traced(b, b', [r], queues)
  {
    hide BooksOk, Accounted;
    AccountedNone(b);
    assert Midway(b, b, [], queues);
    forall i | 0 <= i <= |[r]| ensures WholeAt(b, [r][..i], queues) {
      if i == 0 { assert [r][..i] == []; } else { assert [r][..i] == [r]; }
    }
  }

  lemma MidwayThen(b: Books, b1: Books, m: Books, js: seq<JournalRecord>, ks: seq<JournalRecord>, queues: map<u64, Queue>)
    requires Midway(b, b1, js, queues) && Midway(b1, m, ks, queues)
    ensures Midway(b, m, js + ks, queues)
  {
    hide BooksOk, Accounted;
    AccountedThen(b, b1, m, js, ks);
  }

  lemma TracedThen(b: Books, b1: Books, b2: Books, js: seq<JournalRecord>, ks: seq<JournalRecord>, queues: map<u64, Queue>)
    requires Traced(b, b1, js, queues) && Traced(b1, b2, ks, queues)
    ensures Traced(b, b2, js + ks, queues)
  {
    hide Midway;
    MidwayThen(b, b1, b2, js, ks, queues);
    forall i | 0 <= i <= |js + ks| ensures WholeAt(b, (js + ks)[..i], queues) {
      if i <= |js| {
        assert (js + ks)[..i] == js[..i];
      } else {
        assert WholeAt(b1, ks[..i - |js|], queues);
        var m :| Midway(b1, m, ks[..i - |js|], queues);
        MidwayThen(b, b1, m, js, ks[..i - |js|], queues);
        assert (js + ks)[..i] == js + ks[..i - |js|];
      }
    }
  }

  lemma FenceOneTraced(b: Books, queues: map<u64, Queue>, id: u64, to: AllocationState, now: u64)
    requires BooksOk(b, queues) && id in b.allocations && b.allocations[id].Holds() && !to.Holds()
    ensures Traced(b, FenceOne(b, id, to, now).0, [AllocationUpsert(OpFor(to), Marked(b.allocations[id], to, now))], queues)
  {
    hide FenceOne, Accounted, Traced, Agrees, Forest, Indexed, RecordsShrunk, IndexShrunk;
    FenceOneShape(b, queues, id, to, now);
    FenceOneKeepsBooks(b, queues, id, to, now);
    assert HolderOk(b.allocations[id], b.pools, queues);
    AccountedOne(b, FenceOne(b, id, to, now).0, OpFor(to), Marked(b.allocations[id], to, now));
    TracedOne(b, FenceOne(b, id, to, now).0, AllocationUpsert(OpFor(to), Marked(b.allocations[id], to, now)), queues);
  }

  lemma {:induction false} FenceAllTraced(b: Books, queues: map<u64, Queue>, ids: seq<u64>, sel: Selector,
                                             to: AllocationState, now: u64) returns (js: seq<JournalRecord>)
    requires BooksOk(b, queues) && !to.Holds()
    ensures Traced(b, FenceAll(b, ids, sel, to, now).0, js, queues)
    decreases |ids|
  {
    hide BooksOk, Traced, FenceOne, Shrunk;
    if ids == [] {
      js := [];
      TracedNone(b, queues);
    } else if ids[0] !in b.allocations || !Selects(b.allocations[ids[0]], sel) {
      js := FenceAllTraced(b, queues, ids[1..], sel, to, now);
    } else {
      HoldsWhenSelected(b.allocations[ids[0]], sel);
      FenceOneKeepsBooks(b, queues, ids[0], to, now);
      FenceOneTraced(b, queues, ids[0], to, now);
      var b1 := FenceOne(b, ids[0], to, now).0;
      var first := [AllocationUpsert(OpFor(to), Marked(b.allocations[ids[0]], to, now))];
      var rest := FenceAllTraced(b1, queues, ids[1..], sel, to, now);
      TracedThen(b, b1, FenceAll(b1, ids[1..], sel, to, now).0, first, rest, queues);
      js := first + rest;
    }
  }

  lemma {:induction false} FencePoolsTraced(b: Books, queues: map<u64, Queue>, order: seq<u64>, policy: u64,
                                               generation: u64, now: u64) returns (js: seq<JournalRecord>)
    requires BooksOk(b, queues)
    ensures Traced(b, FencePools(b, order, policy, generation, now).0, js, queues)
    decreases |order|
  {
    hide BooksOk, Traced, FenceAll, Shrunk;
    if order == [] {
      js := [];
      TracedNone(b, queues);
    } else if order[0] !in b.pools || b.pools[order[0]].descriptor.policy != policy {
      js := FencePoolsTraced(b, queues, order[1..], policy, generation, now);
    } else {
      var ids, sel := Order.Ascending(b.pools[order[0]].members), OtherPolicyGeneration(generation);
      FenceAllKeepsBooks(b, queues, ids, sel, Fenced, now);
      var b1 := FenceAll(b, ids, sel, Fenced, now).0;
      var first := FenceAllTraced(b, queues, ids, sel, Fenced, now);
      var rest := FencePoolsTraced(b1, queues, order[1..], policy, generation, now);
      TracedThen(b, b1, FencePools(b1, order[1..], policy, generation, now).0, first, rest, queues);
      js := first + rest;
    }
  }

  lemma {:induction false} ShrinkAllTraced(b: Books, queues: map<u64, Queue>, p: u64, ids: seq<u64>, allowance: u64,
                                              everything: bool, now: u64) returns (js: seq<JournalRecord>)
    requires BooksOk(b, queues)
    ensures Traced(b, ShrinkAll(b, p, ids, allowance, everything, now).0, js, queues)
    decreases |ids|
  {
    hide BooksOk, Traced, FenceOne, Shrunk;
    if ids == [] || p !in b.pools || (!everything && b.pools[p].ownUsage <= allowance) {
      js := [];
      TracedNone(b, queues);
    } else if ids[0] !in b.allocations || !b.allocations[ids[0]].Holds() {
      js := ShrinkAllTraced(b, queues, p, ids[1..], allowance, everything, now);
    } else {
      FenceOneKeepsBooks(b, queues, ids[0], Fenced, now);
      FenceOneTraced(b, queues, ids[0], Fenced, now);
      var b1 := FenceOne(b, ids[0], Fenced, now).0;
      var first := [AllocationUpsert(OpFor(Fenced), Marked(b.allocations[ids[0]], Fenced, now))];
      var rest := ShrinkAllTraced(b1, queues, p, ids[1..], allowance, everything, now);
      TracedThen(b, b1, ShrinkAll(b1, p, ids[1..], allowance, everything, now).0, first, rest, queues);
      js := first + rest;
    }
  }

  lemma EnforceTraced(b: Books, queues: map<u64, Queue>, p: u64, allowance: u64, everything: bool, now: u64)
    returns (js: seq<JournalRecord>)
    requires BooksOk(b, queues) && p in b.pools
    ensures Traced(b, EnforceCapacity(b, p, allowance, everything, now).0, js, queues)
  {
    hide BooksOk, Traced, ShrinkAll, Shrunk;
    var victims := Order.Ranked(b.pools[p].members, ShrinkRank(b.allocations));
    ShrinkAllKeepsBooks(b, queues, p, victims, allowance, everything, now);
    var b1 := ShrinkAll(b, p, victims, allowance, everything, now).0;
    var first := ShrinkAllTraced(b, queues, p, victims, allowance, everything, now);
    if p !in b1.pools || b1.pools[p].ownUsage <= allowance {
      js := first;
    } else {
      var ids := Order.Ascending(BorrowersOf(b1, p));
      var rest := ShrinkAllTraced(b1, queues, p, ids, allowance, false, now);
      TracedThen(b, b1, ShrinkAll(b1, p, ids, allowance, false, now).0, first, rest, queues);
      js := first + rest;
    }
  }

  // ----- Every change is in the journal -----

  function Tables(s: Fabric): Core { CoreOf(s.books, s.policies, s.capacities) }

  /** js is what the step journaled, and it accounts for the step. */
  ghost predicate Logged(s: Fabric, s': Fabric, js: seq<JournalRecord>) {
    && s'.books.journal == s.books.journal + js && AllSane(js, s.epoch) && s'.epoch == s.epoch
    && Replay(Tables(s), js) == Tables(s') && ReplayLive(s.queues, js) == s'.queues
    && ReplayNext(Tables(s), s.books.nextAllocation, js) == s'.books.nextAllocation
  }

  lemma {:induction false} QueuesUntouched(queues: map<u64, Queue>, js: seq<JournalRecord>)
    requires forall i :: 0 <= i < |js| ==> js[i].AllocationUpsert?
    ensures ReplayLive(queues, js) == queues
  {
    if js != [] {
      var front := js[..|js| - 1];
      forall i | 0 <= i < |front| ensures front[i].AllocationUpsert? { assert front[i] == js[i]; }
      QueuesUntouched(queues, front);
    }
  }

  /** A step that only rewrites allocation records. */
  lemma AccountedLogged(s: Fabric, s': Fabric, js: seq<JournalRecord>)
    requires SameTables(s, s') && SameTopology(s.books.pools, s'.books.pools) && Accounted(s.books, s'.books, js)
    ensures Logged(s, s', js)
  {
    hide SameTopology, ReplayLive, Replay;
    SameTopologyImage(s.books.pools, s'.books.pools);
    QueuesUntouched(s.queues, js);
  }

  lemma OneLogged(s: Fabric, s': Fabric, r: JournalRecord)
    requires Sane(r, s.epoch) && s'.books.journal == s.books.journal + [r] && s'.epoch == s.epoch
    requires Tables(s') == Apply(Tables(s), r)
    requires LiveQueues(s.queues, r) == s'.queues
    requires NextAfter(Tables(s), s.books.nextAllocation, r) == s'.books.nextAllocation
    ensures Logged(s, s', [r])
  {
    hide Apply, Tables, LiveQueues, Sane, NextAfter;
    ReplayOne(Tables(s), r);
    ReplayNextOne(Tables(s), s.books.nextAllocation, r);
    assert [r][..|[r]| - 1] == [];
    assert ReplayLive(s.queues, [r]) == LiveQueues(ReplayLive(s.queues, []), r);
  }

  lemma NoneLogged(s: Fabric, s': Fabric)
    requires s'.books.journal == s.books.journal && Tables(s') == Tables(s) && s'.queues == s.queues && s'.epoch == s.epoch
    requires s'.books.nextAllocation == s.books.nextAllocation
    ensures Logged(s, s', [])
  {
    hide Tables;
    assert s.books.journal + [] == s.books.journal;
  }

  /** js leads from s to s', and after each of its records the tables on record were those
      of some ledger that satisfies the whole invariant. */
  ghost predicate Reaches(s: Fabric, s': Fabric, js: seq<JournalRecord>) {
    && Logged(s, s', js) && Inv(s')
    && forall i :: 0 <= i <= |js| ==> exists m :: Inv(m) && Logged(s, m, js[..i])
  }

  /** At most one record: there is nothing in between. */
  lemma ShortReaches(s: Fabric, s': Fabric, js: seq<JournalRecord>)
    requires Inv(s) && Inv(s') && Logged(s, s', js) && |js| <= 1
    ensures Reaches(s, s', js)
  {
    hide Inv, Logged;
    LoggedRefl(s);
    forall i | 0 <= i <= |js| ensures exists m :: Inv(m) && Logged(s, m, js[..i]) {
      if i == 0 { assert js[..i] == []; } else { assert js[..i] == js; }
    }
  }

  lemma InvWithBooks(s: Fabric, b: Books)
    requires Inv(s) && BooksOk(b, s.queues) && SameTopology(s.books.pools, b.pools)
    ensures Inv(s.(books := b))
  {
    hide BooksOk;
  }

  lemma MidwayReached(s: Fabric, s': Fabric, js: seq<JournalRecord>)
    requires Inv(s) && SameTables(s, s') && Midway(s.books, s'.books, js, s.queues)
    ensures Inv(s') && Logged(s, s', js)
  {
    hide BooksOk, Accounted, Logged;
    InvWithBooks(s, s'.books);
    StillKeepsInv(s.(books := s'.books), s');
    AccountedLogged(s, s', js);
  }

  /** A loop that fences records one by one. */
  lemma TracedReaches(s: Fabric, s': Fabric, js: seq<JournalRecord>)
    requires Inv(s) && SameTables(s, s') && Traced(s.books, s'.books, js, s.queues)
    ensures Reaches(s, s', js)
  {
    hide Inv, Midway, Logged;
    MidwayReached(s, s', js);
    forall i | 0 <= i <= |js| ensures exists m :: Inv(m) && Logged(s, m, js[..i]) {
      assert WholeAt(s.books, js[..i], s.queues);
      var b :| Midway(s.books, b, js[..i], s.queues);
      MidwayReached(s, s.(books := b), js[..i]);
    }
  }

  /** Two steps in a row. */
  lemma ReachesThen(s: Fabric, s1: Fabric, s2: Fabric, js: seq<JournalRecord>, ks: seq<JournalRecord>)
    requires Reaches(s, s1, js) && Reaches(s1, s2, ks)
    ensures Reaches(s, s2, js + ks)
  {
    hide Inv, Logged;
    LoggedThen(s, s1, s2, js, ks);
    forall i | 0 <= i <= |js + ks| ensures exists m :: Inv(m) && Logged(s, m, (js + ks)[..i]) {
      if i <= |js| {
        assert (js + ks)[..i] == js[..i];
      } else {
        var m :| Inv(m) && Logged(s1, m, ks[..i - |js|]);
        LoggedThen(s, s1, m, js, ks[..i - |js|]);
        assert (js + ks)[..i] == js + ks[..i - |js|];
      }
    }
  }

  lemma NothingLogged(s: Fabric, s': Fabric) returns (js: seq<JournalRecord>)
    requires SameTables(s, s') && Noted(s.books, s'.books, s.epoch)
    ensures Logged(s, s', js) && |js| <= 1
  {
    hide Logged;
    if s'.books.journal == s.books.journal {
      NoneLogged(s, s');
      js := [];
    } else {
      var o: PressureSnapshot :| o.epoch == s.epoch && s'.books.journal == s.books.journal + [PressureObserved(o)];
      OneLogged(s, s', PressureObserved(o));
      js := [PressureObserved(o)];
    }
  }

  lemma CapacityLogged(s: Fabric, s': Fabric, c: Capacity, now: u64)
    requires Changes(s, s', NewCapacity(c), now)
    ensures Logged(s, s', [CapacitySet(c)])
  {
    hide Logged, CapacityFits;
    OneLogged(s, s', CapacitySet(c));
  }

  lemma EnterLogged(s: Fabric, s': Fabric, r: Allocation)
    requires Entered(s, s', r) && NextIdFree(s.books)
    ensures Logged(s, s', [AllocationUpsert(OpFor(r.state), r)])
  {
    hide Logged, PoolCloses, BoundNow, PoolsImage, QueueHeld;
    SameTopologyImage(s.books.pools, s'.books.pools);
    OneLogged(s, s', AllocationUpsert(OpFor(r.state), r));
  }

  lemma PromoteJournal(b: Books, id: u64, now: u64)
    requires id in b.allocations && b.allocations[id].pool in b.pools
    ensures var b', r' := Promoted(b, id, now), Marked(b.allocations[id], Committed, now);
            b'.journal == b.journal + [AllocationUpsert(OpCommitted, r')] && b'.allocations == b.allocations[id := r']
  {
  }

  lemma PromoteLogged(s: Fabric, s': Fabric, id: u64, now: u64) returns (js: seq<JournalRecord>)
    requires Inv(s) && Changes(s, s', Promote(id), now)
    ensures Logged(s, s', js) && |js| == 1
  {
    hide Logged, Accounted, Promoted, Agrees, Forest, Indexed, Moved;
    PromoteJournal(s.books, id, now);
    PromoteStep(s, s', id, now);
    assert HolderOk(s.books.allocations[id], s.books.pools, s.queues);
    var r' := Marked(s.books.allocations[id], Committed, now);
    js := [AllocationUpsert(OpCommitted, r')];
    AccountedOne(s.books, s'.books, OpCommitted, r');
    AccountedLogged(s, s', js);
  }

  lemma GiveBackLogged(s: Fabric, s': Fabric, id: u64, units: u64, now: u64) returns (js: seq<JournalRecord>)
    requires Inv(s) && Changes(s, s', GiveBack(id, units), now)
    ensures Logged(s, s', js) && |js| == 1
  {
    hide Logged, Accounted, Returning, Agrees, Forest, Indexed, Moved, RemainingHalf, ReleasedHalf;
    assert HolderOk(s.books.allocations[id], s.books.pools, s.queues);
    ReturningShape(s.books, s.queues, id, units, now);
    GiveBackStep(s, s', id, units, now);
    SplitConserves(s.books.allocations[id], units, now);
    var left := RemainingHalf(s.books.allocations[id], units, now);
    js := [AllocationUpsert(OpReleased, left)];
    AccountedOne(s.books, s'.books, OpReleased, left);
    AccountedLogged(s, s', js);
  }

  lemma RebindJournal(b: Books, id: u64, bound: Bound, now: u64)
    requires id in b.allocations
    ensures var b' := Rebound(b, id, bound, now);
            && b'.journal == b.journal + [AllocationUpsert(OpRevalidated, b'.allocations[id])]
            && b'.allocations == b.allocations[id := b'.allocations[id]]
            && b'.allocations[id].units == b.allocations[id].units && b'.allocations[id].id == b.allocations[id].id
  {
  }

  lemma RebindLogged(s: Fabric, s': Fabric, id: u64, now: u64) returns (js: seq<JournalRecord>)
    requires Inv(s) && Changes(s, s', Rebind(id), now)
    ensures Logged(s, s', js) && |js| == 1
  {
    hide Logged, Accounted, Rebound, Agrees, Forest, Indexed, Moved, RenewedFor;
    RebindJournal(s.books, id, RenewedFor(s, id), now);
    RebindStep(s, s', id, now);
    assert HolderOk(s.books.allocations[id], s.books.pools, s.queues);
    js := [AllocationUpsert(OpRevalidated, s'.books.allocations[id])];
    AccountedOne(s.books, s'.books, OpRevalidated, s'.books.allocations[id]);
    AccountedLogged(s, s', js);
  }

  lemma ShedReaches(s: Fabric, s': Fabric, ids: seq<u64>, sel: Selector, to: AllocationState, now: u64)
    returns (js: seq<JournalRecord>)
    requires Inv(s) && Changes(s, s', Shed(ids, sel, to), now)
    ensures Reaches(s, s', js)
  {
    hide Reaches, Traced, FenceAll, BooksOk;
    js := FenceAllTraced(s.books, s.queues, ids, sel, to, now);
    TracedReaches(s, s', js);
  }

  /** The policy is on record before anything is fenced for it. */
  lemma PublishReaches(s: Fabric, s': Fabric, policy: Policy, order: seq<u64>, now: u64) returns (js: seq<JournalRecord>)
    requires Inv(s) && Published(s, s', policy, order, now)
    ensures Reaches(s, s', js)
  {
    hide Reaches, Logged, Traced, FencePools, BooksOk, RecordsShrunk, IndexShrunk, Policy.Valid;
    var logged := Log(s.books, PolicyUpsert(policy));
    var s1 := s'.(books := logged);
    SameBooksKeep(s.books, logged, s.queues);
    PublishedKeepsInv(s, s', policy, order, now);
    InvWithBooks(s', logged);
    OneLogged(s, s1, PolicyUpsert(policy));
    ShortReaches(s, s1, [PolicyUpsert(policy)]);
    var rest := [];
    if policy.fenceOnChange {
      rest := FencePoolsTraced(logged, s.queues, order, policy.id, policy.generation, now);
    } else {
      TracedNone(logged, s.queues);
    }
    TracedReaches(s1, s', rest);
    ReachesThen(s, s1, s', [PolicyUpsert(policy)], rest);
    js := [PolicyUpsert(policy)] + rest;
  }

  lemma AddedImage(pools: Pools, d: PoolDescriptor)
    ensures PoolsImage(pools[d.id := EmptyEntry(d, 1)]) == PoolsImage(pools)[d.id := PoolImage(d, 1)]
  {
  }

  lemma AddPoolLogged(s: Fabric, s': Fabric, d: PoolDescriptor)
    requires PoolAdded(s, s', d)
    ensures Logged(s, s', [PoolUpsert(d, 1)])
  {
    hide Logged, PoolGuard, PoolsImage;
    PoolGuardFacts(s, d);
    AddedImage(s.books.pools, d);
    OneLogged(s, s', PoolUpsert(d, 1));
  }

  lemma RemovedImage(pools: Pools, p: u64)
    ensures PoolsImage(pools - {p}) == PoolsImage(pools) - {p}
  {
  }

  lemma DropPoolLogged(s: Fabric, s': Fabric, p: u64)
    requires PoolDropped(s, s', p)
    ensures Logged(s, s', [PoolRemoved(p)])
  {
    hide Logged, RemovalGuard, PoolsImage;
    RemovedImage(s.books.pools, p);
    OneLogged(s, s', PoolRemoved(p));
  }

  lemma ResizedImage(pools: Pools, p: u64, e: PoolEntry)
    requires p in pools
    ensures PoolsImage(pools[p := e]) == PoolsImage(pools)[p := PoolImage(e.descriptor, e.capacityGeneration)]
  {
  }

  lemma ResizedValid(e: PoolEntry, p: u64, raw: u64, protected: u64)
    requires PoolOk(e, p) && 0 < raw <= MAX_UNITS && protected < raw
    ensures Resized(e, raw, protected).descriptor.Validate() == OK && Resized(e, raw, protected).descriptor.id == p
  {
  }

  lemma ResizeLogged(s: Fabric, s1: Fabric, p: u64, raw: u64, protected: u64)
    requires p in s.books.pools && PoolOk(s.books.pools[p], p) && 0 < raw <= MAX_UNITS && protected < raw
    requires s1 == s.(books := ResizedBooks(s.books, p, raw, protected))
    ensures var e := Resized(s.books.pools[p], raw, protected); Logged(s, s1, [PoolUpsert(e.descriptor, e.capacityGeneration)])
  {
    hide Logged, PoolsImage, Resized, PoolOk, PoolDescriptor.Validate;
    var e := Resized(s.books.pools[p], raw, protected);
    ResizedValid(s.books.pools[p], p, raw, protected);
    ResizedImage(s.books.pools, p, e);
    OneLogged(s, s1, PoolUpsert(e.descriptor, e.capacityGeneration));
  }

  lemma PoolHere(s: Fabric, p: u64)
    requires Inv(s) && p in s.books.pools
    ensures PoolOk(s.books.pools[p], p)
  {
  }

  lemma ResizedKeepsInv(s: Fabric, p: u64, raw: u64, protected: u64)
    requires Inv(s) && p in s.books.pools && 0 < raw <= MAX_UNITS && protected < raw
    ensures Inv(s.(books := ResizedBooks(s.books, p, raw, protected)))
  {
    hide BooksOk;
    ResizedKeepsBooks(s.books, s.queues, p, raw, protected);
  }

  /** The new size is on record before anything is fenced for it. */
  lemma ResizeReaches(s: Fabric, s': Fabric, p: u64, raw: u64, protected: u64, now: u64) returns (js: seq<JournalRecord>)
    requires Inv(s) && ResizedTo(s, s', p, raw, protected, now)
    ensures Reaches(s, s', js)
  {
    hide Reaches, Logged, Traced, EnforceCapacity, ResizeGuard, BooksOk, Resized, ResizedBooks, ShrinkAllowance, PoolOk, Governed;
    ResizeGuardFacts(s, p, raw, protected, 0);
    PoolHere(s, p);
    var e := Resized(s.books.pools[p], raw, protected);
    var s1 := s.(books := ResizedBooks(s.books, p, raw, protected));
    var r := PoolUpsert(e.descriptor, e.capacityGeneration);
    ResizedKeepsInv(s, p, raw, protected);
    ResizeLogged(s, s1, p, raw, protected);
    ShortReaches(s, s1, [r]);
    ResizedHere(s.books, p, raw, protected);
    var rest := EnforceTraced(s1.books, s.queues, p, ShrinkAllowance(e, s.policies),
                              s.policies[s.books.pools[p].descriptor.policy].fenceOnChange, now);
    TracedReaches(s1, s', rest);
    ReachesThen(s, s1, s', [r], rest);
    js := [r] + rest;
  }

  lemma ResizedHere(b: Books, p: u64, raw: u64, protected: u64)
    requires p in b.pools
    ensures p in ResizedBooks(b, p, raw, protected).pools
  {
  }

  lemma QueueLogged(s: Fabric, s': Fabric, q: Queue)
    requires QueueWritten(s, s', q) && |q.name| <= MAX_NAME
    ensures Logged(s, s', [QueueUpsert(q)])
  {
    hide Logged;
    OneLogged(s, s', QueueUpsert(q));
  }

  /** Two logged steps in a row. */
  lemma LoggedThen(s: Fabric, s1: Fabric, s2: Fabric, js: seq<JournalRecord>, ks: seq<JournalRecord>)
    requires Logged(s, s1, js) && Logged(s1, s2, ks)
    ensures Logged(s, s2, js + ks)
  {
    hide Tables;
    assert s.books.journal + (js + ks) == (s.books.journal + js) + ks;
    ReplayAppend(Tables(s), js, ks);
    ReplayLiveAppend(s.queues, js, ks);
    ReplayNextAppend(Tables(s), s.books.nextAllocation, js, ks);
  }

  lemma RetireReaches(s: Fabric, s': Fabric, id: u64, now: u64) returns (js: seq<JournalRecord>)
    requires Inv(s) && RetiredBy(s, s', id, now)
    ensures Reaches(s, s', js)
  {
    hide Logged, BooksOk, FenceAll, Changes, Traced, Reaches;
    var s1 := WithQueue(s, RetiredQueue(s.queues[id]));
    QueueLogged(s, s1, RetiredQueue(s.queues[id]));
    QueueKeptKeepsInv(s, s1, RetiredQueue(s.queues[id]));
    js := [QueueUpsert(RetiredQueue(s.queues[id]))];
    ShortReaches(s, s1, js);
    if s.config.autoFenceOnRetirement {
      var rest := FenceAllTraced(s1.books, s1.queues, Order.Ascending(HeldBy(s1.books, id)), AnyHolding, Fenced, now);
      TracedReaches(s1, s', rest);
      ReachesThen(s, s1, s', js, rest);
      js := js + rest;
    }
  }

  lemma RetargetReaches(s: Fabric, s': Fabric, id: u64, target: u64, now: u64) returns (js: seq<JournalRecord>)
    requires Inv(s) && RetargetedTo(s, s', id, target, now)
    ensures Reaches(s, s', js)
  {
    hide Logged, BooksOk, FenceAll, Traced, Reaches;
    var s1, r := s.(books := FenceQueue(s, id, now).0), QueueUpsert(Retargeted(s.queues[id], target));
    var first := FenceAllTraced(s.books, s.queues, Order.Ascending(HeldBy(s.books, id)), AnyHolding, Fenced, now);
    TracedReaches(s, s1, first);
    FenceAllKeepsInv(s, Order.Ascending(HeldBy(s.books, id)), AnyHolding, Fenced, now);
    RetargetingKeepsInv(s, s', id, target, now);
    QueueLogged(s1, s', Retargeted(s.queues[id], target));
    ShortReaches(s1, s', [r]);
    ReachesThen(s, s1, s', first, [r]);
    js := first + [r];
  }

  /** A change that journals at most one record. */
  lemma PlainLogged(s: Fabric, s': Fabric, c: Change, now: u64) returns (js: seq<JournalRecord>)
    requires Inv(s) && Changes(s, s', c, now)
    requires !c.Shed? && !c.NewPolicy? && !c.Resize? && !c.Retire? && !c.Retarget?
    ensures Logged(s, s', js) && |js| <= 1
  {
    hide BooksOk, Logged, PoolAdded, PoolDropped, Promoted, Returning, Rebound;
    hide Becomes, Entered, Tables, CapacityFits, PoliciesOk, Governed;
    match c
    case Nothing => js := NothingLogged(s, s');
    case NewCapacity(capacity) =>
      CapacityLogged(s, s', capacity, now);
      js := [CapacitySet(capacity)];
    case Enter(r) =>
      EnterLogged(s, s', r);
      js := [AllocationUpsert(OpFor(r.state), r)];
    case Promote(id) => js := PromoteLogged(s, s', id, now);
    case GiveBack(id, units) => js := GiveBackLogged(s, s', id, units, now);
    case Rebind(id) => js := RebindLogged(s, s', id, now);
    case AddPool(d) =>
      AddPoolLogged(s, s', d);
      js := [PoolUpsert(d, 1)];
    case DropPool(p) =>
      DropPoolLogged(s, s', p);
      js := [PoolRemoved(p)];
    case AddQueue(q) =>
      QueueLogged(s, s', q);
      js := [QueueUpsert(q)];
    case EditDemand(q) =>
      QueueLogged(s, s', q);
      js := [QueueUpsert(q)];
  }

  /** Whatever the operation, the journal grew by exactly what explains the change, and
      every record of it leaves a ledger in order. */
  lemma ChangeReaches(s: Fabric, s': Fabric, c: Change, now: u64) returns (js: seq<JournalRecord>)
    requires Inv(s) && Changes(s, s', c, now)
    ensures Reaches(s, s', js)
  {
    hide Inv, Logged, Reaches, PoolAdded, PoolDropped, ResizedTo, RetiredBy, RetargetedTo, Published, Promoted, Returning, Rebound;
    hide Entered, CapacityFits, Noted;
    match c
    case Shed(ids, sel, to) => js := ShedReaches(s, s', ids, sel, to, now);
    case NewPolicy(policy, order) => js := PublishReaches(s, s', policy, order, now);
    case Resize(p, raw, protected) => js := ResizeReaches(s, s', p, raw, protected, now);
    case Retire(id) => js := RetireReaches(s, s', id, now);
    case Retarget(id, target) => js := RetargetReaches(s, s', id, target, now);
    case _ =>
      js := PlainLogged(s, s', c, now);
      ChangeKeepsInv(s, s', c, now);
      ShortReaches(s, s', js);
  }

  lemma LoggedRefl(s: Fabric)
    ensures Logged(s, s, [])
  {
    NoneLogged(s, s);
  }

  /** The refinement theorem: over any run, replaying what the run journaled, onto the
      tables it started from, gives exactly the live pools, policies, capacities and
      allocations, and every live queue (a removed pool's retired ones, which replay keeps,
      the live fabric drops); recovery refuses none of it. Cut after any
      record, also in the middle of an operation, it gives the tables of a ledger that
      satisfies the whole invariant. */
  lemma {:induction false} MirrorTheorem(s: Fabric, calls: seq<Call>) returns (js: seq<JournalRecord>)
    requires Inv(s) && AdmissibleRun(s, calls)
    ensures Reaches(s, Run(s, calls), js)
    decreases |calls|
  {
    hide Inv, Step, Admissible, Changes, Logged, Reaches;
    if calls == [] {
      LoggedRefl(s);
      ShortReaches(s, s, []);
      js := [];
    } else {
      var s', now := Step(s, calls[0].op, calls[0].now), calls[0].now;
      var c := StepChanges(s, calls[0].op, now);
      ChangeKeepsInv(s, s', c, now);
      var first := ChangeReaches(s, s', c, now);
      var rest := MirrorTheorem(s', calls[1..]);
      ReachesThen(s, s', Run(s', calls[1..]), first, rest);
      js := first + rest;
    }
  }
}
