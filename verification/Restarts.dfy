/** A history that ends in trouble, run step by step from an empty directory: one grant, a
    clean close, and one more grant. */
module Restarts {
  import opened Arithmetic
  import opened Sums
  import opened Pressure
  import opened Model
  import Attempts
  import Handlers
  import opened Grants
  import opened Ledger
  import opened Topology
  import opened Aggregates
  import opened Invariant
  import opened AllocationSteps
  import opened Steps
  import opened Runs
  import opened Limits
  import opened Soundness
  import opened Image
  import opened Crashes
  import opened Mirror
  import opened Recovery
  import opened Sessions

  // ----- One pool of 100 units and one queue -----

  function Opened(): Fabric { Empty(Config(true, true), 1, Boot(0, 1), 16) }

  function OnePolicy(): Policy {
    Policy(1, 1, [], 0, Overcommit(ForbidOvercommit, 0), Borrow(ForbidBorrow, 0), 0, 0, 0, true,
           PressurePolicy(Thresholds(7000, 8500, 9500), 0, false, false, false, false), Critical, Critical,
           ReclaimPolicy(false, 0, 0, 0, false), 0, true, 0, 0)
  }

  function OneCapacity(): Capacity { Capacity(1, 1, 1, 100, 0) }

  /** Pool k, named "a". */
  function PoolNamed(k: u64): PoolDescriptor { PoolDescriptor(k, 1, [97], 1, 1, 100, 0, 0, 1, 0, 0, 0, false) }

  function OneQueue(): Queue { Queue(1, 1, [97], 1, 0, 0, 0, 0, 0, 0, 0, false) }

  function Attached(): Fabric { Opened().(backends := map[1 := 1]) }

  function Sized(): Fabric {
    Attached().(capacities := map[1 := OneCapacity()], books := Log(Attached().books, CapacitySet(OneCapacity())))
  }

  /** Where pools may be registered: k is the next id of pools and of observations. */
  function Vacant(k: u64, journal: seq<JournalRecord>): Fabric {
    var s := Sized();
    s.(counters := Counters(k, 1, 2, k, 1), names := Names(map[[] := 1], map[], map[]), policies := map[1 := OnePolicy()],
       books := s.books.(journal := journal))
  }

  function SetupRecords(): seq<JournalRecord> { [CapacitySet(OneCapacity()), PolicyUpsert(OnePolicy())] }

  function SetupCalls(): seq<Call> {
    [Call(DoAttach(1, 1), 0), Call(DoSetCapacity(OneCapacity(), 0, 0), 0),
     Call(DoPublish(OnePolicy().(id := 0, generation := 0), []), 0)]
  }

  lemma AttachStep()
    ensures AttachBackend(Opened(), 1, 1).0 == Attached()
  {
  }

  lemma SizeStep()
    ensures PublishCapacity(Attached(), OneCapacity(), 0, 0, 0).0 == Sized()
  {
    NothingPartitioned(1);
  }

  lemma NothingPartitioned(resource: u64)
    ensures Partitioned(map[], resource) == 0
  {
    var none: Pools := map[];
    SumZero(none.Keys, RawShare(none, resource));
  }

  lemma OnePolicyValid()
    ensures OnePolicy().Valid()
  {
  }

  lemma PolicyStep()
    ensures PublishPolicy(Sized(), OnePolicy().(id := 0, generation := 0), [], 0).0 == Vacant(1, SetupRecords())
  {
    hide Policy.Valid;
    OnePolicyValid();
    AddOverflowIsExact(1, 1);
    assert FencePools(Log(Sized().books, PolicyUpsert(OnePolicy())), [], 1, 1, 0).1 == OK;
    assert Log(Sized().books, PolicyUpsert(OnePolicy())).journal == SetupRecords();
  }

  /** Pool k is there, empty. */
  function Housed(k: u64, journal: seq<JournalRecord>): Fabric
    requires k + 1 < TWO64
  {
    var s := Vacant(k, journal + [PoolUpsert(PoolNamed(k), 1)]);
    s.(counters := s.counters.(nextPool := k + 1), names := s.names.(pools := map[[97] := k]),
       books := s.books.(pools := map[k := EmptyEntry(PoolNamed(k), 1)]))
  }

  lemma PoolAdmitted(k: u64, journal: seq<JournalRecord>)
    requires k != 0
    ensures PoolGuard(Vacant(k, journal), PoolNamed(k)) == OK
  {
    NothingPartitioned(1);
  }

  lemma HouseStep(k: u64, journal: seq<JournalRecord>)
    requires 0 < k && k + 1 < TWO64
    ensures RegisterPool(Vacant(k, journal), PoolNamed(0), 0).0 == Housed(k, journal)
  {
    hide PoolGuard;
    PoolAdmitted(k, journal);
    AddOverflowIsExact(k, 1);
    assert NewPool(Vacant(k, journal), PoolNamed(0), 0) == PoolNamed(k);
    assert Housed(k, journal).books
        == Log(Vacant(k, journal).books, PoolUpsert(PoolNamed(k), 1)).(pools := map[k := EmptyEntry(PoolNamed(k), 1)]);
  }

  // ----- A grant, a clean close, and another grant -----

  function Ready(): Fabric {
    var s := Housed(1, SetupRecords());
    s.(counters := s.counters.(nextQueue := 2), names := s.names.(queues := map[[97] := 1]), queues := map[1 := OneQueue()],
       books := Log(s.books, QueueUpsert(OneQueue())))
  }

  lemma QueueStep()
    ensures RegisterQueue(Housed(1, SetupRecords()), OneQueue().(id := 0), 0).0 == Ready()
  {
    AddOverflowIsExact(1, 1);
    assert NewQueue(Housed(1, SetupRecords()), OneQueue().(id := 0), 0) == OneQueue();
  }

  /** Ten units at once, committed. */
  function Ask(attempt: u64): AllocateRequest {
    AllocateRequest(attempt, Digest(0, 0), 1, 1, 10, ReclaimClass.Pinned, 0, 0, true, 0, 0, 0, 0, 0, 0, 0, Digest(0, 0))
  }

  /** Enough to be sure that ten more units are granted. */
  ghost predicate Roomy(s: Fabric) {
    && !s.Refusing() && |s.books.allocations| < MAX_ALLOCATIONS && s.books.nextAllocation + 1 < TWO64
    && 1 in s.books.pools && s.books.pools[1].descriptor == PoolNamed(1) && s.books.pools[1].ownUsage <= 10
    && 1 in s.policies && s.policies[1] == OnePolicy() && 1 in s.queues && s.queues[1] == OneQueue()
    && 1 !in s.pressure
  }

  lemma RoomyDecides(s: Fabric, attempt: u64, now: u64)
    requires Roomy(s) && attempt != 0 && attempt !in s.attempts.records
    ensures AllocateAdmission(s, Ask(attempt)) == OK && Attempts.Find(s.attempts, attempt, Digest(0, 0)).Fresh?
    ensures AllocateBindings(s, Ask(attempt)) == OK && Decide(s, Ask(attempt), now) == Give(10)
  {
  }

  lemma RoomyDrafts(s: Fabric, attempt: u64, now: u64) returns (r: Allocation)
    requires Roomy(s)
    ensures DraftRecord(s, Ask(attempt), 10, now) == Drafted(r)
    ensures r.units == 10 && r.state.Committed? && r.pool == 1 && r.queue == 1 && r.id == s.books.nextAllocation
    ensures r.borrow == 0
  {
    AddOverflowIsExact(s.books.nextAllocation, 1);
    r := DraftRecord(s, Ask(attempt), 10, now).record;
  }

  /** The request is granted ten units under the next id, whether or not that is in use. */
  lemma RoomyGrants(s: Fabric, attempt: u64, now: u64) returns (r: Allocation)
    requires Inv(s) && Roomy(s) && attempt != 0 && attempt !in s.attempts.records
    ensures var (s', outcome) := Allocate(s, Ask(attempt), now);
            && outcome == Decided(Granted, OK, 10, s.books.nextAllocation)
            && Entered(s, s', r)
    ensures r.units == 10 && r.state.Committed? && r.pool == 1 && r.id == s.books.nextAllocation && r.borrow == 0
  {
    hide Inv, Decide, AllocateAdmission, AllocateBindings, DraftRecord, GrantAndStore, Entered, Attempts.Find;
    r := RoomyDrafts(s, attempt, now);
    RoomyDecides(s, attempt, now);
    RoomyStores(s, attempt, now, r);
    RoomyAllocates(s, attempt, now);
  }

  lemma RoomyAllocates(s: Fabric, attempt: u64, now: u64)
    requires Roomy(s) && AllocateAdmission(s, Ask(attempt)) == OK && Attempts.Find(s.attempts, attempt, Digest(0, 0)).Fresh?
    requires AllocateBindings(s, Ask(attempt)) == OK && Decide(s, Ask(attempt), now) == Give(10)
    ensures Allocate(s, Ask(attempt), now) == GrantAndStore(s, Ask(attempt), 10, now)
  {
    hide Decide, AllocateAdmission, AllocateBindings, GrantAndStore, Attempts.Find;
  }

  lemma RoomyStores(s: Fabric, attempt: u64, now: u64, r: Allocation)
    requires Inv(s) && Roomy(s) && DraftRecord(s, Ask(attempt), 10, now) == Drafted(r) && r.id == s.books.nextAllocation
    ensures var (s', outcome) := GrantAndStore(s, Ask(attempt), 10, now);
            outcome == Decided(Granted, OK, 10, s.books.nextAllocation) && Entered(s, s', r)
  {
    hide Inv, DraftRecord, GrantAndStore, Entered, PoolCloses, Charged, Grantable;
    RoomyFits(s, attempt);
    GrantCloses(s, Ask(attempt), 10, now);
    GrantAndStoreStep(s, Ask(attempt), 10, now);
    Handlers.GrantedKind(s, Ask(attempt), 10, now);
  }

  lemma RoomyFits(s: Fabric, attempt: u64)
    requires Inv(s) && Roomy(s)
    ensures Grantable(s, Ask(attempt), 10) && Compliant(s.books.pools[1], s.policies)
  {
    hide BooksOk;
  }

  // ----- The first session -----

  function GrantCalls(): seq<Call> {
    SetupCalls() + [Call(DoRegisterPool(PoolNamed(0)), 0), Call(DoRegisterQueue(OneQueue().(id := 0)), 0)]
    + [Call(DoAllocate(Ask(1)), 0)]
  }

  lemma {:induction false} RunAppend(s: Fabric, calls: seq<Call>, c: Call)
    requires AdmissibleRun(s, calls) && Admissible(Run(s, calls), c.op, c.now)
    ensures Run(s, calls + [c]) == Step(Run(s, calls), c.op, c.now) && AdmissibleRun(s, calls + [c])
    decreases |calls|
  {
    hide Step, Admissible;
    if calls == [] {
      assert [] + [c] == [c] && [c][1..] == [];
      assert Run(Step(s, c.op, c.now), []) == Step(s, c.op, c.now);
      assert AdmissibleRun(Step(s, c.op, c.now), []);
    } else {
      assert (calls + [c])[1..] == calls[1..] + [c];
      RunAppend(Step(s, calls[0].op, calls[0].now), calls[1..], c);
    }
  }

  /** One more call that neither releases nor allocates. */
  lemma RunOne(s: Fabric, calls: seq<Call>, op: Op, now: u64, s': Fabric)
    requires AdmissibleRun(s, calls) && !op.DoRelease? && !op.DoAllocate? && Step(Run(s, calls), op, now) == s'
    ensures Run(s, calls + [Call(op, now)]) == s' && AdmissibleRun(s, calls + [Call(op, now)])
  {
    hide Step, Run, AdmissibleRun;
    RunAppend(s, calls, Call(op, now));
  }

  lemma SetupRun()
    ensures Run(Opened(), SetupCalls()) == Vacant(1, SetupRecords()) && AdmissibleRun(Opened(), SetupCalls())
  {
    hide AttachBackend, PublishCapacity, PublishPolicy, Run, AdmissibleRun, Vacant, Sized, Attached, Opened;
    AttachStep();
    SizeStep();
    PolicyStep();
    NoCalls(Opened());
    var none: seq<Call> := [];
    var one := none + [Call(DoAttach(1, 1), 0)];
    RunOne(Opened(), none, DoAttach(1, 1), 0, Attached());
    var two := one + [Call(DoSetCapacity(OneCapacity(), 0, 0), 0)];
    RunOne(Opened(), one, DoSetCapacity(OneCapacity(), 0, 0), 0, Sized());
    RunOne(Opened(), two, DoPublish(OnePolicy().(id := 0, generation := 0), []), 0, Vacant(1, SetupRecords()));
    assert two + [Call(DoPublish(OnePolicy().(id := 0, generation := 0), []), 0)] == SetupCalls();
  }

  lemma NoCalls(s: Fabric)
    ensures Run(s, []) == s && AdmissibleRun(s, [])
  {
  }

  lemma ReadyRun()
    ensures var calls := GrantCalls()[..5];
            Run(Opened(), calls) == Ready() && AdmissibleRun(Opened(), calls) && Inv(Ready())
  {
    hide RegisterPool, RegisterQueue, Run, AdmissibleRun, Vacant, Housed, Ready, Opened, Inv;
    SetupRun();
    HouseStep(1, SetupRecords());
    QueueStep();
    var four := SetupCalls() + [Call(DoRegisterPool(PoolNamed(0)), 0)];
    RunOne(Opened(), SetupCalls(), DoRegisterPool(PoolNamed(0)), 0, Housed(1, SetupRecords()));
    RunOne(Opened(), four, DoRegisterQueue(OneQueue().(id := 0)), 0, Ready());
    assert four + [Call(DoRegisterQueue(OneQueue().(id := 0)), 0)] == GrantCalls()[..5];
    OpenedInv();
    RunKeepsInv(Opened(), GrantCalls()[..5]);
  }

  lemma OpenedInv()
    ensures Inv(Opened())
  {
    EmptyInv(Config(true, true), 1, Boot(0, 1), 16);
  }

  lemma ReadyRoomy()
    ensures Roomy(Ready()) && 1 !in Ready().attempts.records
  {
  }

  /** The whole first session: one grant, under id 1. */
  lemma FirstSession() returns (r: Allocation)
    ensures var s := Run(Opened(), GrantCalls());
            && AdmissibleRun(Opened(), GrantCalls()) && Inv(s) && Entered(Ready(), s, r)
            && s == Allocate(Ready(), Ask(1), 0).0
    ensures r.units == 10 && r.state.Committed? && r.pool == 1 && r.id == 1 && r.borrow == 0
  {
    hide Run, AdmissibleRun, Entered, Allocate, Ready, Roomy, Inv;
    ReadyRun();
    ReadyRoomy();
    r := RoomyGrants(Ready(), 1, 0);
    ReadyAdmits();
    assert GrantCalls() == GrantCalls()[..5] + [Call(DoAllocate(Ask(1)), 0)];
    RunAppend(Opened(), GrantCalls()[..5], Call(DoAllocate(Ask(1)), 0));
    OpenedInv();
    RunKeepsInv(Opened(), GrantCalls());
    ReadyNext();
  }

  lemma ReadyNext()
    ensures Ready().books.nextAllocation == 1 && Ready().books.allocations == map[]
  {
  }

  lemma ReadyAdmits()
    ensures Admissible(Ready(), DoAllocate(Ask(1)), 0)
  {
    hide Allocate;
  }

  // ----- Its journal -----

  /** Every record appended, nothing compacted. */
  function Plainly(js: seq<JournalRecord>): seq<Event> {
    if js == [] then [] else Plainly(js[..|js| - 1]) + [Journaled(js[|js| - 1], false, false)]
  }

  lemma {:induction false} PlainlyRecords(js: seq<JournalRecord>)
    ensures RecordsOf(Plainly(js)) == js && RemovesLast(Plainly(js))
  {
    if js != [] {
      PlainlyRecords(js[..|js| - 1]);
      var es := Plainly(js);
      assert es[..|es| - 1] == Plainly(js[..|js| - 1]);
    }
  }

  lemma {:induction false} PlainlyWrites(d: Disk, l: Live, js: seq<JournalRecord>)
    ensures DiskAfter(d, l, Plainly(js)) == Disk(d.snapshot, d.journal + js)
  {
    hide LiveAfter, RecordsOf, RemovesLast;
    if js != [] {
      var front, last := js[..|js| - 1], js[|js| - 1];
      PlainlyWrites(d, l, front);
      var es := Plainly(js);
      assert es[..|es| - 1] == Plainly(front);
      assert d.journal + js == (d.journal + front) + [last];
    } else {
      assert d.journal + js == d.journal;
    }
  }

  lemma {:induction false} NoRemovals(queues: map<u64, Queue>, js: seq<JournalRecord>)
    requires forall i :: 0 <= i < |js| ==> !js[i].PoolRemoved?
    ensures ReplayQueues(queues, js) == ReplayLive(queues, js)
  {
    if js != [] {
      var front := js[..|js| - 1];
      assert forall i :: 0 <= i < |front| ==> front[i] == js[i];
      NoRemovals(queues, front);
    }
  }

  lemma FirstJournal(r: Allocation)
    requires Entered(Ready(), Run(Opened(), GrantCalls()), r) && r.state.Committed?
    ensures var s := Run(Opened(), GrantCalls());
            && s.books.journal == SetupRecords() + [PoolUpsert(PoolNamed(1), 1)] + [QueueUpsert(OneQueue())]
                                  + [AllocationUpsert(OpCommitted, r)]
            && (forall i :: 0 <= i < |s.books.journal| ==> !s.books.journal[i].PoolRemoved?)
            && s.queues == map[1 := OneQueue()] && s.config == Config(true, true)
            && s.books.allocations == map[r.id := r] && s.policies == map[1 := OnePolicy()]
  {
    hide Run, PoolCloses, BoundNow, Extended, HolderOk, QueueHeld;
  }

  lemma ReadyPools()
    ensures Ready().books.pools == map[1 := EmptyEntry(PoolNamed(1), 1)]
  {
  }

  lemma EnteredPools(s: Fabric, s': Fabric, r: Allocation)
    requires Entered(s, s', r)
    ensures Extended(s.books.pools, s'.books.pools, r)
  {
    hide PoolCloses, BoundNow, HolderOk, QueueHeld, Extended;
  }

  lemma FirstPools(r: Allocation)
    requires Entered(Ready(), Run(Opened(), GrantCalls()), r) && r.state.Committed? && r.pool == 1 && r.units == 10 && r.borrow == 0
    ensures var pools := Run(Opened(), GrantCalls()).books.pools;
            && pools.Keys == {1} && pools[1].descriptor == PoolNamed(1) && pools[1].ownUsage == 10 && pools[1].committed == 10
            && pools[1].members == {r.id}
  {
    hide Run, Entered, Ready, Opened;
    ReadyPools();
    EnteredPools(Ready(), Run(Opened(), GrantCalls()), r);
    var before, after := Ready().books.pools, Run(Opened(), GrantCalls()).books.pools;
    assert Field(after[1], InOwn) == Field(before[1], InOwn) + Contribution(r, InOwn, 1);
    assert Field(after[1], InCommitted) == Field(before[1], InCommitted) + Contribution(r, InCommitted, 1);
  }

  // ----- The restart -----

  /** The fabric after the restart: what the first session left, but for the counter, which no
      snapshot carried, the next epoch, and what only snapshots restore. */
  function Restarted(s: Fabric): Fabric {
    s.(epoch := 2, shuttingDown := false, pressure := map[], attempts := Opened().attempts,
       books := s.books.(nextAllocation := 1))
  }

  ghost function Whole(): Session {
    var s := Run(Opened(), GrantCalls());
    Session(GrantCalls(), Plainly(s.books.journal), Closed, Restarted(s), 0, 2, Boot(0, 2), false, RecordAppended)
  }

  /** A committed record does not lapse. */
  lemma NothingLapses(r: Allocation, stamp: u64)
    requires r.state.Committed?
    ensures LapseAll(map[r.id := r], stamp) == map[r.id := r]
  {
  }

  lemma OneHolder(pools: Pools, r: Allocation)
    requires pools.Keys == {1} && pools[1].members == {r.id} && r.Holds() && r.pool == 1
    requires Agrees(pools, map[r.id := r])
    ensures Rebuilt(pools, map[r.id := r])
  {
    hide Agrees;
    assert HoldersOf(map[r.id := r], 1) == {r.id};
  }

  lemma EmptyTables()
    ensures Tables(Opened()) == EmptyDisk().snapshot.core && Opened().queues == map[] && Opened().books.journal == []
  {
    assert PoolsImage(Opened().books.pools) == map[];
  }

  /** What is on disk after the close is what the fabric held, with the first counter. */
  lemma ClosedDisk(r: Allocation)
    requires Entered(Ready(), Run(Opened(), GrantCalls()), r) && r.state.Committed? && r.id == 1
    requires AdmissibleRun(Opened(), GrantCalls())
    ensures var s := Run(Opened(), GrantCalls());
            var d := DiskAfter(EmptyDisk(), LiveOf(Opened()), Plainly(s.books.journal));
            && RecordsOf(Plainly(s.books.journal)) == s.books.journal && RemovesLast(Plainly(s.books.journal))
            && d == Disk(EmptyDisk().snapshot, s.books.journal)
            && FromDisk(d) == Live(Tables(s), s.queues, 1)
  {
    hide Run, AdmissibleRun, Tables, Replay, ReplayQueues, ReplayLive, RecordsOf, DiskAfter, Entered, Ready, Opened, RemovesLast, Reaches;
    hide Inv, ReplayNext;
    var s := Run(Opened(), GrantCalls());
    var js := s.books.journal;
    FirstJournal(r);
    PlainlyRecords(js);
    PlainlyWrites(EmptyDisk(), LiveOf(Opened()), js);
    EmptyTables();
    assert [] + js == js;
    OpenedInv();
    RunLogged(Opened(), GrantCalls(), Plainly(js));
    NoRemovals(map[], js);
  }

  lemma RestartLoads(r: Allocation)
    requires Entered(Ready(), Run(Opened(), GrantCalls()), r) && r.state.Committed? && r.id == 1
    requires r.pool == 1 && r.units == 10 && r.borrow == 0
    requires AdmissibleRun(Opened(), GrantCalls()) && Inv(Run(Opened(), GrantCalls()))
    ensures Follows(Opened(), EmptyDisk(), Whole())
  {
    hide Run, AdmissibleRun, Entered, Ready, Opened, RecordsOf, DiskAfter, PoolsImage, FromDisk, LapseAll, RemovesLast, Rebuilt, Countable;
    hide PoolsOk, RecordsOk, InRange, Indexed, Forest, Agrees;
    var s := Run(Opened(), GrantCalls());
    ClosedDisk(r);
    FirstJournal(r);
    FirstPools(r);
    NothingLapses(r, 0);
    OneHolder(s.books.pools, r);
    EmptyTables();
  }

  lemma RestartedRoomy(r: Allocation)
    requires Entered(Ready(), Run(Opened(), GrantCalls()), r) && r.state.Committed? && r.id == 1
    requires r.pool == 1 && r.units == 10 && r.borrow == 0
    ensures Roomy(Restarted(Run(Opened(), GrantCalls()))) && 2 !in Opened().attempts.records
  {
    hide Run, Entered, Ready;
    FirstJournal(r);
    FirstPools(r);
  }

  /** A history from an empty directory that ends with books that disagree. The first session
      registers a pool and a queue, commits one grant of ten units, and is closed in good
      order without ever compacting. The recovery after it is right in every respect but one:
      the next allocation id is 1 again. The next grant of ten units replaces the committed
      record, so the pool has twenty committed units and ten to show for them. */
  lemma CloseThenCollide() returns (x: Session)
    ensures x.stop.Closed? && Follows(Opened(), EmptyDisk(), x) && ResumesSession(Opened(), x) && Inv(x.loaded)
    ensures forall e :: e in x.events ==> e.Journaled? && !e.compacts
    ensures 1 in x.loaded.books.allocations && x.loaded.books.allocations[1].state.Committed?
    ensures var (s', outcome) := Allocate(x.loaded, Ask(2), 0);
            && outcome == Decided(Granted, OK, 10, 1)
            && 1 in s'.books.allocations && s'.books.allocations[1].attempt == 2
            && 1 in s'.books.pools && s'.books.pools[1].committed == 20
            && Total(s'.books.allocations, InCommitted, 1) == 10
            && !Agrees(s'.books.pools, s'.books.allocations) && !Inv(s')
  {
    hide Run, AdmissibleRun, Entered, Allocate, Ready, Opened, Inv, Follows, ResumesSession, Roomy, Restarted, Stands, NextDisk, Total, Agrees;
    hide RecordsOf, LiveOf;
    x := Whole();
    var r := FirstSession();
    RestartLoads(r);
    OpenedInv();
    OpenedStands();
    SessionResumes(Opened(), EmptyDisk(), 0, x);
    PlainlyPlain(Run(Opened(), GrantCalls()).books.journal);
    SecondGrant(r);
  }

  lemma OpenedStands()
    ensures Stands(EmptyDisk(), LiveOf(Opened()), 0)
  {
    hide Stands, LiveOf;
    FreshStands(Config(true, true), 1, Boot(0, 1), 16, 0);
  }

  lemma {:induction false} PlainlyPlain(js: seq<JournalRecord>)
    ensures forall e :: e in Plainly(js) ==> e.Journaled? && !e.compacts
  {
    if js != [] { PlainlyPlain(js[..|js| - 1]); }
  }

  lemma SecondGrant(r: Allocation)
    requires Entered(Ready(), Run(Opened(), GrantCalls()), r) && r.state.Committed? && r.id == 1
    requires r.pool == 1 && r.units == 10 && r.borrow == 0 && Inv(Restarted(Run(Opened(), GrantCalls())))
    ensures var s := Restarted(Run(Opened(), GrantCalls()));
            var (s', outcome) := Allocate(s, Ask(2), 0);
            && 1 in s.books.allocations && s.books.allocations[1].state.Committed?
            && outcome == Decided(Granted, OK, 10, 1)
            && 1 in s'.books.allocations && s'.books.allocations[1].attempt == 2
            && 1 in s'.books.pools && s'.books.pools[1].committed == 20
            && Total(s'.books.allocations, InCommitted, 1) == 10
            && !Agrees(s'.books.pools, s'.books.allocations) && !Inv(s')
  {
    hide Run, Entered, Allocate, Ready, Inv, Roomy, Total, Agrees;
    var s := Restarted(Run(Opened(), GrantCalls()));
    FirstJournal(r);
    FirstPools(r);
    RestartedRoomy(r);
    var r' := RoomyGrants(s, 2, 0);
    DraftedAttempt(s, r');
    Overwritten(s, Allocate(s, Ask(2), 0).0, r, r');
  }

  lemma DraftedAttempt(s: Fabric, r: Allocation)
    requires Roomy(s) && Inv(s) && 2 !in s.attempts.records && Entered(s, Allocate(s, Ask(2), 0).0, r)
    requires r.id == s.books.nextAllocation
    ensures r.attempt == 2
  {
    hide Inv, Decide, AllocateAdmission, AllocateBindings, Entered, GrantAndStore, Attempts.Find, Allocate;
    RoomyDecides(s, 2, 0);
    RoomyAllocates(s, 2, 0);
    var d := RoomyDrafts(s, 2, 0);
    RoomyStores(s, 2, 0, d);
    EnteredRecord(s, Allocate(s, Ask(2), 0).0, r);
    EnteredRecord(s, Allocate(s, Ask(2), 0).0, d);
  }

  lemma EnteredRecord(s: Fabric, s': Fabric, r: Allocation)
    requires Entered(s, s', r)
    ensures s'.books.allocations == s.books.allocations[r.id := r] && r.id in s'.books.allocations
  {
    hide PoolCloses, BoundNow, Extended, HolderOk, QueueHeld;
  }

  lemma Overwritten(s: Fabric, s': Fabric, r: Allocation, r': Allocation)
    requires Entered(s, s', r') && s.books.allocations == map[1 := r] && r'.id == 1 && r'.pool == 1 && r'.units == 10
    requires r'.state.Committed? && r'.borrow == 0
    requires 1 in s.books.pools && s.books.pools[1].committed == 10
    ensures s'.books.allocations == map[1 := r'] && 1 in s'.books.pools && s'.books.pools[1].committed == 20
    ensures Total(s'.books.allocations, InCommitted, 1) == 10
    ensures !Agrees(s'.books.pools, s'.books.allocations) && !Inv(s')
  {
    hide PoolCloses, BoundNow, HolderOk, QueueHeld, Total, Forest, Indexed, RecordsOk;
    var none: Records := map[];
    assert Field(s'.books.pools[1], InCommitted) == Field(s.books.pools[1], InCommitted) + Contribution(r', InCommitted, 1);
    TotalReplaced(none, 1, r', InCommitted, 1);
    assert s'.books.allocations == none[1 := r'];
    NoRecords();
  }

  lemma NoRecords()
    ensures Total(map[], InCommitted, 1) == 0
  {
    var none: Records := map[];
    SumZero(none.Keys, Share(none, InCommitted, 1));
  }
}
