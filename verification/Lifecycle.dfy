/** The life of an allocation record over whole runs: records are never deleted, and unless
    its id is handed out again, which only a restart makes possible, a record that holds no
    units never changes and a commitment never becomes a reservation. */
module Lifecycle {
  import opened Arithmetic
  import opened Model
  import opened Grants
  import opened Ledger
  import opened Topology
  import opened Aggregates
  import opened Invariant
  import opened Transitions
  import opened AllocationSteps
  import opened TopologySteps
  import opened Steps
  import opened Runs
  import opened Ids
  import opened Split

  /** What may become of a record. */
  ghost predicate Advances(r: Allocation, r': Allocation) {
    || r' == r
    || (&& r.Holds() && r'.id == r.id && r'.pool == r.pool && r'.queue == r.queue && r'.units <= r.units
        && (r.state.Committed? ==> !r'.state.Reserved?))
  }

  lemma AdvancesTransitive(a: Allocation, b: Allocation, c: Allocation)
    requires Advances(a, b) && Advances(b, c)
    ensures Advances(a, c)
  {
  }

  ghost predicate AllAdvance(records: Records, records': Records) {
    forall id :: id in records ==> id in records' && Advances(records[id], records'[id])
  }

  lemma ShrunkAdvance(b: Books, b': Books)
    requires Shrunk(b, b')
    ensures AllAdvance(b.allocations, b'.allocations)
  {
    hide FieldsShrunk, IndexShrunk;
    forall id | id in b.allocations ensures id in b'.allocations && Advances(b.allocations[id], b'.allocations[id]) {
      assert LetGo(b.allocations[id], b'.allocations[id]);
    }
  }

  lemma ReplacedAdvance(b: Books, b': Books, id: u64, r': Allocation)
    requires ReplacedBooks(b, b', id, r') && Advances(b.allocations[id], r')
    ensures AllAdvance(b.allocations, b'.allocations)
  {
    hide Moved, SameTopology;
  }

  lemma RemainderAdvances(r: Allocation, units: u64, now: u64)
    requires r.Holds() && 0 < r.units <= MAX_UNITS && r.borrow <= r.units && 0 < units <= r.units && SplitHolds(r, units)
    ensures Advances(r, RemainingHalf(r, units, now))
  {
    SplitConserves(r, units, now);
  }

  lemma GiveBackAdvances(s: Fabric, s': Fabric, id: u64, units: u64, now: u64)
    requires Inv(s) && Changes(s, s', GiveBack(id, units), now)
    ensures AllAdvance(s.books.allocations, s'.books.allocations)
  {
    hide Agrees, Forest, Indexed, ReplacedBooks, Returning, RemainingHalf, AllAdvance;
    GiveBackStep(s, s', id, units, now);
    assert HolderOk(s.books.allocations[id], s.books.pools, s.queues);
    RemainderAdvances(s.books.allocations[id], units, now);
    ReplacedAdvance(s.books, s'.books, id, RemainingHalf(s.books.allocations[id], units, now));
  }

  lemma RebindAdvances(s: Fabric, s': Fabric, id: u64, now: u64)
    requires Inv(s) && Changes(s, s', Rebind(id), now)
    ensures AllAdvance(s.books.allocations, s'.books.allocations)
  {
    hide BooksOk, RenewedFor;
  }

  lemma ChangeAdvances(s: Fabric, s': Fabric, c: Change, now: u64)
    requires Inv(s) && Changes(s, s', c, now) && !c.Enter?
    ensures AllAdvance(s.books.allocations, s'.books.allocations)
  {
    hide Inv, AllAdvance, PoolAdded, PoolDropped, ResizedTo, RetiredBy, RetargetedTo, Published, Promoted, Returning, Rebound;
    hide FenceAll, Shrunk, Becomes, Entered, ReplacedBooks;
    match c
    case Nothing => Unchanged(s.books.allocations);
    case NewCapacity(capacity) => Unchanged(s.books.allocations);
    case Promote(id) =>
      PromoteStep(s, s', id, now);
      ReplacedAdvance(s.books, s'.books, id, Marked(s.books.allocations[id], Committed, now));
    case GiveBack(id, units) => GiveBackAdvances(s, s', id, units, now);
    case Rebind(id) => RebindAdvances(s, s', id, now);
    case Shed(ids, sel, to) =>
      SheddingKeepsInv(s, s', ids, sel, to, now);
      ShrunkAdvance(s.books, s'.books);
    case NewPolicy(policy, order) =>
      PublishedKeepsInv(s, s', policy, order, now);
      ShrunkAdvance(s.books, s'.books);
    case AddPool(d) =>
      PoolAddedTables(s, s', d);
      Unchanged(s.books.allocations);
    case DropPool(p) => DropAdvances(s, s', p);
    case Resize(p, raw, protected) => ResizeAdvances(s, s', p, raw, protected, now);
    case AddQueue(q) => Unchanged(s.books.allocations);
    case EditDemand(q) => Unchanged(s.books.allocations);
    case Retire(id) =>
      RetiringKeepsInv(s, s', id, now);
      ShrunkAdvance(s.books, s'.books);
    case Retarget(id, target) =>
      RetargetingKeepsInv(s, s', id, target, now);
      ShrunkAdvance(s.books, s'.books);
  }

  lemma Unchanged(records: Records)
    ensures AllAdvance(records, records)
  {
  }

  lemma DropAdvances(s: Fabric, s': Fabric, p: u64)
    requires PoolDropped(s, s', p)
    ensures AllAdvance(s.books.allocations, s'.books.allocations)
  {
    hide RemovalGuard;
  }

  lemma ResizeAdvances(s: Fabric, s': Fabric, p: u64, raw: u64, protected: u64, now: u64)
    requires Inv(s) && ResizedTo(s, s', p, raw, protected, now)
    ensures AllAdvance(s.books.allocations, s'.books.allocations)
  {
    hide Inv, Shrunk, ResizeGuard, Enforced, AllAdvance;
    ResizingKeepsInv(s, s', p, raw, protected, now);
    ShrunkAdvance(ResizedBooks(s.books, p, raw, protected), s'.books);
  }

  /** Every record survives, and all but those whose ids were handed out again, from `low` up
      to but not including `high`, only advance. */
  ghost predicate AdvanceOutside(records: Records, records': Records, low: u64, high: u64) {
    forall id :: id in records ==> id in records' && (id < low || high <= id ==> Advances(records[id], records'[id]))
  }

  lemma AdvanceTransitive(a: Records, b: Records, c: Records, low: u64, mid: u64, high: u64)
    requires AdvanceOutside(a, b, low, mid) && AdvanceOutside(b, c, mid, high) && low <= mid <= high
    ensures AdvanceOutside(a, c, low, high)
  {
    forall id | id in a ensures id in c && (id < low || high <= id ==> Advances(a[id], c[id])) {
      if id < low || high <= id { AdvancesTransitive(a[id], b[id], c[id]); }
    }
  }

  lemma EnterOutside(s: Fabric, s': Fabric, r: Allocation)
    requires Entered(s, s', r)
    ensures s'.books.nextAllocation == s.books.nextAllocation + 1
    ensures AdvanceOutside(s.books.allocations, s'.books.allocations, s.books.nextAllocation, s'.books.nextAllocation)
  {
    hide PoolCloses, Extended, BoundNow, HolderOk, QueueHeld;
  }

  lemma ChangeOutside(s: Fabric, s': Fabric, c: Change, now: u64)
    requires Inv(s) && Changes(s, s', c, now)
    ensures s.books.nextAllocation <= s'.books.nextAllocation
    ensures AdvanceOutside(s.books.allocations, s'.books.allocations, s.books.nextAllocation, s'.books.nextAllocation)
  {
    hide Inv, Changes, Entered, Advances;
    if c.Enter? {
      EnterChange(s, s', c, now);
      EnterOutside(s, s', c.record);
    } else {
      ChangeAdvances(s, s', c, now);
      ChangeKeys(s, s', c, now);
    }
  }

  lemma EnterChange(s: Fabric, s': Fabric, c: Change, now: u64)
    requires Changes(s, s', c, now) && c.Enter?
    ensures Entered(s, s', c.record)
  {
    hide Entered;
  }

  /** Over any run the next id never goes back, every record survives, and a record whose id
      the run does not hand out only advances; in particular one that has let go of its units
      is never changed again. In a fabric that was never restarted no record has an id that
      can still be handed out. */
  lemma {:induction false} LifecycleTheorem(s: Fabric, calls: seq<Call>)
    requires Inv(s) && AdmissibleRun(s, calls)
    ensures var s' := Run(s, calls);
            var records, records' := s.books.allocations, s'.books.allocations;
            && s.books.nextAllocation <= s'.books.nextAllocation
            && AdvanceOutside(records, records', s.books.nextAllocation, s'.books.nextAllocation)
            && (forall id :: id in records && !records[id].Holds()
                             && (id < s.books.nextAllocation || s'.books.nextAllocation <= id) ==>
                  id in records' && records'[id] == records[id])
    decreases |calls|
  {
    hide Inv, Step, Admissible, Changes;
    if calls != [] {
      var s', now := Step(s, calls[0].op, calls[0].now), calls[0].now;
      var c := StepChanges(s, calls[0].op, now);
      ChangeKeepsInv(s, s', c, now);
      ChangeOutside(s, s', c, now);
      LifecycleTheorem(s', calls[1..]);
      var s2 := Run(s', calls[1..]);
      AdvanceTransitive(s.books.allocations, s'.books.allocations, s2.books.allocations,
                        s.books.nextAllocation, s'.books.nextAllocation, s2.books.nextAllocation);
    }
  }
}
