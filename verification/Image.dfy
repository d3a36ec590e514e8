/** The durable image and its replay: last writer wins, so replaying a journal over its
    own result changes nothing. */
module Image {
  import opened Arithmetic
  import opened Model
  import opened Topology

  datatype PoolImage = PoolImage(descriptor: PoolDescriptor, capacityGeneration: u64)

  /** The tables the journal reproduces exactly. */
  datatype Core = Core(pools: map<u64, PoolImage>, policies: map<u64, Policy>, capacities: map<u64, Capacity>,
                       allocations: map<u64, Allocation>)

  /** A record that recovery accepts; any other makes it refuse the journal. */
  predicate Applicable(r: JournalRecord) {
    match r
    case PoolUpsert(d, _) => d.Validate() == OK
    case PolicyUpsert(policy) => policy.Valid()
    case AllocationUpsert(_, a) => a.units <= MAX_UNITS
    case _ => true
  }

  /** apply_journal_payload on the tables: a full-object upsert or a removal. */
  function Apply(c: Core, r: JournalRecord): Core {
    match r
    case PoolUpsert(d, g) => c.(pools := c.pools[d.id := PoolImage(d, g)])
    case PoolRemoved(p) => c.(pools := c.pools - {p})
    case PolicyUpsert(policy) => c.(policies := c.policies[policy.id := policy])
    case CapacitySet(capacity) => c.(capacities := c.capacities[capacity.resource := capacity])
    case AllocationUpsert(_, a) => c.(allocations := c.allocations[a.id := a])
    case _ => c
  }

  function Replay(c: Core, js: seq<JournalRecord>): Core
    decreases |js|
  {
    if js == [] then c else Replay(Apply(c, js[0]), js[1..])
  }

  lemma {:induction false} ReplayAppend(c: Core, js: seq<JournalRecord>, ks: seq<JournalRecord>)
    ensures Replay(c, js + ks) == Replay(Replay(c, js), ks)
    decreases |js|
  {
    if js == [] {
      assert js + ks == ks;
    } else {
      assert (js + ks)[1..] == js[1..] + ks;
      ReplayAppend(Apply(c, js[0]), js[1..], ks);
    }
  }

  lemma ReplayOne(c: Core, r: JournalRecord)
    ensures Replay(c, [r]) == Apply(c, r)
  {
    assert [r][1..] == [];
  }

  // ----- Last writer wins -----

  datatype Key = PoolKey(id: u64) | PolicyKey(id: u64) | CapacityKey(id: u64) | AllocationKey(id: u64) | Elsewhere

  datatype Cell = Absent | OfPool(pool: PoolImage) | OfPolicy(policy: Policy) | OfCapacity(capacity: Capacity)
                | OfAllocation(allocation: Allocation)

  /** The entry of the tables under a key. */
  function At(c: Core, k: Key): Cell {
    match k
    case PoolKey(id) => if id in c.pools then OfPool(c.pools[id]) else Absent
    case PolicyKey(id) => if id in c.policies then OfPolicy(c.policies[id]) else Absent
    case CapacityKey(id) => if id in c.capacities then OfCapacity(c.capacities[id]) else Absent
    case AllocationKey(id) => if id in c.allocations then OfAllocation(c.allocations[id]) else Absent
    case Elsewhere => Absent
  }

  function KeyOf(r: JournalRecord): Key {
    match r
    case PoolUpsert(d, _) => PoolKey(d.id)
    case PoolRemoved(p) => PoolKey(p)
    case PolicyUpsert(policy) => PolicyKey(policy.id)
    case CapacitySet(capacity) => CapacityKey(capacity.resource)
    case AllocationUpsert(_, a) => AllocationKey(a.id)
    case _ => Elsewhere
  }

  function Written(r: JournalRecord): Cell {
    match r
    case PoolUpsert(d, g) => OfPool(PoolImage(d, g))
    case PolicyUpsert(policy) => OfPolicy(policy)
    case CapacitySet(capacity) => OfCapacity(capacity)
    case AllocationUpsert(_, a) => OfAllocation(a)
    case _ => Absent
  }

  lemma ApplyAt(c: Core, r: JournalRecord, k: Key)
    ensures At(Apply(c, r), k) == if k == KeyOf(r) then Written(r) else At(c, k)
  {
  }

  lemma SameEverywhere(c: Core, d: Core)
    requires forall k :: At(c, k) == At(d, k)
    ensures c == d
  {
    forall id: u64 ensures (id in c.pools <==> id in d.pools) && (id in c.pools ==> c.pools[id] == d.pools[id]) {
      assert At(c, PoolKey(id)) == At(d, PoolKey(id));
    }
    forall id: u64 ensures (id in c.policies <==> id in d.policies) && (id in c.policies ==> c.policies[id] == d.policies[id]) {
      assert At(c, PolicyKey(id)) == At(d, PolicyKey(id));
    }
    forall id: u64
      ensures (id in c.capacities <==> id in d.capacities) && (id in c.capacities ==> c.capacities[id] == d.capacities[id])
    {
      assert At(c, CapacityKey(id)) == At(d, CapacityKey(id));
    }
    forall id: u64
      ensures (id in c.allocations <==> id in d.allocations) && (id in c.allocations ==> c.allocations[id] == d.allocations[id])
    {
      assert At(c, AllocationKey(id)) == At(d, AllocationKey(id));
    }
    assert c.pools == d.pools && c.policies == d.policies && c.capacities == d.capacities && c.allocations == d.allocations;
  }

  datatype LastWrite = Never | Wrote(cell: Cell)

  /** The last record that writes a key, if any. */
  function Last(js: seq<JournalRecord>, k: Key): LastWrite {
    if js == [] then Never
    else if KeyOf(js[|js| - 1]) == k then Wrote(Written(js[|js| - 1]))
    else Last(js[..|js| - 1], k)
  }

  /** Replay in one line: the last write to a key, or what was there. */
  lemma {:induction false} LastWriterWins(c: Core, js: seq<JournalRecord>, k: Key)
    ensures At(Replay(c, js), k) == if Last(js, k).Wrote? then Last(js, k).cell else At(c, k)
  {
    if js != [] {
      var front, r := js[..|js| - 1], js[|js| - 1];
      assert js == front + [r];
      ReplayAppend(c, front, [r]);
      ReplayOne(Replay(c, front), r);
      ApplyAt(Replay(c, front), r, k);
      LastWriterWins(c, front, k);
    }
  }

  /** Replaying a journal over its own result changes nothing. */
  lemma ReplayIdempotent(c: Core, js: seq<JournalRecord>)
    ensures Replay(Replay(c, js), js) == Replay(c, js)
  {
    hide Replay, At, Last;
    forall k ensures At(Replay(Replay(c, js), js), k) == At(Replay(c, js), k) {
      LastWriterWins(c, js, k);
      LastWriterWins(Replay(c, js), js, k);
    }
    SameEverywhere(Replay(Replay(c, js), js), Replay(c, js));
  }

  /** Replaying a journal over its result with one more record applied gives back the state
      before that record if the journal also wrote its key, and the state after it if not. */
  lemma ReplayOverNext(c: Core, js: seq<JournalRecord>, r: JournalRecord)
    ensures var before := Replay(c, js);
            Replay(Apply(before, r), js) == if Last(js, KeyOf(r)).Wrote? then before else Apply(before, r)
  {
    hide Replay, At, Last, Apply;
    var before := Replay(c, js);
    var expected := if Last(js, KeyOf(r)).Wrote? then before else Apply(before, r);
    forall k ensures At(Replay(Apply(before, r), js), k) == At(expected, k) {
      LastWriterWins(c, js, k);
      LastWriterWins(Apply(before, r), js, k);
      ApplyAt(before, r, k);
    }
    SameEverywhere(Replay(Apply(before, r), js), expected);
  }

  // ----- Epoch, queues and evidence -----

  /** What the journal carries beside the tables. Replay keeps queues and evidence of a
      removed pool, which the live fabric drops. */
  datatype Rest = Rest(epoch: u64, boot: Boot, queues: map<u64, Queue>, pressure: map<u64, PressureSnapshot>)

  function ApplyQueues(queues: map<u64, Queue>, r: JournalRecord): map<u64, Queue> {
    match r
    case QueueUpsert(q) => queues[q.id := q]
    case QueueRetired(id) => if id in queues then queues[id := queues[id].(retired := true)] else queues
    case _ => queues
  }

  function ApplyRest(c: Rest, r: JournalRecord): Rest {
    match r
    case EpochAdvance(epoch, boot) =>
      c.(epoch := if epoch > c.epoch then epoch else c.epoch,
         boot := if boot.hi != 0 || boot.lo != 0 then boot else c.boot)
    case QueueUpsert(_) => c.(queues := ApplyQueues(c.queues, r))
    case QueueRetired(_) => c.(queues := ApplyQueues(c.queues, r))
    case PressureObserved(o) => c.(pressure := c.pressure[o.pool := o])
    case _ => c
  }

  function ReplayRest(c: Rest, js: seq<JournalRecord>): Rest
    decreases |js|
  {
    if js == [] then c else ReplayRest(ApplyRest(c, js[0]), js[1..])
  }

  lemma {:induction false} ReplayRestAppend(c: Rest, js: seq<JournalRecord>, ks: seq<JournalRecord>)
    ensures ReplayRest(c, js + ks) == ReplayRest(ReplayRest(c, js), ks)
    decreases |js|
  {
    if js == [] {
      assert js + ks == ks;
    } else {
      assert (js + ks)[1..] == js[1..] + ks;
      ReplayRestAppend(ApplyRest(c, js[0]), js[1..], ks);
    }
  }

  /** One call of journal(): if the threshold is reached the live tables are snapshotted
      and the journal is truncated, then the record is appended. A crash may come before
      each of these steps takes effect. */
  datatype CrashPoint = BeforeAnything | SnapshotRenamed | JournalTruncated | RecordAppended

  // ----- Queues -----

  function ReplayQueues(queues: map<u64, Queue>, js: seq<JournalRecord>): map<u64, Queue> {
    if js == [] then queues else ApplyQueues(ReplayQueues(queues, js[..|js| - 1]), js[|js| - 1])
  }

  lemma {:induction false} RestQueues(c: Rest, js: seq<JournalRecord>)
    ensures ReplayRest(c, js).queues == ReplayQueues(c.queues, js)
  {
    if js != [] {
      var front, r := js[..|js| - 1], js[|js| - 1];
      assert js == front + [r] && [r][1..] == [];
      ReplayRestAppend(c, front, [r]);
      assert ReplayRest(ReplayRest(c, front), [r]) == ApplyRest(ReplayRest(c, front), r);
      RestQueues(c, front);
    }
  }

  /** The live queues once a record is in force: unlike replay, removing a pool drops the
      queues on it. */
  function LiveQueues(queues: map<u64, Queue>, r: JournalRecord): map<u64, Queue> {
    match r
    case PoolRemoved(p) => queues - QueuesOn(queues, p)
    case _ => ApplyQueues(queues, r)
  }

  function ReplayLive(queues: map<u64, Queue>, js: seq<JournalRecord>): map<u64, Queue> {
    if js == [] then queues else LiveQueues(ReplayLive(queues, js[..|js| - 1]), js[|js| - 1])
  }

  lemma {:induction false} ReplayLiveAppend(queues: map<u64, Queue>, js: seq<JournalRecord>, ks: seq<JournalRecord>)
    ensures ReplayLive(queues, js + ks) == ReplayLive(ReplayLive(queues, js), ks)
  {
    if ks == [] {
      assert js + ks == js;
    } else {
      assert (js + ks)[..|js + ks| - 1] == js + ks[..|ks| - 1];
      ReplayLiveAppend(queues, js, ks[..|ks| - 1]);
    }
  }

  /** Every queue of `live` is in `known`, and the same there. */
  ghost predicate Knows(known: map<u64, Queue>, live: map<u64, Queue>) {
    forall q :: q in live ==> q in known && known[q] == live[q]
  }

  lemma {:induction false} ReplayKnows(known: map<u64, Queue>, live: map<u64, Queue>, js: seq<JournalRecord>)
    requires Knows(known, live)
    ensures Knows(ReplayQueues(known, js), ReplayLive(live, js))
  {
    if js != [] { ReplayKnows(known, live, js[..|js| - 1]); }
  }

  datatype QueueWrite = Unwritten | WroteQueue(queue: Queue)

  function LastQueue(js: seq<JournalRecord>, q: u64): QueueWrite {
    if js == [] then Unwritten
    else
      var r := js[|js| - 1];
      if r.QueueUpsert? && r.queue.id == q then WroteQueue(r.queue) else LastQueue(js[..|js| - 1], q)
  }

  /** Nothing writes the separate retirement record: retire_queue upserts the queue. */
  predicate WholeQueues(js: seq<JournalRecord>) { forall i :: 0 <= i < |js| ==> !js[i].QueueRetired? }

  /** Queues, too: the last one written under an id, or what was there. */
  lemma {:induction false} LastQueueWins(queues: map<u64, Queue>, js: seq<JournalRecord>, q: u64)
    requires WholeQueues(js)
    ensures q in ReplayQueues(queues, js) <==> LastQueue(js, q).WroteQueue? || q in queues
    ensures q in ReplayQueues(queues, js) ==>
              ReplayQueues(queues, js)[q] == if LastQueue(js, q).WroteQueue? then LastQueue(js, q).queue else queues[q]
  {
    if js != [] {
      assert forall i :: 0 <= i < |js| - 1 ==> js[..|js| - 1][i] == js[i];
      LastQueueWins(queues, js[..|js| - 1], q);
    }
  }

  // ----- The next allocation id -----

  /** A record that takes up units under the next id, which no holder has, is a grant. */
  predicate IsGrant(c: Core, next: u64, r: JournalRecord) {
    && r.AllocationUpsert? && r.allocation.Holds() && r.allocation.id == next
    && (next in c.allocations ==> !c.allocations[next].Holds())
  }

  /** The live counter once a record is in force. The journal does not carry it: only a
      snapshot does. */
  function NextAfter(c: Core, next: u64, r: JournalRecord): u64 { if IsGrant(c, next, r) then Wrap(next + 1) else next }

  function ReplayNext(c: Core, next: u64, js: seq<JournalRecord>): u64 {
    if js == [] then next
    else
      var front := js[..|js| - 1];
      NextAfter(Replay(c, front), ReplayNext(c, next, front), js[|js| - 1])
  }

  lemma {:induction false} ReplayNextAppend(c: Core, next: u64, js: seq<JournalRecord>, ks: seq<JournalRecord>)
    ensures ReplayNext(c, next, js + ks) == ReplayNext(Replay(c, js), ReplayNext(c, next, js), ks)
  {
    hide NextAfter;
    if ks == [] {
      assert js + ks == js;
    } else {
      var front := ks[..|ks| - 1];
      assert (js + ks)[..|js + ks| - 1] == js + front;
      ReplayNextAppend(c, next, js, front);
      ReplayAppend(c, js, front);
    }
  }

  lemma ReplayNextOne(c: Core, next: u64, r: JournalRecord)
    ensures ReplayNext(c, next, [r]) == NextAfter(c, next, r)
  {
    assert [r][..|[r]| - 1] == [];
    assert ReplayNext(c, next, []) == next;
  }

  /** What a counter that reads zero is restored as. */
  function OneIfZero(v: u64): u64 { if v == 0 then 1 else v }
}
