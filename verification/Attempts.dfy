/** Attempt de-duplication: a bounded first-in first-out memory of decided attempts. */
module Attempts {
  import opened Arithmetic
  import opened Model
  import opened Order

  datatype AttemptMemory = AttemptMemory(capacity: nat, records: map<u64, Attempt>, order: seq<u64>)

  datatype Lookup = Fresh | Conflict | Replay(previous: Attempt)

  function Find(m: AttemptMemory, id: u64, digest: Digest): Lookup {
    if id !in m.records then Fresh
    else if m.records[id].digest != digest then Conflict
    else Replay(m.records[id])
  }

  function Evict(m: AttemptMemory): AttemptMemory
    decreases |m.order|
  {
    if |m.records| > m.capacity && m.order != []
    then Evict(m.(records := m.records - {m.order[0]}, order := m.order[1..]))
    else m
  }

  function Record(m: AttemptMemory, a: Attempt): AttemptMemory {
    if m.capacity == 0 then m
    else Evict(m.(order := if a.id in m.records then m.order else m.order + [a.id],
                  records := m.records[a.id := a]))
  }

  // ----- The order queue lists exactly the remembered attempts, oldest first -----

  ghost predicate Listed(m: AttemptMemory) {
    && Distinct(m.order)
    && Elements(m.order) == m.records.Keys
    && (forall id :: id in m.records ==> m.records[id].id == id)
  }

  ghost predicate Consistent(m: AttemptMemory) {
    Listed(m) && |m.records| <= m.capacity
  }

  lemma {:induction false} DistinctCount(ids: seq<u64>)
    requires Distinct(ids)
    ensures |Elements(ids)| == |ids|
  {
    if ids != [] {
      DistinctCount(ids[1..]);
      HeadTail(ids);
    }
  }

  lemma HeadTail(ids: seq<u64>)
    requires ids != [] && Distinct(ids)
    ensures Elements(ids) == Elements(ids[1..]) + {ids[0]} && ids[0] !in Elements(ids[1..])
    ensures Distinct(ids[1..])
  {
    assert ids == [ids[0]] + ids[1..];
  }

  lemma Appended(ids: seq<u64>, id: u64)
    requires Distinct(ids) && id !in Elements(ids)
    ensures Distinct(ids + [id]) && Elements(ids + [id]) == Elements(ids) + {id}
  {
  }

  lemma ListedCount(m: AttemptMemory)
    requires Listed(m)
    ensures |m.records| == |m.order|
  {
    DistinctCount(m.order);
    assert |m.records| == |m.records.Keys|;
  }

  function Grow(m: AttemptMemory, a: Attempt): AttemptMemory {
    m.(order := if a.id in m.records then m.order else m.order + [a.id], records := m.records[a.id := a])
  }

  function DropOldest(m: AttemptMemory): AttemptMemory
    requires m.order != []
  {
    m.(records := m.records - {m.order[0]}, order := m.order[1..])
  }

  lemma GrowListed(m: AttemptMemory, a: Attempt)
    requires Listed(m)
    ensures Listed(Grow(m, a))
  {
    if a.id !in m.records { Appended(m.order, a.id); }
    assert Grow(m, a).records.Keys == m.records.Keys + {a.id};
  }

  lemma DropListed(m: AttemptMemory)
    requires Listed(m) && m.order != []
    ensures Listed(DropOldest(m))
  {
    HeadTail(m.order);
    assert DropOldest(m).records.Keys == m.records.Keys - {m.order[0]};
  }

  /** Recording one attempt evicts at most the single oldest one. */
  lemma RecordShape(m: AttemptMemory, a: Attempt)
    requires Consistent(m) && m.capacity > 0
    ensures var m' := Record(m, a);
            && Consistent(m')
            && m' == if a.id in m.records || |m.order| < m.capacity then Grow(m, a) else DropOldest(Grow(m, a))
  {
    ListedCount(m);
    var grown := Grow(m, a);
    GrowListed(m, a);
    ListedCount(grown);
    if |grown.order| > m.capacity {
      DropListed(grown);
      ListedCount(DropOldest(grown));
      assert Evict(grown) == Evict(DropOldest(grown)) == DropOldest(grown);
    } else {
      assert Evict(grown) == grown;
    }
  }

  function RecordAll(m: AttemptMemory, rs: seq<Attempt>): AttemptMemory
    decreases |rs|
  {
    if rs == [] then m else RecordAll(Record(m, rs[0]), rs[1..])
  }

  /** Where the attempt at queue position i stands after one more recording. */
  lemma OneLater(m: AttemptMemory, i: nat, a: Attempt)
    requires Consistent(m) && i < |m.order| && a.id != m.order[i]
    requires a.id in m.records || |m.order| < m.capacity || i > 0
    ensures var m' := Record(m, a);
            var j := if a.id in m.records || |m.order| < m.capacity then i else i - 1;
            && Consistent(m') && m'.capacity == m.capacity && j < |m'.order|
            && |m'.order| == (if a.id in m.records || |m.order| == m.capacity then |m.order| else |m.order| + 1)
            && m'.order[j] == m.order[i]
            && m.order[i] in m.records && m.order[i] in m'.records
            && m'.records[m.order[i]] == m.records[m.order[i]]
  {
    ListedCount(m);
    RecordShape(m, a);
    assert m.order[i] in Elements(m.order);
    var m' := Record(m, a);
    var j := if a.id in m.records || |m.order| < m.capacity then i else i - 1;
    assert m'.order[j] in Elements(m'.order);
  }

  /** An attempt with k newer ones behind it survives the next capacity - 1 - k. */
  lemma {:induction false} Survives(m: AttemptMemory, i: nat, rs: seq<Attempt>)
    requires Consistent(m) && i < |m.order|
    requires |m.order| - 1 - i + |rs| < m.capacity
    requires forall k :: 0 <= k < |rs| ==> rs[k].id != m.order[i]
    ensures var id := m.order[i];
            id in m.records && id in RecordAll(m, rs).records && RecordAll(m, rs).records[id] == m.records[id]
    decreases |rs|
  {
    if rs == [] {
      assert m.order[i] in Elements(m.order);
    } else {
      ListedCount(m);
      OneLater(m, i, rs[0]);
      var j := if rs[0].id in m.records || |m.order| < m.capacity then i else i - 1;
      Survives(Record(m, rs[0]), j, rs[1..]);
    }
  }

  /** After an attempt is recorded, fewer than capacity further recordings leave it in
      memory: the same request is answered from memory with the recorded decision, and a
      different request under the same identity is refused as a conflict. */
  lemma RepeatIsAnswered(m: AttemptMemory, a: Attempt, later: seq<Attempt>)
    requires Consistent(m) && m.capacity > 0 && a.id !in m.records
    requires |later| < m.capacity
    requires forall k :: 0 <= k < |later| ==> later[k].id != a.id
    ensures var after := RecordAll(Record(m, a), later);
            && Find(after, a.id, a.digest) == Replay(a)
            && forall d :: d != a.digest ==> Find(after, a.id, d) == Conflict
  {
    RecordShape(m, a);
    var m' := Record(m, a);
    assert m'.order[|m'.order| - 1] == a.id && m'.records[a.id] == a;
    Survives(m', |m'.order| - 1, later);
  }

  /** In a full memory a new attempt displaces exactly the oldest. */
  lemma FullRecord(m: AttemptMemory, a: Attempt)
    requires Consistent(m) && |m.order| == m.capacity > 0 && a.id !in m.records
    ensures var m' := Record(m, a);
            && Consistent(m') && m'.capacity == m.capacity
            && m'.order == m.order[1..] + [a.id]
            && m'.records.Keys == m.records.Keys - {m.order[0]} + {a.id}
            && m.order[0] in m.records
  {
    hide Record;
    RecordShape(m, a);
    assert m.order[0] in Elements(m.order);
    assert (m.order + [a.id])[1..] == m.order[1..] + [a.id];
  }

  /** Every attempt in the sequence is new to the memory when it is recorded. */
  ghost predicate AllNew(m: AttemptMemory, rs: seq<Attempt>)
    decreases |rs|
  {
    rs == [] || (rs[0].id !in m.records && AllNew(Record(m, rs[0]), rs[1..]))
  }

  /** With capacity newer attempts it is forgotten: the bound is exact. */
  lemma {:induction false} ForgottenAfterCapacity(m: AttemptMemory, i: nat, rs: seq<Attempt>)
    requires Consistent(m) && i < |m.order| && |m.order| == m.capacity
    requires |rs| == i + 1 && AllNew(m, rs)
    ensures m.order[i] !in RecordAll(m, rs).records
    decreases |rs|
  {
    hide Record, Listed;
    FullRecord(m, rs[0]);
    if i == 0 {
      assert rs[1..] == [];
    } else {
      ForgottenAfterCapacity(Record(m, rs[0]), i - 1, rs[1..]);
    }
  }
}
