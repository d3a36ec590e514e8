/** Recovery as the runtime performs it: record by record, onto tables updated in place. */
module Loader {
  import opened Arithmetic
  import opened Model
  import opened Records
  import opened Image
  import opened Durability

  class Loader {
    var pools: map<u64, PoolImage>
    var policies: map<u64, Policy>
    var capacities: map<u64, Capacity>
    var allocations: map<u64, Allocation>
    var queues: map<u64, Queue>
    var pressure: map<u64, PressureSnapshot>
    var epoch: u64
    var boot: Boot

    function CoreNow(): Core
      reads this
    {
      Core(pools, policies, capacities, allocations)
    }

    function RestNow(): Rest
      reads this
    {
      Rest(epoch, boot, queues, pressure)
    }

    /** An empty fabric, before anything is loaded. */
    constructor ()
      ensures CoreNow() == Core(map[], map[], map[], map[]) && RestNow() == Rest(0, Boot(0, 0), map[], map[])
    {
      pools, policies, capacities, allocations := map[], map[], map[], map[];
      queues, pressure, epoch, boot := map[], map[], 0, Boot(0, 0);
    }

    /** The switch of apply_journal_payload, after the record is decoded and validated. */
    method Absorb(r: JournalRecord)
      modifies this
      ensures CoreNow() == Apply(old(CoreNow()), r) && RestNow() == ApplyRest(old(RestNow()), r)
    {
      match r
      case EpochAdvance(e, b) =>
        if e > epoch { epoch := e; }
        if b.hi != 0 || b.lo != 0 { boot := b; }
      case PoolUpsert(d, g) => pools := pools[d.id := PoolImage(d, g)];
      case PoolRemoved(p) => pools := pools - {p};
      case PolicyUpsert(policy) => policies := policies[policy.id := policy];
      case QueueUpsert(q) => queues := queues[q.id := q];
      case QueueRetired(id) => if id in queues { queues := queues[id := queues[id].(retired := true)]; }
      case CapacitySet(c) => capacities := capacities[c.resource := c];
      case AllocationUpsert(_, a) => allocations := allocations[a.id := a];
      case PressureObserved(o) => pressure := pressure[o.pool := o];
      case AttemptRecorded(_) =>
      case Checkpoint =>
      case BackendRegistered =>
    }

    /** apply_journal_payload: a malformed or inadmissible record is refused and leaves the
        tables alone. */
    method ApplyPayload(payload: seq<byte>) returns (ok: bool)
      modifies this
      ensures ok == (ParseRecord(payload).Parsed? && Applicable(ParseRecord(payload).record))
      ensures ok ==> CoreNow() == Apply(old(CoreNow()), ParseRecord(payload).record)
      ensures ok ==> RestNow() == ApplyRest(old(RestNow()), ParseRecord(payload).record)
      ensures !ok ==> CoreNow() == old(CoreNow()) && RestNow() == old(RestNow())
    {
      hide ParseRecord, Apply, ApplyRest, Applicable;
      var parsed := ParseRecord(payload);
      if parsed.Malformed? || !Applicable(parsed.record) { return false; }
      Absorb(parsed.record);
      return true;
    }

    /** The replay loop of recovery: every payload in order, stopping at the first refusal. */
    method LoadJournal(payloads: seq<seq<byte>>) returns (ok: bool)
      modifies this
      ensures ok == ReadAll(payloads).Reading?
      ensures ok ==> CoreNow() == Replay(old(CoreNow()), ReadAll(payloads).records)
      ensures ok ==> RestNow() == ReplayRest(old(RestNow()), ReadAll(payloads).records)
    {
      hide ParseRecord, Apply, ApplyRest, Applicable;
      var i := 0;
      assert payloads[0..] == payloads;
      while i < |payloads|
        invariant 0 <= i <= |payloads|
        invariant ReadAll(payloads).Reading? == ReadAll(payloads[i..]).Reading?
        invariant ReadAll(payloads).Reading? ==>
                    && Replay(old(CoreNow()), ReadAll(payloads).records) == Replay(CoreNow(), ReadAll(payloads[i..]).records)
                    && ReplayRest(old(RestNow()), ReadAll(payloads).records) == ReplayRest(RestNow(), ReadAll(payloads[i..]).records)
      {
        ReadStep(payloads, i);
        ok := ApplyPayload(payloads[i]);
        if !ok { return; }
        i := i + 1;
      }
      assert payloads[i..] == [];
      return true;
    }
  }

  lemma ReadStep(payloads: seq<seq<byte>>, i: nat)
    requires i < |payloads|
    ensures ReadAll(payloads[i..]).Reading? ==>
              && ParseRecord(payloads[i]).Parsed? && Applicable(ParseRecord(payloads[i]).record)
              && ReadAll(payloads[i + 1..]).Reading?
              && ReadAll(payloads[i..]).records == [ParseRecord(payloads[i]).record] + ReadAll(payloads[i + 1..]).records
              && ReadAll(payloads[i..]).records[1..] == ReadAll(payloads[i + 1..]).records
    ensures ReadAll(payloads[i..]).Unreadable? ==>
              ParseRecord(payloads[i]).Malformed? || !Applicable(ParseRecord(payloads[i]).record)
              || ReadAll(payloads[i + 1..]).Unreadable?
  {
    hide ParseRecord, Applicable;
    assert payloads[i..][1..] == payloads[i + 1..];
  }
}
