/** Another history that ends in trouble: pools that come and go, one at a time. */
module Turnover {
  import opened Arithmetic
  import opened Model
  import opened Ledger
  import opened Topology
  import opened Invariant
  import opened Steps
  import opened Runs
  import opened Ids
  import opened Storage
  import opened Image
  import opened Crashes
  import opened Mirror
  import opened Recovery
  import opened Sessions
  import opened Restarts
  import opened Durability
  import FullImage

  // ----- A round -----

  /** Evidence about pool k, observed at tick 1. */
  function Seen(k: u64): PressureSnapshot { PressureSnapshot(k, k, 1, 1, Boot(0, 1), 1, 1, 0, 0, 0, 0, false, Digest(0, 0)) }

  /** One round: a pool is registered, observed and removed. */
  function RoundCalls(k: u64): seq<Call> {
    [Call(DoRegisterPool(PoolNamed(0)), 0), Call(DoObserve(Seen(k).(id := 0)), 1), Call(DoRemovePool(k, 0), 1)]
  }

  function RoundRecords(k: u64): seq<JournalRecord> {
    [PoolUpsert(PoolNamed(k), 1), PressureObserved(Seen(k)), PoolRemoved(k)]
  }

  function Watched(k: u64, journal: seq<JournalRecord>): Fabric
    requires k + 1 < TWO64
  {
    var s := Housed(k, journal);
    s.(counters := s.counters.(nextSnapshot := k + 1), pressure := map[k := Seen(k)],
       books := s.books.(journal := s.books.journal + [PressureObserved(Seen(k))]))
  }

  lemma WatchStep(k: u64, journal: seq<JournalRecord>)
    requires 0 < k && k + 1 < TWO64
    ensures ObservePressure(Housed(k, journal), Seen(k).(id := 0), 1).0 == Watched(k, journal)
  {
    AddOverflowIsExact(k, 1);
    assert Observed(Housed(k, journal), Seen(k).(id := 0), 1) == Seen(k);
  }

  lemma VacateStep(k: u64, journal: seq<JournalRecord>)
    requires 0 < k && k + 1 < TWO64
    ensures RemovePool(Watched(k, journal), k, 0).0 == Vacant(k + 1, journal + RoundRecords(k))
  {
    var s := Watched(k, journal);
    assert RemovalGuard(s, k, 0) == OK;
    assert QueuesOn(s.queues, k) == {};
    assert journal + RoundRecords(k)
        == journal + [PoolUpsert(PoolNamed(k), 1)] + [PressureObserved(Seen(k))] + [PoolRemoved(k)];
    assert s.names.pools - {[97]} == map[];
    assert s.books.pools - {k} == map[] && s.pressure - {k} == map[];
  }

  function Rounds(n: nat): seq<Call>
    requires n + 2 < TWO64
  {
    if n == 0 then [] else Rounds(n - 1) + RoundCalls(n)
  }

  function RoundsRecords(n: nat): seq<JournalRecord>
    requires n + 2 < TWO64
  {
    if n == 0 then [] else RoundsRecords(n - 1) + RoundRecords(n)
  }

  lemma OneRound(calls: seq<Call>, k: u64, journal: seq<JournalRecord>)
    requires 0 < k && k + 1 < TWO64
    requires AdmissibleRun(Opened(), calls) && Run(Opened(), calls) == Vacant(k, journal)
    ensures AdmissibleRun(Opened(), calls + RoundCalls(k))
    ensures Run(Opened(), calls + RoundCalls(k)) == Vacant(k + 1, journal + RoundRecords(k))
  {
    hide RegisterPool, ObservePressure, RemovePool, Run, AdmissibleRun, Vacant, Housed, Watched, Opened;
    HouseStep(k, journal);
    WatchStep(k, journal);
    VacateStep(k, journal);
    var c := RoundCalls(k);
    RunOne(Opened(), calls, c[0].op, 0, Housed(k, journal));
    RunOne(Opened(), calls + [c[0]], c[1].op, 1, Watched(k, journal));
    RunOne(Opened(), calls + [c[0]] + [c[1]], c[2].op, 1, Vacant(k + 1, journal + RoundRecords(k)));
    assert calls + [c[0]] + [c[1]] + [c[2]] == calls + c;
  }

  lemma {:induction false} ManyRounds(n: nat)
    requires n + 2 < TWO64
    ensures var calls := SetupCalls() + Rounds(n);
            AdmissibleRun(Opened(), calls) && Run(Opened(), calls) == Vacant(n + 1, SetupRecords() + RoundsRecords(n))
  {
    hide Run, AdmissibleRun, Vacant, Opened, SetupCalls, SetupRecords, RoundCalls, RoundRecords;
    if n == 0 {
      SetupRun();
      assert SetupCalls() + [] == SetupCalls() && SetupRecords() + [] == SetupRecords();
    } else {
      ManyRounds(n - 1);
      OneRound(SetupCalls() + Rounds(n - 1), n, SetupRecords() + RoundsRecords(n - 1));
      assert SetupCalls() + Rounds(n) == SetupCalls() + Rounds(n - 1) + RoundCalls(n);
      assert SetupRecords() + RoundsRecords(n) == SetupRecords() + RoundsRecords(n - 1) + RoundRecords(n);
    }
  }

  // ----- What replay keeps of them -----

  function NothingKnown(): Rest { Rest(0, Boot(0, 0), map[], map[]) }

  /** The evidence of n pools, one each. */
  function Sightings(n: nat): map<u64, PressureSnapshot>
    requires n + 2 < TWO64
  {
    if n == 0 then map[] else Sightings(n - 1)[n := Seen(n)]
  }

  lemma {:induction false} SightingsCount(n: nat)
    requires n + 2 < TWO64
    ensures |Sightings(n)| == n && forall k :: k in Sightings(n) ==> k <= n && Sightings(n)[k].pool == k
  {
    if n > 0 {
      SightingsCount(n - 1);
      GrownCount(Sightings(n - 1), n, Seen(n));
    }
  }

  lemma RoundSeen(c: Rest, k: u64)
    ensures ReplayRest(c, RoundRecords(k)).pressure == c.pressure[k := Seen(k)]
  {
    var one, two, three := PoolUpsert(PoolNamed(k), 1), PressureObserved(Seen(k)), PoolRemoved(k);
    assert [one, two, three] == [one, two] + [three] && [one, two] == [one] + [two];
    ReplayRestAppend(c, [one, two], [three]);
    ReplayRestAppend(c, [one], [two]);
    ReplayRestOne(c, one);
    ReplayRestOne(ReplayRest(c, [one]), two);
    ReplayRestOne(ReplayRest(c, [one, two]), three);
  }

  lemma ReplayRestOne(c: Rest, r: JournalRecord)
    ensures ReplayRest(c, [r]) == ApplyRest(c, r)
  {
    assert [r][1..] == [];
  }

  lemma SetupSeen()
    ensures ReplayRest(NothingKnown(), SetupRecords()) == NothingKnown()
  {
    assert SetupRecords()[1..] == [PolicyUpsert(OnePolicy())] && [PolicyUpsert(OnePolicy())][1..] == [];
  }

  lemma {:induction false} RoundsSeen(n: nat)
    requires n + 2 < TWO64
    ensures ReplayRest(NothingKnown(), SetupRecords() + RoundsRecords(n)).pressure == Sightings(n)
  {
    hide ReplayRest, RoundRecords, SetupRecords;
    if n == 0 {
      SetupSeen();
      assert SetupRecords() + [] == SetupRecords();
    } else {
      var before := SetupRecords() + RoundsRecords(n - 1);
      RoundsSeen(n - 1);
      ReplayRestAppend(NothingKnown(), before, RoundRecords(n));
      RoundSeen(ReplayRest(NothingKnown(), before), n);
      assert SetupRecords() + RoundsRecords(n) == before + RoundRecords(n);
    }
  }

  lemma {:induction false} NoQueues(js: seq<JournalRecord>)
    requires forall i :: 0 <= i < |js| ==> !js[i].QueueUpsert? && !js[i].QueueRetired?
    ensures ReplayQueues(map[], js) == map[]
  {
    if js != [] {
      var front := js[..|js| - 1];
      assert forall i :: 0 <= i < |front| ==> front[i] == js[i];
      NoQueues(front);
    }
  }

  lemma {:induction false} RoundsQueueless(n: nat)
    requires n + 2 < TWO64
    ensures var js := SetupRecords() + RoundsRecords(n);
            forall i :: 0 <= i < |js| ==> !js[i].QueueUpsert? && !js[i].QueueRetired?
  {
    if n > 0 {
      RoundsQueueless(n - 1);
      assert SetupRecords() + RoundsRecords(n) == (SetupRecords() + RoundsRecords(n - 1)) + RoundRecords(n);
    }
  }

  // ----- The recovered fabric -----

  /** After the restart: no pool, and evidence of n of them. */
  function Recalled(n: nat): Fabric
    requires n + 2 < TWO64
  {
    Vacant(n + 1, SetupRecords() + RoundsRecords(n)).(epoch := 2, pressure := Sightings(n))
  }

  function Churned(n: nat): Session
    requires n + 2 < TWO64
  {
    Session(SetupCalls() + Rounds(n), Plainly(SetupRecords() + RoundsRecords(n)), Closed, Recalled(n), 0, 2, Boot(0, 2), false,
            RecordAppended)
  }

  lemma ChurnedFollows(n: nat)
    requires n + 2 < TWO64
    ensures Follows(Opened(), EmptyDisk(), Churned(n)) && RecordsOf(Churned(n).events) == SetupRecords() + RoundsRecords(n)
    ensures Run(Opened(), Churned(n).calls) == Vacant(n + 1, SetupRecords() + RoundsRecords(n))
  {
    hide Run, AdmissibleRun, Opened, RecordsOf, DiskAfter, RemovesLast, Rounds, RoundsRecords, Replay, ReplayQueues, Inv, Reaches;
    hide Sightings, SetupRecords, SetupCalls, ReplayLive, ReplayNext;
    var js := SetupRecords() + RoundsRecords(n);
    ManyRounds(n);
    PlainlyRecords(js);
    PlainlyWrites(EmptyDisk(), LiveOf(Opened()), js);
    OpenedInv();
    EmptyTables();
    assert [] + js == js;
    RunLogged(Opened(), SetupCalls() + Rounds(n), Plainly(js));
    RoundsQueueless(n);
    NoQueues(js);
    VacantTables(n + 1, js);
    VacantLoads(n, Live(Tables(Vacant(n + 1, js)), map[], 1));
  }

  lemma VacantTables(k: u64, journal: seq<JournalRecord>)
    ensures var s := Vacant(k, journal);
            && Tables(s) == Core(map[], map[1 := OnePolicy()], map[1 := OneCapacity()], map[])
            && s.books.nextAllocation == 1 && s.queues == map[] && s.books.journal == journal
            && s.pressure == map[] && s.books.pools == map[]
  {
    assert PoolsImage(Vacant(k, journal).books.pools) == map[];
  }

  lemma VacantLoads(n: nat, l: Live)
    requires n + 2 < TWO64 && l == Live(Core(map[], map[1 := OnePolicy()], map[1 := OneCapacity()], map[]), map[], 1)
    ensures Loaded(l, 0, Recalled(n))
  {
    hide Sightings, RoundsRecords;
    assert PoolsImage(Recalled(n).books.pools) == map[];
    assert LapseAll(map[], 0) == map[];
  }

  lemma RecalledSavable(n: nat)
    requires n + 2 < TWO64
    ensures Savable(Recalled(n)) && |Recalled(n).pressure| == n
  {
    hide Sightings, RoundsRecords;
    SightingsCount(n);
  }

  lemma RecalledCounts(n: nat)
    requires n + 2 < TWO32
    ensures FullImage.Countable(ImageNow(Recalled(n))) && |ImageNow(Recalled(n)).pressure| == n
  {
    hide Sightings, RoundsRecords;
    SightingsCount(n);
    assert PoolsImage(Recalled(n).books.pools) == map[];
    assert |map[1 := OnePolicy()]| == 1 && |map[1 := OneCapacity()]| == 1;
  }

  /** A history from an empty directory that ends with a snapshot no open accepts. One session
      registers, observes and removes n pools in turn, never more than one at a time, and is
      closed in good order. Its live tables are empty, but replay keeps the evidence of every
      removed pool. If n exceeds what is accepted on reading, nothing refuses to write the
      snapshot of the recovered fabric, and reading it back is refused. */
  lemma EvidenceOutgrows(n: nat) returns (x: Session)
    requires MAX_SNAPSHOTS < n && n + 2 < TWO32
    ensures x.stop.Closed? && Follows(Opened(), EmptyDisk(), x) && Inv(x.loaded) && Savable(x.loaded)
    ensures Run(Opened(), x.calls).pressure == map[] && Run(Opened(), x.calls).books.pools == map[]
    ensures x.loaded.pressure == ReplayRest(NothingKnown(), RecordsOf(x.events)).pressure && |x.loaded.pressure| == n
    ensures forall o :: FullImage.Listed(ImageNow(x.loaded), o) ==>
              FullImage.DecodeImage(FullImage.EncodeImage(ImageNow(x.loaded), o)) == FullImage.Corrupt
  {
    hide Run, Opened, Follows, ResumesSession, Inv, Stands, NextDisk, Sightings, Rounds, RoundsRecords, RecordsOf, ReplayRest, Savable;
    hide FullImage.Listed, FullImage.DecodeImage, FullImage.EncodeImage, FullImage.Sound, FullImage.Countable, ImageNow;
    x := Churned(n);
    ChurnedFollows(n);
    OpenedInv();
    OpenedStands();
    SessionResumes(Opened(), EmptyDisk(), 0, x);
    RecalledSavable(n);
    RoundsSeen(n);
    RecalledCounts(n);
    ImageSound(x.loaded);
    VacantTables(n + 1, SetupRecords() + RoundsRecords(n));
    forall o | FullImage.Listed(ImageNow(x.loaded), o)
      ensures FullImage.DecodeImage(FullImage.EncodeImage(ImageNow(x.loaded), o)) == FullImage.Corrupt
    {
      FullImage.ImageRoundTrip(ImageNow(x.loaded), o);
    }
  }
}
