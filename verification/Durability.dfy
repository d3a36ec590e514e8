/** End to end: what a run journals as bytes is what recovery replays, and an interrupted
    append costs at most the record being appended. */
module Durability {
  import opened Arithmetic
  import opened Model
  import opened Ledger
  import opened Invariant
  import opened Steps
  import opened Runs
  import opened Codec
  import opened Records
  import opened Crc32c
  import opened Frames
  import opened JournalFile
  import opened Image
  import opened Crashes
  import opened Mirror
  import opened Recovery
  import opened Storage
  import opened SnapshotFile
  import Attempts
  import Aggregates
  import FullImage

  // ----- Every record fits its frame -----

  /** A field takes at most 4 + MAX_NAME bytes. */
  predicate Modest(kinds: seq<Kind>) { forall i :: 0 <= i < |kinds| && kinds[i].KText? ==> kinds[i].max <= MAX_NAME }

  lemma {:induction false} EncodeBound(atoms: seq<Atom>, kinds: seq<Kind>)
    requires AllFit(atoms, kinds) && Modest(kinds)
    ensures |Encode(atoms)| <= (MAX_NAME + 4) * |atoms|
    decreases |atoms|
  {
    if atoms != [] {
      assert Codec.Fits(atoms[0], kinds[0]);
      assert AllFit(atoms[1..], kinds[1..]) && Modest(kinds[1..]);
      EncodeBound(atoms[1..], kinds[1..]);
      assert |Put(atoms[0])| <= MAX_NAME + 4;
    }
  }

  lemma AllocationBound(r: Allocation)
    ensures |EncodeAllocation(r)| <= 1000 * (MAX_NAME + 4)
  {
    hide Encode;
    HeadFits(r);
    LineageInverse(r.lineage);
    BoundInverse(r.bound);
    EncodeBound(HeadAtoms(r), HeadKinds());
    EncodeBound(LineageAtoms(r.lineage), LineageKinds());
    EncodeBound(BoundAtoms(r.bound), BoundKinds());
    EncodeBound(TailAtoms(r), TailKinds());
  }

  lemma PolicyBound(p: Policy)
    requires |p.name| <= MAX_NAME
    ensures |EncodePolicy(p)| <= 1000 * (MAX_NAME + 4)
  {
    hide Encode;
    PolicyFits(p);
    EncodeBound(PolicyHead(p), PolicyHeadKinds());
    EncodeBound(PolicyPressure(p), PolicyPressureKinds());
    EncodeBound(PolicyTail(p), PolicyTailKinds());
  }

  lemma NumbersBound(vs: seq<u64>)
    requires |vs| <= 10
    ensures |Encode(Numbers(vs))| <= 10 * (MAX_NAME + 4)
  {
    hide Encode;
    EncodeBound(Numbers(vs), NumberKinds(|vs|));
  }

  lemma PoolBound(d: PoolDescriptor)
    requires |d.name| <= MAX_NAME
    ensures |EncodePool(d)| <= 1000 * (MAX_NAME + 4)
  {
    hide Encode;
    PoolInverse(d);
    EncodeBound(PoolAtoms(d), PoolKinds());
  }

  lemma QueueBound(q: Queue)
    requires |q.name| <= MAX_NAME
    ensures |EncodeQueue(q)| <= 1000 * (MAX_NAME + 4)
  {
    hide Encode;
    QueueInverse(q);
    EncodeBound(QueueAtoms(q), QueueKinds());
  }

  lemma CapacityBound(c: Capacity)
    ensures |EncodeCapacity(c)| <= 1000 * (MAX_NAME + 4)
  {
    hide Encode;
    CapacityInverse(c);
    EncodeBound(CapacityAtoms(c), NumberKinds(5));
  }

  lemma EvidenceBound(o: PressureSnapshot)
    ensures |EncodeEvidence(o)| <= 1000 * (MAX_NAME + 4)
  {
    hide Encode;
    EvidenceInverse(o);
    EncodeBound(EvidenceAtoms(o), EvidenceKinds());
  }

  lemma AttemptBound(t: Attempt)
    ensures |EncodeAttempt(t)| <= 1000 * (MAX_NAME + 4)
  {
    hide Encode;
    AttemptInverse(t);
    EncodeBound(AttemptAtoms(t), AttemptKinds());
  }

  lemma RecordSmall(r: JournalRecord)
    requires Encodable(r)
    ensures |EncodeRecord(r)| <= MAX_RECORD
  {
    hide Encode, EncodeAllocation, EncodePolicy, EncodePool, EncodeQueue, EncodeCapacity, EncodeEvidence, EncodeAttempt, Numbers;
    match r
    case EpochAdvance(epoch, boot) => NumbersBound([epoch, boot.hi, boot.lo]);
    case PoolRemoved(p) => NumbersBound([p]);
    case QueueRetired(q) => NumbersBound([q]);
    case PolicyUpsert(policy) => PolicyBound(policy);
    case AllocationUpsert(_, a) => AllocationBound(a);
    case PoolUpsert(d, g) =>
      PoolBound(d);
      NumbersBound([g]);
    case QueueUpsert(q) => QueueBound(q);
    case CapacitySet(c) => CapacityBound(c);
    case PressureObserved(o) => EvidenceBound(o);
    case AttemptRecorded(t) => AttemptBound(t);
    case Checkpoint =>
    case BackendRegistered =>
  }

  // ----- Records to bytes and back -----

  function Payloads(js: seq<JournalRecord>): seq<seq<byte>> { seq(|js|, i requires 0 <= i < |js| => EncodeRecord(js[i])) }

  /** Recovery reads each payload in turn and refuses the journal at the first malformed or
      inadmissible one. */
  datatype Reading = Unreadable | Reading(records: seq<JournalRecord>)

  function ReadAll(ps: seq<seq<byte>>): Reading {
    if ps == [] then Reading([])
    else
      match ParseRecord(ps[0])
      case Malformed => Unreadable
      case Parsed(r) =>
        if !Applicable(r) then Unreadable
        else
          match ReadAll(ps[1..])
          case Unreadable => Unreadable
          case Reading(rs) => Reading([r] + rs)
  }

  /** Records that encode and that recovery accepts. */
  ghost predicate Readable(js: seq<JournalRecord>) {
    forall i :: 0 <= i < |js| ==> Encodable(js[i]) && Applicable(js[i])
  }

  lemma SaneEncodable(r: JournalRecord, epoch: u64)
    requires Sane(r, epoch)
    ensures Encodable(r) && Applicable(r)
  {
  }

  lemma {:induction false} ReadBack(js: seq<JournalRecord>)
    requires Readable(js)
    ensures AllSmall(Payloads(js)) && ReadAll(Payloads(js)) == Reading(js)
    decreases |js|
  {
    hide EncodeRecord, ParseRecord, Applicable, Encodable;
    forall i | 0 <= i < |js| ensures |Payloads(js)[i]| <= MAX_RECORD { RecordSmall(js[i]); }
    if js != [] {
      RecordRoundTrip(js[0]);
      assert Payloads(js)[1..] == Payloads(js[1..]);
      ReadBack(js[1..]);
      assert js == [js[0]] + js[1..];
    }
  }

  /** The journal file of a disk. */
  function JournalBytes(d: Disk): seq<byte> { FrameAll(Payloads(d.journal)) }

  /** Recovery reads the whole journal file back, unless it exceeds the bound. */
  lemma BytesRecover(d: Disk, config: StoreConfig)
    requires Readable(d.journal)
    ensures var file := JournalBytes(d);
            && RecoverJournal(file, config)
               == (if |file| > config.maxBytes then Recovered.Refused(OVERSIZED) else Recovered(Payloads(d.journal), file))
            && ReadAll(Payloads(d.journal)) == Reading(d.journal)
  {
    hide FrameAll, Scan, Payloads, ReadAll;
    ReadBack(d.journal);
    ScanAll(Payloads(d.journal));
  }

  lemma CrashReadable(d: Disk, l: Live, e: Event, at: CrashPoint)
    requires Readable(d.journal) && (e.Journaled? ==> Encodable(e.record) && Applicable(e.record))
    ensures Readable(Crash(d, l, e, at).journal)
  {
    hide Encodable, Applicable, ApplyLive;
  }

  ghost predicate AllReadable(es: seq<Event>) {
    forall i :: 0 <= i < |es| && es[i].Journaled? ==> Encodable(es[i].record) && Applicable(es[i].record)
  }

  lemma {:induction false} SessionReadable(d: Disk, l: Live, es: seq<Event>)
    requires Readable(d.journal) && AllReadable(es)
    ensures Readable(DiskAfter(d, l, es).journal)
  {
    hide Encodable, Applicable, Crash, Readable;
    if es != [] {
      var front := es[..|es| - 1];
      assert forall i :: 0 <= i < |front| ==> front[i] == es[i];
      SessionReadable(d, l, front);
      CrashReadable(DiskAfter(d, l, front), LiveAfter(l, front), es[|es| - 1], RecordAppended);
    }
  }

  lemma StoppedReadable(d: Disk, l: Live, es: seq<Event>, i: nat, at: CrashPoint)
    requires Readable(d.journal) && AllReadable(es) && i < |es|
    ensures Readable(Stopped(d, l, es, i, at).journal)
  {
    hide Encodable, Applicable, Crash, Readable;
    assert forall k :: 0 <= k < i ==> es[..i][k] == es[k];
    SessionReadable(d, l, es[..i]);
    CrashReadable(DiskAfter(d, l, es[..i]), LiveAfter(l, es[..i]), es[i], at);
  }

  lemma RunReadable(s: Fabric, s': Fabric, es: seq<Event>)
    requires Logged(s, s', RecordsOf(es))
    ensures AllReadable(es)
  {
    hide Encodable, Applicable, Sane;
    forall i | 0 <= i < |es| && es[i].Journaled? ensures Encodable(es[i].record) && Applicable(es[i].record) {
      var k := RecordIndex(es, i);
      SaneEncodable(RecordsOf(es)[k], s.epoch);
    }
  }

  /** And if the append of one more record is cut short after k bytes, recovery either gives
      exactly the records before it or refuses; within the bound it refuses only if those k
      bytes contain what looks like an intact frame. */
  lemma InterruptedAppend(js: seq<JournalRecord>, r: JournalRecord, k: nat, max: nat)
    requires Readable(js) && Encodable(r) && 0 < k < |JFrame(EncodeRecord(r))|
    ensures var kept := FrameAll(Payloads(js));
            var file := kept + JFrame(EncodeRecord(r))[..k];
            && RecoverJournal(file, Defaults(max))
               == (if |file| > max then Recovered.Refused(OVERSIZED)
                   else if IntactAfter(file, |kept|) then Recovered.Refused(CORRUPT_RECORD) else Recovered(Payloads(js), kept))
            && ReadAll(Payloads(js)) == Reading(js)
  {
    hide FrameAll, Scan, Payloads, ReadAll, JFrame, EncodeRecord, IntactAfter, RecoverJournal, Readable;
    ReadBack(js);
    RecordSmall(r);
    TornAppendTheorem(Payloads(js), EncodeRecord(r), k, max);
  }

  // ----- Snapshots of the live fabric -----

  /** The image write_full_snapshot takes of a live fabric. */
  function ImageNow(s: Fabric): FullImage.FullImage {
    FullImage.FullImage(
      s.epoch, s.boot,
      [s.counters.nextPool, s.counters.nextQueue, s.books.nextAllocation, s.counters.nextPolicy, s.counters.nextSnapshot,
       s.counters.nextDecision, 1],
      s.policies, PoolsImage(s.books.pools), s.queues, s.books.allocations, s.pressure, s.attempts.records, s.capacities)
  }

  lemma EvidenceCount(s: Fabric)
    requires Storable(s)
    ensures |s.pressure| <= MAX_SNAPSHOTS
  {
    hide TablesFit, Attempts.Consistent;
    assert |s.books.pools| <= MAX_POOLS by { PoolCount(s); }
    SubsetCount(s.pressure.Keys, s.books.pools.Keys);
    assert |s.pressure| == |s.pressure.Keys| && |s.books.pools| == |s.books.pools.Keys|;
  }

  lemma PoolCount(s: Fabric)
    requires TablesFit(s)
    ensures |s.books.pools| <= MAX_POOLS
  {
  }

  lemma {:induction false} SubsetCount(a: set<u64>, b: set<u64>)
    requires a <= b
    ensures |a| <= |b|
  {
    assert b == a + (b - a);
  }

  lemma StorableCounts(s: Fabric)
    requires Storable(s)
    ensures |s.policies| <= MAX_POLICIES && |PoolsImage(s.books.pools)| <= MAX_POOLS && |s.queues| <= MAX_QUEUES
    ensures |s.books.allocations| <= MAX_ALLOCATIONS && |s.attempts.records| <= MAX_ATTEMPTS
  {
    hide EvidenceFits;
    assert PoolsImage(s.books.pools).Keys == s.books.pools.Keys;
    assert |PoolsImage(s.books.pools)| == |PoolsImage(s.books.pools).Keys| && |s.books.pools.Keys| == |s.books.pools|;
  }

  /** From a storable fabric only the capacities can exceed their bound. */
  lemma StorableBounded(s: Fabric)
    requires Storable(s)
    ensures FullImage.Bounded(ImageNow(s)) <==> |s.capacities| <= MAX_POOLS
  {
    hide Storable, PoolsImage;
    EvidenceCount(s);
    StorableCounts(s);
  }

  lemma ImageSound(s: Fabric)
    requires Inv(s) && Savable(s)
    ensures FullImage.Sound(ImageNow(s))
  {
    hide Aggregates.Agrees, Forest, Indexed, InRange, HolderOk, Policy.Valid, PoolDescriptor.Validate;
    forall p | p in PoolsImage(s.books.pools)
      ensures PoolsImage(s.books.pools)[p].descriptor.id == p && PoolsImage(s.books.pools)[p].descriptor.Validate() == OK
    {
      assert PoolOk(s.books.pools[p], p);
    }
  }

  /** The fabric with its counters as a restart restores them. */
  function Renumbered(s: Fabric): Fabric {
    s.(counters := Counters(OneIfZero(s.counters.nextPool), OneIfZero(s.counters.nextQueue), OneIfZero(s.counters.nextPolicy),
                            OneIfZero(s.counters.nextSnapshot), OneIfZero(s.counters.nextDecision)),
       books := s.books.(nextAllocation := OneIfZero(s.books.nextAllocation)))
  }

  lemma RenumberedImage(s: Fabric)
    ensures FullImage.Revived(ImageNow(s)) == ImageNow(Renumbered(s))
  {
    hide PoolsImage;
    assert FullImage.Revived(ImageNow(s)).counters == ImageNow(Renumbered(s)).counters;
  }

  /** Where no counter has wrapped, as in every storable fabric but for the decision counter,
      nothing is renumbered. */
  lemma RenumberedSame(s: Fabric)
    requires Storable(s)
    ensures Renumbered(s) == s.(counters := s.counters.(nextDecision := OneIfZero(s.counters.nextDecision)))
  {
    hide TablesKeyed, EvidenceFits, Attempts.Consistent;
  }

  function LiveIn(img: FullImage.FullImage): Live
    requires |img.counters| == FullImage.COUNTERS
  {
    Live(Core(img.pools, img.policies, img.capacities, img.allocations), img.queues, img.counters[2])
  }

  /** One snapshot of a fabric with sound tables, written and read back within the file
      bound: it restores every table and counter if and only if every count is within the
      bound enforced on reading, which writing does not check. */
  lemma SnapshotRestoresIff(s: Fabric, o: FullImage.Orders, h: SnapshotHeader, max: nat)
    requires Inv(s) && Savable(s) && FullImage.Listed(ImageNow(s), o) && max < TWO32
    requires |FullImage.EncodeImage(ImageNow(s), o)| + HEAD + TRAILER <= max
    ensures var payload := FullImage.EncodeImage(ImageNow(s), o);
            var written := WriteSnapshot(h, payload, max);
            && written.Opened? && ReadSnapshot(written.payload, max) == Opened(h, payload)
            && FullImage.DecodeImage(payload)
               == (if FullImage.Bounded(ImageNow(s)) then FullImage.Restored(ImageNow(Renumbered(s))) else FullImage.Corrupt)
    ensures LiveIn(ImageNow(Renumbered(s))) == Live(Tables(s), s.queues, OneIfZero(s.books.nextAllocation))
  {
    hide FullImage.EncodeImage, FullImage.DecodeImage, ReadSnapshot, WriteSnapshot, Inv, Savable;
    hide FullImage.Listed, FullImage.Sound, FullImage.Bounded, FullImage.Countable;
    ImageSound(s);
    FullImage.PayloadCounts(ImageNow(s), o);
    RenumberedImage(s);
    FullImage.ImageRoundTrip(ImageNow(s), o);
    SnapshotReadableIff(h, FullImage.EncodeImage(ImageNow(s), o), max);
  }

  /** Snapshots of a running fabric, recovered or new. Whatever run led to it, its snapshot
      restores it exactly if the counts are within bounds. From a storable fabric, in
      particular a new one, that is so unless more capacities were published than reading
      allows, and only a decision counter that wrapped to zero comes back as one. */
  lemma LiveSnapshotRestores(s0: Fabric, calls: seq<Call>, o: FullImage.Orders, h: SnapshotHeader, max: nat)
    requires Inv(s0) && AdmissibleRun(s0, calls) && Savable(s0)
    requires FullImage.Listed(ImageNow(Run(s0, calls)), o) && max < TWO32
    requires |FullImage.EncodeImage(ImageNow(Run(s0, calls)), o)| + HEAD + TRAILER <= max
    ensures var s := Run(s0, calls);
            var payload := FullImage.EncodeImage(ImageNow(s), o);
            var written := WriteSnapshot(h, payload, max);
            && written.Opened? && ReadSnapshot(written.payload, max) == Opened(h, payload)
            && FullImage.DecodeImage(payload)
               == (if FullImage.Bounded(ImageNow(s)) then FullImage.Restored(ImageNow(Renumbered(s))) else FullImage.Corrupt)
            && LiveIn(ImageNow(Renumbered(s))) == Live(Tables(s), s.queues, OneIfZero(s.books.nextAllocation))
    ensures var s := Run(s0, calls);
            Storable(s0) ==>
              && (FullImage.Bounded(ImageNow(s)) <==> |s.capacities| <= MAX_POOLS)
              && Renumbered(s) == s.(counters := s.counters.(nextDecision := OneIfZero(s.counters.nextDecision)))
  {
    hide FullImage.EncodeImage, FullImage.DecodeImage, ReadSnapshot, WriteSnapshot, Inv, Savable, Storable, Run, AdmissibleRun;
    hide FullImage.Listed, FullImage.Bounded, Renumbered, LiveIn;
    var s := Run(s0, calls);
    SavableTheorem(s0, calls);
    SnapshotRestoresIff(s, o, h, max);
    if Storable(s0) {
      StorageTheorem(s0, calls);
      StorableBounded(s);
      RenumberedSame(s);
    }
  }

  /** Replay stores evidence under the pool it is of. */
  lemma {:induction false} ReplayEvidenceKeyed(c: Rest, js: seq<JournalRecord>)
    requires forall p :: p in c.pressure ==> c.pressure[p].pool == p
    ensures forall p :: p in ReplayRest(c, js).pressure ==> ReplayRest(c, js).pressure[p].pool == p
    decreases |js|
  {
    if js != [] { ReplayEvidenceKeyed(ApplyRest(c, js[0]), js[1..]); }
  }

  /** A fabric loaded from such a disk is savable again, so runs from it are covered. */
  lemma LoadedSavable(m: Fabric, l: Live, s': Fabric, stamp: u64, stamp': u64)
    requires TablesKeyed(m) && UpToLapse(l.core, Tables(m), stamp) && Loaded(l, stamp', s')
    requires EvidenceKeyed(s') && MemoryKeyed(s'.attempts)
    ensures Savable(s')
  {
    hide PoolsImage, Countable, Rebuilt, UpToLapse;
    SameOtherTables(l.core, Tables(m), stamp);
    forall id | id in s'.books.allocations ensures s'.books.allocations[id].units <= MAX_UNITS {
      LoadedUnits(l.core, Tables(m), stamp, stamp', id);
    }
  }

  lemma LoadedUnits(core: Core, live: Core, stamp: u64, stamp': u64, id: u64)
    requires UpToLapse(core, live, stamp) && id in core.allocations
    ensures id in live.allocations && LapseAll(core.allocations, stamp')[id].units == live.allocations[id].units
  {
    assert SameUpToLapse(At(core, AllocationKey(id)), At(live, AllocationKey(id)), stamp);
  }

  /** The snapshot of a fabric just loaded: pools, policies and allocations are those of the
      ledger it resumes, so what may be out of bounds are the tables that replay never
      shrinks, queues and evidence, and the two that nothing bounds on writing. */
  lemma LoadedBoundedIff(m: Fabric, l: Live, s': Fabric, stamp: u64, stamp': u64)
    requires Inv(m) && TablesCounted(m) && UpToLapse(l.core, Tables(m), stamp) && Loaded(l, stamp', s')
    ensures FullImage.Bounded(ImageNow(s'))
       <==> |s'.queues| <= MAX_QUEUES && |s'.pressure| <= MAX_SNAPSHOTS
            && |s'.attempts.records| <= MAX_ATTEMPTS && |s'.capacities| <= MAX_POOLS
  {
    hide Inv, UpToLapse, Loaded, Rebuilt, LoadsAs, PoolsImage;
    LoadedTables(m, s', l, stamp, stamp');
    ImageKeys(s');
    assert |s'.books.pools| == |s'.books.pools.Keys| && |m.books.pools| == |m.books.pools.Keys|;
    assert |s'.books.allocations| == |s'.books.allocations.Keys| && |m.books.allocations| == |m.books.allocations.Keys|;
  }

  lemma ImageKeys(s: Fabric)
    ensures |PoolsImage(s.books.pools)| == |s.books.pools|
  {
    assert PoolsImage(s.books.pools).Keys == s.books.pools.Keys;
    assert |PoolsImage(s.books.pools)| == |PoolsImage(s.books.pools).Keys| && |s.books.pools.Keys| == |s.books.pools|;
  }

  // ----- Both files, end to end -----

  datatype ImageFile = Missing | Written(bytes: seq<byte>)

  datatype DiskRead = Refuses | Reads(disk: Disk)

  /** DurableStore::recover: the snapshot, if there is one, then the journal. */
  function ReadDisk(snapshot: ImageFile, journal: seq<byte>, max: nat, config: StoreConfig): DiskRead {
    var image := if snapshot.Missing? then Reads(EmptyDisk()) else ReadImage(snapshot.bytes, max);
    if image.Refuses? then Refuses
    else
      match RecoverJournal(journal, config)
      case Refused(_) => Refuses
      case Recovered(payloads, _) =>
        match ReadAll(payloads)
        case Unreadable => Refuses
        case Reading(records) => Reads(Disk(image.disk.snapshot, records))
  }

  function ReadImage(bytes: seq<byte>, max: nat): DiskRead {
    match ReadSnapshot(bytes, max)
    case Unusable(_) => Refuses
    case Opened(_, payload) =>
      match FullImage.DecodeImage(payload)
      case Corrupt => Refuses
      case Restored(img) => Reads(Disk(LiveIn(img), []))
  }

  /** The snapshot file holds what write_full_snapshot wrote of a fabric with these live
      tables; without one the fabric was new. */
  ghost predicate Holds(snapshot: ImageFile, l: Live, max: nat) {
    match snapshot
    case Missing => l == EmptyDisk().snapshot
    case Written(bytes) =>
      exists m: Fabric, o: FullImage.Orders, h: SnapshotHeader :: IsImage(m, o, l, max)
        && WriteSnapshot(h, FullImage.EncodeImage(ImageNow(m), o), max) == Opened(h, bytes)
  }

  /** An image of a fabric with these live tables, within the bounds of reading. */
  ghost predicate IsImage(m: Fabric, o: FullImage.Orders, l: Live, max: nat) {
    && Inv(m) && Savable(m) && LiveOf(m) == l && FullImage.Listed(ImageNow(m), o) && FullImage.Bounded(ImageNow(m))
    && |FullImage.EncodeImage(ImageNow(m), o)| + HEAD + TRAILER <= max < TWO32
  }

  lemma ImageReads(snapshot: ImageFile, l: Live, max: nat)
    requires Holds(snapshot, l, max) && snapshot.Written?
    ensures ReadImage(snapshot.bytes, max) == Reads(Disk(l.(next := OneIfZero(l.next)), []))
  {
    hide FullImage.EncodeImage, FullImage.DecodeImage, FullImage.Listed, FullImage.Bounded, ReadSnapshot, WriteSnapshot, Inv, Savable;
    hide LiveIn, ImageNow;
    var m, o, h :| IsImage(m, o, l, max) && WriteSnapshot(h, FullImage.EncodeImage(ImageNow(m), o), max) == Opened(h, snapshot.bytes);
    SnapshotRestoresIff(m, o, h, max);
  }

  /** The two files read back: refused if the journal exceeds its bound, and otherwise what
      recovery is given is what the disk holds. */
  ghost predicate Readback(snapshot: ImageFile, d: Disk, max: nat, config: StoreConfig) {
    var read := ReadDisk(snapshot, JournalBytes(d), max, config);
    if |JournalBytes(d)| > config.maxBytes then read == Refuses
    else read.Reads? && FromDisk(read.disk) == FromDisk(d) && read.disk.journal == d.journal
  }

  /** Both files read back give what recovery replays, unless the journal is too large. */
  lemma FilesRead(snapshot: ImageFile, d: Disk, max: nat, config: StoreConfig)
    requires Holds(snapshot, d.snapshot, max) && Readable(d.journal)
    ensures Readback(snapshot, d, max, config)
  {
    hide JournalBytes, RecoverJournal, Payloads, ReadAll, ReadImage, Holds, Readable, Replay, ReplayQueues;
    BytesRecover(d, config);
    if snapshot.Written? {
      ImageReads(snapshot, d.snapshot, max);
    } else {
      MissingIsEmpty(snapshot, d.snapshot, max);
    }
  }

  lemma MissingIsEmpty(snapshot: ImageFile, l: Live, max: nat)
    requires Holds(snapshot, l, max) && snapshot.Missing?
    ensures l == EmptyDisk().snapshot
  {
  }

  /** End to end. Whatever run a session makes, however it interleaves its records with
      compactions and checkpoints, and wherever it stops: from the bytes of the two files left
      on disk recovery reads the snapshot's tables and counter and every record of the
      journal, nothing damaged and nothing refused (only a bound lowered since can refuse
      them), and what it then loads resumes a ledger of the run, the one before the
      interrupted event or the one after it. The next session starts from a disk that stands
      for its own live tables, so the same holds of every later crash. */
  lemma DurabilityTheorem(s: Fabric, calls: seq<Call>, d: Disk, stamp: u64, es: seq<Event>, i: nat, at: CrashPoint,
                          snapshot: ImageFile, max: nat, config: StoreConfig, s': Fabric, stamp': u64) returns (m: Fabric)
    requires SessionOf(s, calls, d, stamp, es) && i < |es| && Readable(d.journal)
    requires Holds(snapshot, Stopped(d, LiveOf(s), es, i, at).snapshot, max)
    requires Loaded(FromDisk(Stopped(d, LiveOf(s), es, i, at)), stamp', s')
    ensures var d' := Stopped(d, LiveOf(s), es, i, at);
            Readback(snapshot, d', max, config) && Stands(d', LiveOf(s'), stamp') && Readable(d'.journal)
    ensures Inv(m) && Resumes(m, s')
    ensures || Tables(m) == Replay(Tables(s), RecordsOf(es[..i]))
            || Tables(m) == Replay(Tables(s), RecordsOf(es[..i + 1]))
  {
    hide Inv, Stands, Stopped, Run, AdmissibleRun, Resumes, Loaded, FromDisk, Tables, Replay, RecordsOf;
    hide Logged, RemovesLast, Readable, RecoverJournal, JournalBytes, Reaches, AllReadable, Holds, Readback, IdsFresh, Numbered;
    m := CrashTheorem(s, calls, d, stamp, es, i, at, s', stamp');
    RunLogged(s, calls, es);
    RunReadable(s, Run(s, calls), es);
    StoppedReadable(d, LiveOf(s), es, i, at);
    FilesRead(snapshot, Stopped(d, LiveOf(s), es, i, at), max, config);
  }

  // ----- A record that looks like a frame -----

  /** Sixteen bytes: the magic number, version 1, length 0, and the checksum of nothing. */
  function EmptyFrame(): seq<byte> { Le(0x1_4246_4A31, 8) + Le(0, 8) }

  lemma EmptyFrameFields()
    ensures |EmptyFrame()| == HEADER && U32At(EmptyFrame(), 0) == MAGIC && U32At(EmptyFrame(), 4) == VERSION
    ensures U32At(EmptyFrame(), 8) == 0 && U32At(EmptyFrame(), 12) == 0
  {
    hide Le, FromLe;
    SplitEight(0x1_4246_4A31, 0x4246_4A31, 1);
    SplitEight(0, 0, 0);
    U32Of([], 0x4246_4A31, Le(1, 4) + Le(0, 8));
    assert EmptyFrame() == [] + Le(0x4246_4A31, 4) + (Le(1, 4) + Le(0, 8));
    U32Of(Le(0x4246_4A31, 4), 1, Le(0, 8));
    assert EmptyFrame() == Le(0x4246_4A31, 4) + Le(1, 4) + Le(0, 8);
    U32Of(Le(0x4246_4A31, 4) + Le(1, 4), 0, Le(0, 4));
    assert EmptyFrame() == (Le(0x4246_4A31, 4) + Le(1, 4)) + Le(0, 4) + Le(0, 4);
    U32Of(Le(0x4246_4A31, 4) + Le(1, 4) + Le(0, 4), 0, []);
    assert EmptyFrame() == (Le(0x4246_4A31, 4) + Le(1, 4) + Le(0, 4)) + Le(0, 4) + [];
  }

  /** Eight bytes are the low four, then the high four. */
  lemma SplitEight(v: u64, low: u32, high: u32)
    requires v == low + TWO32 * high
    ensures Le(v, 8) == Le(low, 4) + Le(high, 4)
  {
    SplitLe(low, high, 4, 4);
    Powers();
  }

  lemma {:induction false} SplitLe(low: nat, high: nat, n: nat, m: nat)
    requires low < Power(n)
    ensures Le(low + Power(n) * high, n + m) == Le(low, n) + Le(high, m)
    decreases n
  {
    if n > 0 {
      var v := low + Power(n) * high;
      SplitByte(low, high, n);
      SplitLe(low / 256, high, n - 1, m);
    }
  }

  lemma SplitByte(low: nat, high: nat, n: nat)
    requires n > 0
    ensures (low + Power(n) * high) % 256 == low % 256
    ensures (low + Power(n) * high) / 256 == low / 256 + Power(n - 1) * high
  {
    var k := Power(n - 1) * high;
    assert Power(n) * high == 256 * k;
  }

  /** Where in its frame an allocation record carries its tenant and traffic class. */
  const TENANT: nat := 41

  lemma {:induction false} NumbersLength(vs: seq<u64>)
    ensures |Encode(Numbers(vs))| == 8 * |vs|
    decreases |vs|
  {
    if vs != [] {
      assert Numbers(vs)[1..] == Numbers(vs[1..]);
      NumbersLength(vs[1..]);
    }
  }

  lemma TwoNumbers(d: u64, e: u64)
    ensures Encode([N(d), N(e)]) == Le(d, 8) + Le(e, 8)
  {
    hide Le;
    assert [N(d), N(e)][1..] == [N(e)] && [N(e)][1..] == [];
    assert Encode([N(e)]) == Le(e, 8) + Encode([]);
  }

  /** The leading fields of an allocation: three numbers, the tenant and class, the rest. */
  lemma HeadLayout(r: Allocation) returns (rest: seq<byte>)
    ensures Encode(HeadAtoms(r))
         == Encode(Numbers([r.id, r.pool, r.queue])) + (Le(r.tenant, 8) + Le(r.trafficClass, 8) + rest)
  {
    hide Encode, Le;
    var a := HeadAtoms(r);
    var first, second := Numbers([r.id, r.pool, r.queue]), [N(r.tenant), N(r.trafficClass)];
    rest := Encode(a[5..]);
    assert a == first + (second + a[5..]);
    EncodeConcat(first, second + a[5..]);
    EncodeConcat(second, a[5..]);
    TwoNumbers(r.tenant, r.trafficClass);
  }

  lemma TenantBytes(op: AllocationOp, r: Allocation)
    ensures var frame := JFrame(EncodeRecord(AllocationUpsert(op, r)));
            |frame| >= TENANT + 16 && frame[TENANT..TENANT + 16] == Le(r.tenant, 8) + Le(r.trafficClass, 8)
  {
    hide Le, Encode, HeadAtoms, LineageAtoms, BoundAtoms, TailAtoms, Numbers, Header, Checksum;
    var header := Header(EncodeRecord(AllocationUpsert(op, r)), MAGIC, VERSION);
    var three, pair := Encode(Numbers([r.id, r.pool, r.queue])), Le(r.tenant, 8) + Le(r.trafficClass, 8);
    var rest := HeadLayout(r);
    NumbersLength([r.id, r.pool, r.queue]);
    var tail := rest + Encode(LineageAtoms(r.lineage)) + Encode(BoundAtoms(r.bound)) + Encode(TailAtoms(r));
    var front := header + [OpNumber(op)] + three;
    assert EncodeAllocation(r) == three + (pair + tail);
    assert JFrame(EncodeRecord(AllocationUpsert(op, r))) == front + pair + tail;
  }

  lemma FieldInWindow(bs: seq<byte>, at: nat, i: nat)
    requires at + HEADER <= |bs| && i + 4 <= HEADER
    ensures U32At(bs[at..at + HEADER], i) == U32At(bs, at + i)
  {
    var w, x := bs[at..at + HEADER][i..i + 4], bs[at + i..at + i + 4];
    assert forall k :: 0 <= k < 4 ==> w[k] == x[k];
    assert w == x;
  }

  lemma ProbeEmptyFrame(bs: seq<byte>, at: nat)
    requires at + HEADER <= |bs| && bs[at..at + HEADER] == EmptyFrame()
    ensures ProbeHit(bs, at)
  {
    hide U32At, EmptyFrame, Checksum;
    EmptyFrameFields();
    FieldInWindow(bs, at, 0);
    FieldInWindow(bs, at, 4);
    FieldInWindow(bs, at, 8);
    FieldInWindow(bs, at, 12);
    EmptyChecksum();
    assert bs[at + HEADER..at + HEADER] == [];
  }

  /** An allocation by tenant 0x142464A31 of traffic class 0 carries those sixteen bytes.
      If its append is interrupted after them, a journal that is otherwise intact is
      refused, although nothing but the torn record is damaged. */
  lemma LookalikeIsRefused(js: seq<JournalRecord>, op: AllocationOp, r: Allocation, k: nat, max: nat)
    requires Readable(js) && r.tenant == 0x1_4246_4A31 && r.trafficClass == 0
    requires TENANT + HEADER <= k < |JFrame(EncodeRecord(AllocationUpsert(op, r)))|
    ensures var frame := JFrame(EncodeRecord(AllocationUpsert(op, r)));
            var file := FrameAll(Payloads(js)) + frame[..k];
            |file| <= max ==> RecoverJournal(file, Defaults(max)) == Recovered.Refused(CORRUPT_RECORD)
  {
    hide FrameAll, Scan, Payloads, JFrame, EncodeRecord, ProbeHit, RecoverJournal, Le, ReadAll, Readable;
    var frame, kept := JFrame(EncodeRecord(AllocationUpsert(op, r))), FrameAll(Payloads(js));
    var file := kept + frame[..k];
    TenantBytes(op, r);
    assert file[|kept| + TENANT..|kept| + TENANT + HEADER] == frame[TENANT..TENANT + HEADER];
    ProbeEmptyFrame(file, |kept| + TENANT);
    InterruptedAppend(js, AllocationUpsert(op, r), k, max);
  }
}
