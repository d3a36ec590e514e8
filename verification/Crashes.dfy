/** Crashes: what is on disk while a session journals, checkpoints and compacts, and what
    recovery makes of it if the session stops between any two effects. */
module Crashes {
  import opened Arithmetic
  import opened Model
  import opened Invariant
  import opened Image

  // ----- The lapse is not journaled -----

  /** A reservation is a lease, not a commitment: it comes back expired. */
  function Lapsed(r: Allocation, stamp: u64): Allocation {
    if r.state.Reserved? then Marked(r, Expired, stamp) else r
  }

  /** The durable entry and the live one: the same, or a reservation on disk that the last
      recovery expired in memory only. */
  predicate SameUpToLapse(onDisk: Cell, live: Cell, stamp: u64) {
    || live == onDisk
    || (onDisk.OfAllocation? && onDisk.allocation.state.Reserved? && live == OfAllocation(Lapsed(onDisk.allocation, stamp)))
  }

  ghost predicate UpToLapse(onDisk: Core, live: Core, stamp: u64) {
    forall k :: SameUpToLapse(At(onDisk, k), At(live, k), stamp)
  }

  // ----- The disk and the live tables -----

  /** The tables and queues in memory, and the next allocation id. */
  datatype Live = Live(core: Core, queues: map<u64, Queue>, next: u64)

  function ApplyLive(l: Live, r: JournalRecord): Live {
    Live(Apply(l.core, r), LiveQueues(l.queues, r), NextAfter(l.core, l.next, r))
  }

  /** What is on disk: the image of the last snapshot, and the records after it. */
  datatype Disk = Disk(snapshot: Live, journal: seq<JournalRecord>)

  function Recover(d: Disk): Core { Replay(d.snapshot.core, d.journal) }

  function RecoverQueues(d: Disk): map<u64, Queue> { ReplayQueues(d.snapshot.queues, d.journal) }

  /** What recovery reads: the journal over the snapshot, and the counter of the snapshot. */
  function FromDisk(d: Disk): Live { Live(Recover(d), RecoverQueues(d), OneIfZero(d.snapshot.next)) }

  /** The disk stands for the live tables: recovery would give them, but for reservations
      that lapsed in memory, and every live queue. */
  ghost predicate Stands(d: Disk, l: Live, stamp: u64) {
    && UpToLapse(Recover(d), l.core, stamp) && Knows(RecoverQueues(d), l.queues)
    && WholeQueues(d.journal) && QueuesOk(RecoverQueues(d)) && QueuesOk(l.queues)
  }

  /** What a session does to its disk: journal a record, compacting first or not, or take a
      checkpoint. `applied` says whether the caller had already changed the live table, as
      fencing, resizing and the queue updates do; release and commit assign their record
      afterwards, and so does pool removal. */
  datatype Event = Journaled(record: JournalRecord, applied: bool, compacts: bool) | Checkpointed

  predicate Writable(e: Event) {
    e.Journaled? ==>
      && !e.record.QueueRetired? && (e.applied ==> !e.record.PoolRemoved?)
      && (e.record.QueueUpsert? ==> |e.record.queue.name| <= MAX_NAME)
  }

  /** The disk if the session stops at a point of an event. */
  function Crash(d: Disk, l: Live, e: Event, at: CrashPoint): Disk {
    match e
    case Checkpointed =>
      if at == BeforeAnything then d else if at == SnapshotRenamed then Disk(l, d.journal) else Disk(l, [])
    case Journaled(r, applied, compacts) =>
      var image := if applied then ApplyLive(l, r) else l;
      match at
      case BeforeAnything => d
      case SnapshotRenamed => if compacts then Disk(image, d.journal) else d
      case JournalTruncated => if compacts then Disk(image, []) else d
      case RecordAppended => if compacts then Disk(image, [r]) else Disk(d.snapshot, d.journal + [r])
  }

  function LiveNext(l: Live, e: Event): Live { if e.Journaled? then ApplyLive(l, e.record) else l }

  // ----- One event -----

  /** A fresh snapshot with the truncated journal stands for what it was taken of. */
  lemma SnapshotStands(l: Live, stamp: u64)
    requires QueuesOk(l.queues)
    ensures Stands(Disk(l, []), l, stamp)
  {
  }

  lemma AppliedQueuesOk(queues: map<u64, Queue>, r: JournalRecord)
    requires QueuesOk(queues) && !r.QueueRetired? && (r.QueueUpsert? ==> |r.queue.name| <= MAX_NAME)
    ensures QueuesOk(LiveQueues(queues, r)) && QueuesOk(ApplyQueues(queues, r))
  {
  }

  lemma AppendedRecovers(d: Disk, r: JournalRecord)
    ensures Recover(Disk(d.snapshot, d.journal + [r])) == Apply(Recover(d), r)
    ensures RecoverQueues(Disk(d.snapshot, d.journal + [r])) == ApplyQueues(RecoverQueues(d), r)
  {
    hide Apply, ApplyQueues;
    ReplayAppend(d.snapshot.core, d.journal, [r]);
    ReplayOne(Recover(d), r);
    assert (d.journal + [r])[..|d.journal + [r]| - 1] == d.journal;
  }

  /** Appending a record to a disk that stands for the live tables. */
  lemma AppendStands(d: Disk, l: Live, r: JournalRecord, stamp: u64)
    requires Stands(d, l, stamp) && !r.QueueRetired? && (r.QueueUpsert? ==> |r.queue.name| <= MAX_NAME)
    ensures Stands(Disk(d.snapshot, d.journal + [r]), ApplyLive(l, r), stamp)
  {
    hide Recover, RecoverQueues, Apply, At, QueuesOk;
    AppendedRecovers(d, r);
    AppliedQueuesOk(RecoverQueues(d), r);
    AppliedQueuesOk(l.queues, r);
    forall k ensures SameUpToLapse(At(Apply(Recover(d), r), k), At(Apply(l.core, r), k), stamp) {
      ApplyAt(Recover(d), r, k);
      ApplyAt(l.core, r, k);
    }
  }

  lemma ApplyLiveTwice(l: Live, r: JournalRecord)
    requires !r.QueueRetired?
    ensures ApplyLive(ApplyLive(l, r), r) == ApplyLive(l, r)
  {
    hide At, Apply;
    forall k ensures At(Apply(Apply(l.core, r), r), k) == At(Apply(l.core, r), k) {
      ApplyAt(l.core, r, k);
      ApplyAt(Apply(l.core, r), r, k);
    }
    SameEverywhere(Apply(Apply(l.core, r), r), Apply(l.core, r));
    assert LiveQueues(LiveQueues(l.queues, r), r) == LiveQueues(l.queues, r);
    NextTwice(l.core, l.next, r);
  }

  lemma NextTwice(c: Core, next: u64, r: JournalRecord)
    ensures NextAfter(Apply(c, r), NextAfter(c, next, r), r) == NextAfter(c, next, r)
  {
  }

  /** The old journal over the new snapshot: each key is the one the old disk had, or the
      snapshot's own. */
  lemma OldOverNew(d: Disk, image: Live, k: Key)
    ensures At(Recover(Disk(image, d.journal)), k)
         == if Last(d.journal, k).Wrote? then At(Recover(d), k) else At(image.core, k)
  {
    hide Replay, At, Last;
    LastWriterWins(image.core, d.journal, k);
    LastWriterWins(d.snapshot.core, d.journal, k);
  }

  lemma OldQueuesOverNew(d: Disk, image: Live, q: u64)
    requires WholeQueues(d.journal)
    ensures var old', new' := RecoverQueues(d), RecoverQueues(Disk(image, d.journal));
            && (q in new' <==> LastQueue(d.journal, q).WroteQueue? || q in image.queues)
            && (LastQueue(d.journal, q).WroteQueue? ==> q in old' && new'[q] == old'[q])
            && (!LastQueue(d.journal, q).WroteQueue? && q in image.queues ==> new'[q] == image.queues[q])
  {
    hide ReplayQueues, LastQueue;
    LastQueueWins(image.queues, d.journal, q);
    LastQueueWins(d.snapshot.queues, d.journal, q);
  }

  /** A crash after the snapshot is renamed and before the journal is truncated, if the
      snapshot is of the tables the disk stood for. */
  lemma RenamedStands(d: Disk, l: Live, stamp: u64)
    requires Stands(d, l, stamp)
    ensures Stands(Disk(l, d.journal), l, stamp)
  {
    hide Recover, RecoverQueues, At, Last, LastQueue;
    var d' := Disk(l, d.journal);
    forall k ensures SameUpToLapse(At(Recover(d'), k), At(l.core, k), stamp) { OldOverNew(d, l, k); }
    forall q ensures q in RecoverQueues(d') ==> RecoverQueues(d')[q].id == q && |RecoverQueues(d')[q].name| <= MAX_NAME {
      OldQueuesOverNew(d, l, q);
    }
    forall q | q in l.queues ensures q in RecoverQueues(d') && RecoverQueues(d')[q] == l.queues[q] { OldQueuesOverNew(d, l, q); }
  }

  /** Whether the old journal also wrote what the record writes. */
  ghost predicate Rewritten(js: seq<JournalRecord>, r: JournalRecord) {
    if r.QueueUpsert? then LastQueue(js, r.queue.id).WroteQueue? else Last(js, KeyOf(r)).Wrote?
  }

  lemma AppliedTables(d: Disk, l: Live, r: JournalRecord, stamp: u64)
    requires Stands(d, l, stamp)
    ensures var d' := Disk(ApplyLive(l, r), d.journal);
            && (r.QueueUpsert? || Last(d.journal, KeyOf(r)).Wrote? ==> UpToLapse(Recover(d'), l.core, stamp))
            && (r.QueueUpsert? || !Last(d.journal, KeyOf(r)).Wrote? ==> UpToLapse(Recover(d'), Apply(l.core, r), stamp))
  {
    hide Recover, At, Last, Apply, RecoverQueues, QueuesOk, Knows;
    var image := ApplyLive(l, r);
    forall k
      ensures r.QueueUpsert? || Last(d.journal, KeyOf(r)).Wrote? ==>
                SameUpToLapse(At(Recover(Disk(image, d.journal)), k), At(l.core, k), stamp)
      ensures r.QueueUpsert? || !Last(d.journal, KeyOf(r)).Wrote? ==>
                SameUpToLapse(At(Recover(Disk(image, d.journal)), k), At(Apply(l.core, r), k), stamp)
    {
      OldOverNew(d, image, k);
      ApplyAt(l.core, r, k);
      QueueElsewhere(l.core, r, k);
    }
  }

  /** A queue record touches none of the tables. */
  lemma QueueElsewhere(c: Core, r: JournalRecord, k: Key)
    ensures r.QueueUpsert? ==> At(Apply(c, r), k) == At(c, k)
  {
  }

  lemma AppliedQueues(d: Disk, l: Live, r: JournalRecord, stamp: u64)
    requires Stands(d, l, stamp) && !r.QueueRetired? && !r.PoolRemoved? && (r.QueueUpsert? ==> |r.queue.name| <= MAX_NAME)
    ensures var known := RecoverQueues(Disk(ApplyLive(l, r), d.journal));
            && QueuesOk(known)
            && (!r.QueueUpsert? || LastQueue(d.journal, r.queue.id).WroteQueue? ==> Knows(known, l.queues))
            && (!r.QueueUpsert? || !LastQueue(d.journal, r.queue.id).WroteQueue? ==> Knows(known, LiveQueues(l.queues, r)))
  {
    hide RecoverQueues, LastQueue, UpToLapse;
    var image := ApplyLive(l, r);
    var known := RecoverQueues(Disk(image, d.journal));
    AppliedQueuesOk(l.queues, r);
    forall q
      ensures q in known ==> known[q].id == q && |known[q].name| <= MAX_NAME
      ensures !r.QueueUpsert? || LastQueue(d.journal, r.queue.id).WroteQueue? ==>
                (q in l.queues ==> q in known && known[q] == l.queues[q])
      ensures !r.QueueUpsert? || !LastQueue(d.journal, r.queue.id).WroteQueue? ==>
                (q in image.queues ==> q in known && known[q] == image.queues[q])
    {
      OldQueuesOverNew(d, image, q);
    }
  }

  /** The same crash, if the snapshot already has the record applied: back to just before
      the record if the old journal also wrote its key, and just after it if not. */
  lemma AppliedRenamedStands(d: Disk, l: Live, r: JournalRecord, stamp: u64)
    requires Stands(d, l, stamp) && !r.QueueRetired? && !r.PoolRemoved? && (r.QueueUpsert? ==> |r.queue.name| <= MAX_NAME)
    ensures Stands(Disk(ApplyLive(l, r), d.journal), if Rewritten(d.journal, r) then l else ApplyLive(l, r), stamp)
  {
    hide Recover, RecoverQueues, UpToLapse, Knows, QueuesOk, Last, LastQueue, Apply;
    AppliedTables(d, l, r, stamp);
    AppliedQueues(d, l, r, stamp);
    AppliedQueuesOk(l.queues, r);
  }

  lemma CheckpointStands(d: Disk, l: Live, at: CrashPoint, stamp: u64)
    requires Stands(d, l, stamp)
    ensures Stands(Crash(d, l, Checkpointed, at), l, stamp)
  {
    hide UpToLapse, Knows;
    SnapshotStands(l, stamp);
    RenamedStands(d, l, stamp);
  }

  lemma CompactedStands(d: Disk, l: Live, r: JournalRecord, applied: bool, at: CrashPoint, stamp: u64)
    requires Stands(d, l, stamp) && Writable(Journaled(r, applied, true))
    ensures var d' := Crash(d, l, Journaled(r, applied, true), at);
            && (Stands(d', l, stamp) || Stands(d', ApplyLive(l, r), stamp))
            && (at == RecordAppended ==> Stands(d', ApplyLive(l, r), stamp))
            && (at == BeforeAnything ==> Stands(d', l, stamp))
  {
    hide Stands, ApplyLive, QueuesOk;
    var image := if applied then ApplyLive(l, r) else l;
    LiveQueuesOk(d, l, r, stamp);
    SnapshotStands(image, stamp);
    match at
    case BeforeAnything =>
    case SnapshotRenamed =>
      if applied { AppliedRenamedStands(d, l, r, stamp); } else { RenamedStands(d, l, stamp); }
    case JournalTruncated =>
    case RecordAppended =>
      AppendStands(Disk(image, []), image, r, stamp);
      assert [] + [r] == [r];
      ApplyLiveTwice(l, r);
  }

  lemma LiveQueuesOk(d: Disk, l: Live, r: JournalRecord, stamp: u64)
    requires Stands(d, l, stamp) && !r.QueueRetired? && (r.QueueUpsert? ==> |r.queue.name| <= MAX_NAME)
    ensures QueuesOk(l.queues) && QueuesOk(ApplyLive(l, r).queues)
  {
    AppliedQueuesOk(l.queues, r);
  }

  /** Whatever the crash point, the disk stands for the live tables from just before or
      just after the event; once the event is over, from just after it. The live tables need
      not be the ones on disk: reservations may have lapsed in memory. */
  lemma CrashConsistent(d: Disk, l: Live, e: Event, at: CrashPoint, stamp: u64)
    requires Stands(d, l, stamp) && Writable(e)
    ensures var d' := Crash(d, l, e, at);
            && (Stands(d', l, stamp) || Stands(d', LiveNext(l, e), stamp))
            && (at == RecordAppended ==> Stands(d', LiveNext(l, e), stamp))
            && (at == BeforeAnything ==> Stands(d', l, stamp))
  {
    hide Stands, ApplyLive;
    match e
    case Checkpointed => CheckpointStands(d, l, at, stamp);
    case Journaled(r, applied, compacts) =>
      if compacts {
        CompactedStands(d, l, r, applied, at, stamp);
      } else if at == RecordAppended {
        AppendStands(d, l, r, stamp);
      }
  }

  /** The epoch record that open() journals before anything else leaves the disk standing for
      the loaded tables, wherever it stops. */
  lemma OpeningStands(d: Disk, l: Live, epoch: u64, boot: Boot, compacts: bool, at: CrashPoint, stamp: u64)
    requires Stands(d, l, stamp)
    ensures Stands(Crash(d, l, Journaled(EpochAdvance(epoch, boot), false, compacts), at), l, stamp)
  {
    hide Stands;
    var r := EpochAdvance(epoch, boot);
    CrashConsistent(d, l, Journaled(r, false, compacts), at, stamp);
    assert ApplyLive(l, r) == l;
  }

  // ----- A whole session -----

  function RecordsOf(es: seq<Event>): seq<JournalRecord> {
    if es == [] then []
    else if es[|es| - 1].Journaled? then RecordsOf(es[..|es| - 1]) + [es[|es| - 1].record]
    else RecordsOf(es[..|es| - 1])
  }

  function LiveAfter(l: Live, es: seq<Event>): Live {
    if es == [] then l else LiveNext(LiveAfter(l, es[..|es| - 1]), es[|es| - 1])
  }

  function DiskAfter(d: Disk, l: Live, es: seq<Event>): Disk {
    if es == [] then d
    else
      var front := es[..|es| - 1];
      Crash(DiskAfter(d, l, front), LiveAfter(l, front), es[|es| - 1], RecordAppended)
  }

  ghost predicate AllWritable(es: seq<Event>) { forall i :: 0 <= i < |es| ==> Writable(es[i]) }

  /** Only the records matter to the live tables. */
  lemma {:induction false} LiveAfterIs(l: Live, es: seq<Event>)
    ensures var js := RecordsOf(es);
            LiveAfter(l, es) == Live(Replay(l.core, js), ReplayLive(l.queues, js), ReplayNext(l.core, l.next, js))
  {
    if es != [] {
      var front, e := es[..|es| - 1], es[|es| - 1];
      LiveAfterIs(l, front);
      if e.Journaled? {
        ReplayAppend(l.core, RecordsOf(front), [e.record]);
        ReplayOne(Replay(l.core, RecordsOf(front)), e.record);
        assert RecordsOf(es)[..|RecordsOf(es)| - 1] == RecordsOf(front);
      }
    }
  }

  /** Over a whole session, however it interleaves compactions and checkpoints, the disk
      stands for the live tables. */
  lemma {:induction false} SessionStands(d: Disk, l: Live, es: seq<Event>, stamp: u64)
    requires Stands(d, l, stamp) && AllWritable(es)
    ensures Stands(DiskAfter(d, l, es), LiveAfter(l, es), stamp)
  {
    hide Stands, Crash, LiveNext, Writable;
    if es != [] {
      var front := es[..|es| - 1];
      assert forall i :: 0 <= i < |front| ==> front[i] == es[i];
      SessionStands(d, l, front, stamp);
      CrashConsistent(DiskAfter(d, l, front), LiveAfter(l, front), es[|es| - 1], RecordAppended, stamp);
    }
  }

  /** The disk if the session stops at a point of its i-th event. */
  function Stopped(d: Disk, l: Live, es: seq<Event>, i: nat, at: CrashPoint): Disk
    requires i < |es|
  {
    Crash(DiskAfter(d, l, es[..i]), LiveAfter(l, es[..i]), es[i], at)
  }

  /** A session that stops anywhere leaves a disk that stands for the live tables before or
      after the event it was in. */
  lemma StoppedStands(d: Disk, l: Live, es: seq<Event>, i: nat, at: CrashPoint, stamp: u64)
    requires Stands(d, l, stamp) && AllWritable(es) && i < |es|
    ensures var d' := Stopped(d, l, es, i, at);
            Stands(d', LiveAfter(l, es[..i]), stamp) || Stands(d', LiveAfter(l, es[..i + 1]), stamp)
  {
    hide Stands, Crash, LiveNext, Writable;
    SessionStands(d, l, es[..i], stamp);
    CrashConsistent(DiskAfter(d, l, es[..i]), LiveAfter(l, es[..i]), es[i], at, stamp);
    assert es[..i + 1][..i] == es[..i];
  }
}
