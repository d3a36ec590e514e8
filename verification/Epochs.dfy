/** Epochs over any sequence of opens, writes and crashes on one directory. */
module Epochs {
  import opened Arithmetic
  import opened Pressure
  import opened Model
  import opened Grants
  import opened Image
  import opened Mirror

  datatype Store = Store(snapshot: Rest, journal: seq<JournalRecord>)

  function Durable(d: Store): Rest { ReplayRest(d.snapshot, d.journal) }

  /** One journal call, with the live image a compaction would write. */
  function CrashIn(d: Store, r: JournalRecord, live: Rest, compacts: bool, at: CrashPoint): Store {
    match at
    case BeforeAnything => d
    case SnapshotRenamed => if compacts then Store(live, d.journal) else d
    case JournalTruncated => if compacts then Store(live, []) else d
    case RecordAppended => if compacts then Store(live, [r]) else Store(d.snapshot, d.journal + [r])
  }

  datatype Session = Closed | Open(epoch: u64)

  /** A directory, the fabric on it, and the epochs its successful opens returned. */
  datatype Directory = Directory(store: Store, session: Session, epochs: seq<u64>)

  datatype Event =
    | Opening(boot: Boot, compacts: bool, at: CrashPoint)
    | Writing(record: JournalRecord, live: Rest, compacts: bool, at: CrashPoint)
    | Stopping

  /** An open takes the durable epoch plus one, refusing when there is none, and succeeds
      once its epoch record is appended; anything short of that leaves no session. */
  function OpenOn(d: Directory, boot: Boot, compacts: bool, at: CrashPoint): (Directory, Code) {
    var durable := Durable(d.store);
    if AddOverflows(durable.epoch, 1) then (d.(session := Closed), EPOCH_REGRESSION)
    else
      var epoch := Wrap(durable.epoch + 1);
      var store := CrashIn(d.store, EpochAdvance(epoch, boot), durable.(epoch := epoch, boot := boot), compacts, at);
      if at == RecordAppended then (Directory(store, Open(epoch), d.epochs + [epoch]), OK)
      else (Directory(store, Closed, d.epochs), OK)
  }

  /** What a session may write: its own epoch in every image, and sane records. */
  predicate Allowed(d: Directory, e: Event) {
    e.Writing? && d.session.Open? ==>
      && e.live.epoch == d.session.epoch && Sane(e.record, d.session.epoch) && AllOld(e.live)
  }

  function Happens(d: Directory, e: Event): Directory {
    match e
    case Opening(boot, compacts, at) => OpenOn(d, boot, compacts, at).0
    case Writing(r, live, compacts, at) =>
      if d.session.Closed? then d
      else Directory(CrashIn(d.store, r, live, compacts, at), if at == RecordAppended then d.session else Closed, d.epochs)
    case Stopping => d.(session := Closed)
  }

  function Unfold(d: Directory, es: seq<Event>): Directory
    decreases |es|
  {
    if es == [] then d else Unfold(Happens(d, es[0]), es[1..])
  }

  predicate AllowedAll(d: Directory, es: seq<Event>)
    decreases |es|
  {
    es == [] || (Allowed(d, es[0]) && AllowedAll(Happens(d, es[0]), es[1..]))
  }

  // ----- Epochs in a journal -----

  /** No evidence is from a later epoch than the image. */
  predicate AllOld(c: Rest) { forall p :: p in c.pressure ==> c.pressure[p].epoch <= c.epoch }

  /** No record is from an epoch later than e. */
  predicate Upto(js: seq<JournalRecord>, e: u64) {
    forall i :: 0 <= i < |js| ==>
      (js[i].EpochAdvance? ==> js[i].epoch <= e) && (js[i].PressureObserved? ==> js[i].snapshot.epoch <= e)
  }

  /** Replaying records no later than e over an image of epoch e stays at e. */
  lemma {:induction false} ReplayStays(c: Rest, js: seq<JournalRecord>, e: u64)
    requires c.epoch == e && Upto(js, e) && AllOld(c)
    ensures ReplayRest(c, js).epoch == e && AllOld(ReplayRest(c, js))
    decreases |js|
  {
    if js != [] {
      assert AllOld(ApplyRest(c, js[0])) && ApplyRest(c, js[0]).epoch == e;
      assert Upto(js[1..], e);
      ReplayStays(ApplyRest(c, js[0]), js[1..], e);
    }
  }

  /** A store whose epoch is e, with nothing later in it. */
  ghost predicate Settled(d: Store, e: u64) {
    && Durable(d).epoch == e && d.snapshot.epoch <= e && Upto(d.journal, e) && AllOld(Durable(d))
  }

  lemma AppendSettles(d: Store, r: JournalRecord, e: u64, next: u64)
    requires Settled(d, e) && e <= next && Upto([r], next)
    requires r.EpochAdvance? ==> r.epoch == next
    requires !r.EpochAdvance? ==> next == e
    ensures Settled(Store(d.snapshot, d.journal + [r]), next)
  {
    ReplayRestAppend(d.snapshot, d.journal, [r]);
    assert ReplayRest(Durable(d), [r]) == ReplayRest(ApplyRest(Durable(d), r), []) by { assert [r][1..] == []; }
    assert [r][0] == r;
  }

  lemma FreshSettles(live: Rest, js: seq<JournalRecord>, next: u64)
    requires live.epoch == next && AllOld(live) && Upto(js, next)
    ensures Settled(Store(live, js), next)
  {
    ReplayStays(live, js, next);
  }

  /** Wherever a journal call stops, the durable epoch is the old one or the new. */
  lemma CallSettles(d: Store, r: JournalRecord, live: Rest, compacts: bool, at: CrashPoint, e: u64, next: u64)
    requires Settled(d, e) && e <= next && Upto([r], next) && live.epoch == next && AllOld(live)
    requires r.EpochAdvance? ==> r.epoch == next
    requires !r.EpochAdvance? ==> next == e
    ensures var d' := CrashIn(d, r, live, compacts, at);
            (Settled(d', e) && at != RecordAppended) || Settled(d', next)
  {
    hide Settled;
    match at
    case BeforeAnything =>
    case SnapshotRenamed => if compacts { LaterUpto(d, e, next); FreshSettles(live, d.journal, next); }
    case JournalTruncated => if compacts { FreshSettles(live, [], next); }
    case RecordAppended => if compacts { FreshSettles(live, [r], next); } else { AppendSettles(d, r, e, next); }
  }

  lemma LaterUpto(d: Store, e: u64, next: u64)
    requires Settled(d, e) && e <= next
    ensures Upto(d.journal, next)
  {
  }

  // ----- Over any history -----

  predicate Increasing(es: seq<u64>) { forall i, j :: 0 <= i < j < |es| ==> es[i] < es[j] }

  /** The durable epoch is at least every epoch handed out, and the session's own. */
  ghost predicate DirectoryOk(d: Directory) {
    && Settled(d.store, Durable(d.store).epoch)
    && Increasing(d.epochs) && (forall i :: 0 <= i < |d.epochs| ==> d.epochs[i] <= Durable(d.store).epoch)
    && (d.session.Open? ==> d.session.epoch == Durable(d.store).epoch)
  }

  /** An empty directory: no snapshot, no journal, no session yet. */
  function FreshDirectory(): Directory { Directory(Store(Rest(0, Boot(0, 0), map[], map[]), []), Closed, []) }

  lemma FreshDirectoryOk()
    ensures DirectoryOk(FreshDirectory())
  {
  }

  lemma OpeningOk(d: Directory, boot: Boot, compacts: bool, at: CrashPoint)
    requires DirectoryOk(d)
    ensures DirectoryOk(OpenOn(d, boot, compacts, at).0)
  {
    hide ReplayRest;
    var durable := Durable(d.store);
    AddOverflowIsExact(durable.epoch, 1);
    if !AddOverflows(durable.epoch, 1) {
      var epoch := durable.epoch + 1;
      var live := durable.(epoch := epoch, boot := boot);
      CallSettles(d.store, EpochAdvance(epoch, boot), live, compacts, at, durable.epoch, epoch);
    }
  }

  lemma WritingOk(d: Directory, e: Event)
    requires DirectoryOk(d) && e.Writing? && Allowed(d, e)
    ensures DirectoryOk(Happens(d, e))
  {
    hide ReplayRest, Applicable;
    if d.session.Open? {
      CallSettles(d.store, e.record, e.live, e.compacts, e.at, d.session.epoch, d.session.epoch);
    }
  }

  /** Over any sequence of opens, writes, stops and crashes, the epochs that successful
      opens return are strictly increasing. */
  lemma {:induction false} EpochTheorem(d: Directory, es: seq<Event>)
    requires DirectoryOk(d) && AllowedAll(d, es)
    ensures DirectoryOk(Unfold(d, es)) && Increasing(Unfold(d, es).epochs)
    ensures |d.epochs| <= |Unfold(d, es).epochs| && Unfold(d, es).epochs[..|d.epochs|] == d.epochs
    decreases |es|
  {
    hide ReplayRest;
    if es != [] {
      var d1 := Happens(d, es[0]);
      if es[0].Opening? {
        OpeningOk(d, es[0].boot, es[0].compacts, es[0].at);
      } else if es[0].Writing? {
        WritingOk(d, es[0]);
      }
      EpochTheorem(d1, es[1..]);
      assert |d.epochs| <= |d1.epochs| && d1.epochs[..|d.epochs|] == d.epochs;
      assert Unfold(d1, es[1..]).epochs[..|d.epochs|] == Unfold(d1, es[1..]).epochs[..|d1.epochs|][..|d.epochs|];
    }
  }

  // ----- Consequences -----

  /** Whatever evidence an open restores is from an earlier epoch, so it resolves to Stale. */
  lemma RestoredEvidenceIsStale(d: Directory, boot: Boot, compacts: bool, policies: map<u64, Policy>, e: PoolEntry, now: u64)
    requires DirectoryOk(d) && Durable(d.store).epoch + 1 < TWO64
    requires e.descriptor.id in Durable(d.store).pressure
    ensures var d' := OpenOn(d, boot, compacts, RecordAppended).0;
            && d'.session.Open?
            && ResolveEvidence(Durable(d.store).pressure, policies, d'.session.epoch, e, now) == Evidence(Stale, STALE_EPOCH)
  {
    hide ReplayRest;
    AddOverflowIsExact(Durable(d.store).epoch, 1);
  }

  /** The coordinator's gate: a request must present the current epoch. */
  predicate GateAdmits(requested: u64, current: u64) { requested != 0 && requested == current }

  /** A request bound to any earlier session of the directory never passes the gate. */
  lemma EarlierEpochRefused(d: Directory, i: nat, j: nat)
    requires DirectoryOk(d) && i < j < |d.epochs|
    ensures !GateAdmits(d.epochs[i], d.epochs[j])
  {
  }
}
