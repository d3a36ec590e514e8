/** Any number of sessions on one directory, each ended in good order or cut short anywhere,
    each followed by a recovery. */
module Sessions {
  import opened Arithmetic
  import opened Model
  import opened Ledger
  import opened Invariant
  import opened Runs
  import opened Image
  import opened Crashes
  import opened Mirror
  import opened Recovery

  datatype Stop = Closed | Cut(i: nat, at: CrashPoint)

  /** One session: what it runs and writes, how it stops, what the recovery after it loads at
      which tick, and how far the next open gets in journaling its epoch. */
  datatype Session = Session(calls: seq<Call>, events: seq<Event>, stop: Stop, loaded: Fabric, stamp: u64,
                             epoch: u64, boot: Boot, compacts: bool, at: CrashPoint)

  function EndDisk(s: Fabric, d: Disk, x: Session): Disk
    requires x.stop.Cut? ==> x.stop.i < |x.events|
  {
    match x.stop
    case Closed => DiskAfter(d, LiveOf(s), x.events)
    case Cut(i, at) => Stopped(d, LiveOf(s), x.events, i, at)
  }

  /** The session runs from s on d, and the recovery after it loads what is on disk. */
  ghost predicate Follows(s: Fabric, d: Disk, x: Session) {
    && AdmissibleRun(s, x.calls) && Run(s, x.calls).books.journal == s.books.journal + RecordsOf(x.events)
    && RemovesLast(x.events) && (x.stop.Cut? ==> x.stop.i < |x.events|)
    && Loaded(FromDisk(EndDisk(s, d, x)), x.stamp, x.loaded)
  }

  /** The disk the next session finds, once the open before it journaled its epoch or not. */
  function NextDisk(s: Fabric, d: Disk, x: Session): Disk
    requires x.stop.Cut? ==> x.stop.i < |x.events|
  {
    Crash(EndDisk(s, d, x), LiveOf(x.loaded), Journaled(EpochAdvance(x.epoch, x.boot), false, x.compacts), x.at)
  }

  ghost predicate History(s: Fabric, d: Disk, xs: seq<Session>)
    decreases |xs|
  {
    xs == [] || (Follows(s, d, xs[0]) && History(xs[0].loaded, NextDisk(s, d, xs[0]), xs[1..]))
  }

  /** How many of a session's records a recovery may find: all after a close; up to the event
      it was cut in, or that event's too. */
  predicate Found(x: Session, n: nat) {
    && n <= |RecordsOf(x.events)|
    && match x.stop
       case Closed => n == |RecordsOf(x.events)|
       case Cut(i, _) =>
         i < |x.events| && (n == |RecordsOf(x.events[..i])| || n == |RecordsOf(x.events[..i + 1])|)
  }

  /** What is loaded resumes a ledger of the session. */
  ghost predicate ResumesSession(s: Fabric, x: Session) {
    exists m: Fabric, n: nat ::
      Found(x, n) && Inv(m) && Tables(m) == Replay(Tables(s), RecordsOf(x.events)[..n]) && Resumes(m, x.loaded)
  }

  ghost predicate AllResume(s: Fabric, xs: seq<Session>)
    decreases |xs|
  {
    xs == [] || (ResumesSession(s, xs[0]) && AllResume(xs[0].loaded, xs[1..]))
  }

  // ----- One session -----

  lemma ClosedResumes(s: Fabric, d: Disk, stamp: u64, x: Session)
    requires Inv(s) && Stands(d, LiveOf(s), stamp) && Follows(s, d, x) && x.stop.Closed?
    ensures ResumesSession(s, x) && Stands(EndDisk(s, d, x), LiveOf(x.loaded), x.stamp)
  {
    hide Inv, Stands, Run, AdmissibleRun, Resumes, Loaded, FromDisk, Tables, Replay, RecordsOf, LiveAfter, Logged, RemovesLast, DiskAfter;
    var js, n := RecordsOf(x.events), |x.events|;
    RunLogged(s, x.calls, x.events);
    RunWritable(s, Run(s, x.calls), x.events);
    SessionStands(d, LiveOf(s), x.events, stamp);
    assert x.events[..n] == x.events;
    RecordsPrefix(x.events, n);
    var m := PrefixLedger(s, Run(s, x.calls), js, x.events, n);
    StandingRecovers(EndDisk(s, d, x), m, x.loaded, stamp, x.stamp);
    NextSession(EndDisk(s, d, x), LiveOf(m), x.loaded, stamp, x.stamp);
    assert Found(x, |js|);
  }

  lemma CutResumes(s: Fabric, d: Disk, stamp: u64, x: Session)
    requires Inv(s) && Stands(d, LiveOf(s), stamp) && Follows(s, d, x) && x.stop.Cut?
    ensures ResumesSession(s, x) && Stands(EndDisk(s, d, x), LiveOf(x.loaded), x.stamp)
  {
    hide Inv, Stands, Run, AdmissibleRun, Resumes, Loaded, FromDisk, Tables, Replay, RecordsOf, RemovesLast, Stopped, IdsFresh, Numbered;
    var es, i := x.events, x.stop.i;
    var m := CrashTheorem(s, x.calls, d, stamp, es, i, x.stop.at, x.loaded, x.stamp);
    RecordsPrefix(es, i);
    RecordsPrefix(es, i + 1);
    if Tables(m) == Replay(Tables(s), RecordsOf(es[..i])) {
      assert Found(x, |RecordsOf(es[..i])|);
    } else {
      assert Found(x, |RecordsOf(es[..i + 1])|);
    }
  }

  lemma SessionResumes(s: Fabric, d: Disk, stamp: u64, x: Session)
    requires Inv(s) && Stands(d, LiveOf(s), stamp) && Follows(s, d, x)
    ensures ResumesSession(s, x) && Inv(x.loaded) && Stands(NextDisk(s, d, x), LiveOf(x.loaded), x.stamp)
  {
    hide Inv, Stands, Follows, EndDisk, Found, Tables, Replay, RecordsOf, Crash;
    if x.stop.Closed? { ClosedResumes(s, d, stamp, x); } else { CutResumes(s, d, stamp, x); }
    CutWithin(s, d, x);
    OpeningStands(EndDisk(s, d, x), LiveOf(x.loaded), x.epoch, x.boot, x.compacts, x.at, x.stamp);
  }

  lemma CutWithin(s: Fabric, d: Disk, x: Session)
    requires Follows(s, d, x)
    ensures x.stop.Cut? ==> x.stop.i < |x.events|
  {
  }

  // ----- All of them -----

  /** Over any number of sessions, however each stops, what each recovery loads resumes a
      ledger of the session before it: whole books, complete index, the same commitments, no
      reservations, balanced lending. The only hypothesis besides the splits is that no
      allocate lands on a live record, which a restart makes possible. */
  lemma {:induction false} HistoryTheorem(s: Fabric, d: Disk, stamp: u64, xs: seq<Session>)
    requires Inv(s) && Stands(d, LiveOf(s), stamp) && History(s, d, xs)
    ensures AllResume(s, xs)
    decreases |xs|
  {
    hide Inv, Stands, Follows, NextDisk, ResumesSession;
    if xs != [] {
      SessionResumes(s, d, stamp, xs[0]);
      CutWithin(s, d, xs[0]);
      HistoryTheorem(xs[0].loaded, NextDisk(s, d, xs[0]), xs[0].stamp, xs[1..]);
    }
  }

  /** In particular from an empty directory. */
  lemma FromEmptyDirectory(config: Config, epoch: u64, boot: Boot, memory: nat, xs: seq<Session>)
    requires History(Empty(config, epoch, boot, memory), EmptyDisk(), xs)
    ensures AllResume(Empty(config, epoch, boot, memory), xs)
  {
    hide Inv, Stands, History, AllResume, Empty;
    EmptyInv(config, epoch, boot, memory);
    FreshStands(config, epoch, boot, memory, 0);
    HistoryTheorem(Empty(config, epoch, boot, memory), EmptyDisk(), 0, xs);
  }
}
