/** The journal on disk: reading it back frame by frame, telling a torn tail from damage in
    the middle, and repairing the former. */
module JournalFile {
  import opened Arithmetic
  import opened Model
  import opened Codec
  import opened Crc32c
  import opened Frames

  const MAGIC: u32 := 0x42464A31
  const VERSION: u32 := 1
  const MAX_RECORD: nat := 0x40_0000

  function JFrame(payload: seq<byte>): seq<byte> { Frame(payload, MAGIC, VERSION) }

  /** The frame of the nine check digits, byte by byte: magic, version, length and checksum, each
      with its lowest byte first, then the payload. */
  lemma CheckFrame()
    ensures JFrame([49, 50, 51, 52, 53, 54, 55, 56, 57])
         == [0x31, 0x4A, 0x46, 0x42, 1, 0, 0, 0, 9, 0, 0, 0, 0x83, 0x92, 0x06, 0xE3,
             49, 50, 51, 52, 53, 54, 55, 56, 57]
  {
    hide Checksum, Le;
    CheckValue();
    LeBytes(0x31, 0x4A, 0x46, 0x42);
    LeBytes(1, 0, 0, 0);
    LeBytes(9, 0, 0, 0);
    LeBytes(0x83, 0x92, 0x06, 0xE3);
  }

  lemma LeBytes(a: byte, b: byte, c: byte, d: byte)
    ensures Le(a + 0x100 * b + 0x1_0000 * c + 0x100_0000 * d, 4) == [a, b, c, d]
  {
    var n := a + 0x100 * b + 0x1_0000 * c + 0x100_0000 * d;
    assert n / 0x100 == b + 0x100 * c + 0x1_0000 * d;
    assert n / 0x100 / 0x100 == c + 0x100 * d;
    assert Le(n / 0x100 / 0x100 / 0x100, 1) == [d];
    assert Le(n / 0x100 / 0x100, 2) == [c] + [d];
    assert Le(n / 0x100, 3) == [b] + ([c] + [d]);
  }

  function FrameAll(ps: seq<seq<byte>>): seq<byte> {
    if ps == [] then [] else JFrame(ps[0]) + FrameAll(ps[1..])
  }

  predicate AllSmall(ps: seq<seq<byte>>) { forall i :: 0 <= i < |ps| ==> |ps[i]| <= MAX_RECORD }

  // ----- Reading -----

  datatype Head = Eof | Damage(code: Code) | Record(payload: seq<byte>)

  /** read_next, on what lies ahead of the read offset. */
  function ReadHead(bs: seq<byte>): (h: Head)
    ensures h.Record? ==> HEADER + |h.payload| <= |bs|
  {
    if bs == [] then Eof
    else if |bs| < HEADER then Damage(JOURNAL_TRUNCATED)
    else if U32At(bs, 0) != MAGIC then Damage(CORRUPT_RECORD)
    else if U32At(bs, 4) != VERSION then Damage(VERSION_MISMATCH)
    else
      var n := U32At(bs, 8);
      if n > MAX_RECORD then Damage(OVERSIZED)
      else if HEADER + n > |bs| then Damage(JOURNAL_TRUNCATED)
      else if Checksum(bs[HEADER..HEADER + n]) != U32At(bs, 12) then Damage(INTEGRITY_FAILURE)
      else Record(bs[HEADER..HEADER + n])
  }

  /** The records read before the end or the first damage, and how far they reach. */
  datatype Scanned = Scanned(payloads: seq<seq<byte>>, length: nat, damaged: bool)

  function Scan(bs: seq<byte>): Scanned
    decreases |bs|
  {
    match ReadHead(bs)
    case Eof => Scanned([], 0, false)
    case Damage(_) => Scanned([], 0, true)
    case Record(p) =>
      var rest := Scan(bs[HEADER + |p|..]);
      Scanned([p] + rest.payloads, HEADER + |p| + rest.length, rest.damaged)
  }

  lemma ReadFrame(p: seq<byte>, rest: seq<byte>)
    requires |p| <= MAX_RECORD
    ensures ReadHead(JFrame(p) + rest) == Record(p)
    ensures (JFrame(p) + rest)[HEADER + |p|..] == rest
  {
    hide Checksum, U32At, Header;
    var bs := JFrame(p) + rest;
    assert bs == Header(p, MAGIC, VERSION) + (p + rest);
    HeaderFields(p, MAGIC, VERSION, p + rest);
    assert bs[HEADER..HEADER + |p|] == p;
  }

  /** What reads as a record is exactly a frame. */
  lemma RecordIsFrame(bs: seq<byte>)
    requires ReadHead(bs).Record?
    ensures var p := ReadHead(bs).payload;
            |p| <= MAX_RECORD && HEADER + |p| <= |bs| && bs[..HEADER + |p|] == JFrame(p)
  {
    hide Checksum, Le, FromLe;
    var p := ReadHead(bs).payload;
    LeCanonical(bs[0..4]);
    LeCanonical(bs[4..8]);
    LeCanonical(bs[8..12]);
    LeCanonical(bs[12..16]);
    assert bs[..HEADER] == bs[0..4] + bs[4..8] + bs[8..12] + bs[12..16];
    assert bs[..HEADER + |p|] == bs[..HEADER] + p;
  }

  /** Intact frames ahead are all read, in order. */
  lemma {:induction false} ScanFrames(ps: seq<seq<byte>>, tail: seq<byte>)
    requires AllSmall(ps)
    ensures Scan(FrameAll(ps) + tail)
         == Scanned(ps + Scan(tail).payloads, |FrameAll(ps)| + Scan(tail).length, Scan(tail).damaged)
    decreases |ps|
  {
    hide ReadHead, JFrame, Checksum;
    if ps == [] {
      assert FrameAll(ps) + tail == tail;
      assert ps + Scan(tail).payloads == Scan(tail).payloads;
    } else {
      var rest := FrameAll(ps[1..]) + tail;
      assert FrameAll(ps) + tail == JFrame(ps[0]) + rest;
      ReadFrame(ps[0], rest);
      ScanFrames(ps[1..], tail);
      assert ps + Scan(tail).payloads == [ps[0]] + (ps[1..] + Scan(tail).payloads);
    }
  }

  /** A scan yields exactly the longest prefix of intact frames: the bytes it covers are
      those frames, and no intact frame starts where it stops. */
  lemma {:induction false} ScanIsLongestPrefix(bs: seq<byte>)
    ensures var s := Scan(bs);
            && AllSmall(s.payloads) && s.length <= |bs| && bs[..s.length] == FrameAll(s.payloads)
            && !ReadHead(bs[s.length..]).Record?
            && (s.damaged <==> s.length < |bs|)
    decreases |bs|
  {
    hide JFrame, Checksum, U32At;
    var h := ReadHead(bs);
    if h.Record? {
      var rest := bs[HEADER + |h.payload|..];
      RecordIsFrame(bs);
      ScanIsLongestPrefix(rest);
      var s, t := Scan(bs), Scan(rest);
      assert bs[..s.length] == bs[..HEADER + |h.payload|] + rest[..t.length];
      assert bs[s.length..] == rest[t.length..];
      assert s.payloads[1..] == t.payloads;
    } else {
      assert bs[0..] == bs;
    }
  }

  // ----- Telling a torn tail from damage in the middle -----

  /** The damage probe: a frame header at this offset whose payload is all there and
      checks out. It does not apply the record bound. */
  predicate ProbeHit(bs: seq<byte>, at: nat) {
    && at + HEADER <= |bs|
    && U32At(bs, at) == MAGIC && U32At(bs, at + 4) == VERSION
    && at + HEADER + U32At(bs, at + 8) <= |bs|
    && Checksum(bs[at + HEADER..at + HEADER + U32At(bs, at + 8)]) == U32At(bs, at + 12)
  }

  predicate IntactAfter(bs: seq<byte>, damage: nat) {
    exists at: nat :: damage < at <= |bs| && ProbeHit(bs, at)
  }

  datatype StoreConfig = StoreConfig(refuseMidfile: bool, truncateTail: bool, maxBytes: nat)

  datatype Recovered = Refused(code: Code) | Recovered(payloads: seq<seq<byte>>, file: seq<byte>)

  /** recover, for the journal: refuse a file beyond the bound; replay what is intact; then,
      if something follows, refuse or cut it off. */
  function RecoverJournal(file: seq<byte>, config: StoreConfig): Recovered {
    var s := Scan(file);
    if |file| > config.maxBytes then Refused(OVERSIZED)
    else if !s.damaged then Recovered(s.payloads, file)
    else if IntactAfter(file, s.length) && config.refuseMidfile then Refused(CORRUPT_RECORD)
    else if !config.truncateTail then Refused(INTEGRITY_FAILURE)
    else
      ScanIsLongestPrefix(file);
      Recovered(s.payloads, file[..s.length])
  }

  /** The default handling of damage, with the configured bound. */
  function Defaults(maxBytes: nat): StoreConfig { StoreConfig(true, true, maxBytes) }

  lemma ScanAll(ps: seq<seq<byte>>)
    requires AllSmall(ps)
    ensures Scan(FrameAll(ps)) == Scanned(ps, |FrameAll(ps)|, false)
  {
    ScanFrames(ps, []);
    assert FrameAll(ps) + [] == FrameAll(ps);
    assert Scan([]) == Scanned([], 0, false);
    assert ps + [] == ps;
  }

  lemma {:induction false} FrameAllAppend(ps: seq<seq<byte>>, p: seq<byte>)
    ensures FrameAll(ps + [p]) == FrameAll(ps) + JFrame(p)
  {
    hide JFrame;
    if ps == [] {
      assert [p][1..] == [];
      assert FrameAll([p]) == JFrame(p) + FrameAll([]);
    } else {
      assert (ps + [p])[1..] == ps[1..] + [p];
      FrameAllAppend(ps[1..], p);
    }
  }

  /** For every journal byte string, if recovery does not refuse it then the repaired file
      is exactly the recovered frames; recovering it again is clean and gives the same
      records, and one more append reads back as one more record, or exceeds the bound. */
  lemma RepairTheorem(file: seq<byte>, config: StoreConfig, p: seq<byte>)
    requires RecoverJournal(file, config).Recovered? && |p| <= MAX_RECORD
    ensures var r := RecoverJournal(file, config);
            && r.payloads == Scan(file).payloads && r.file == FrameAll(r.payloads)
            && RecoverJournal(r.file, config) == Recovered(r.payloads, r.file)
            && RecoverJournal(r.file + JFrame(p), config)
               == (if |r.file + JFrame(p)| > config.maxBytes then Refused(OVERSIZED)
                   else Recovered(r.payloads + [p], r.file + JFrame(p)))
  {
    hide Scan, FrameAll, JFrame, IntactAfter;
    var r := RecoverJournal(file, config);
    ScanIsLongestPrefix(file);
    assert !Scan(file).damaged ==> file[..Scan(file).length] == file;
    ScanAll(r.payloads);
    FrameAllAppend(r.payloads, p);
    assert AllSmall(r.payloads + [p]);
    ScanAll(r.payloads + [p]);
  }

  /** By default recovery refuses exactly the files beyond the bound and the damaged files
      that hold an intact-looking frame somewhere beyond the damage. */
  lemma RefusesIff(file: seq<byte>, max: nat)
    ensures RecoverJournal(file, Defaults(max)).Refused?
       <==> |file| > max || (Scan(file).length < |file| && IntactAfter(file, Scan(file).length))
  {
    hide Scan, IntactAfter;
    ScanIsLongestPrefix(file);
  }

  // ----- An interrupted append -----

  lemma PrefixFields(a: seq<byte>, k: nat, at: nat)
    requires k <= |a| && at + 4 <= k
    ensures U32At(a[..k], at) == U32At(a, at)
  {
    assert a[..k][at..at + 4] == a[at..at + 4];
  }

  /** A frame cut short reads as damage, never as a record. */
  lemma TornFrame(p: seq<byte>, k: nat)
    requires |p| <= MAX_RECORD && 0 < k < |JFrame(p)|
    ensures ReadHead(JFrame(p)[..k]).Damage?
  {
    hide Checksum, U32At, Header;
    var bs := JFrame(p)[..k];
    if k >= HEADER {
      HeaderFields(p, MAGIC, VERSION, p);
      PrefixFields(JFrame(p), k, 0);
      PrefixFields(JFrame(p), k, 4);
      PrefixFields(JFrame(p), k, 8);
    }
  }

  /** A torn append leaves exactly the earlier records to be read. */
  lemma TornScan(ps: seq<seq<byte>>, p: seq<byte>, k: nat)
    requires AllSmall(ps) && |p| <= MAX_RECORD && 0 < k < |JFrame(p)|
    ensures Scan(FrameAll(ps) + JFrame(p)[..k]) == Scanned(ps, |FrameAll(ps)|, true)
  {
    hide JFrame, FrameAll, ReadHead;
    TornFrame(p, k);
    ScanFrames(ps, JFrame(p)[..k]);
    assert ps + [] == ps;
  }

  /** So a torn append is repaired to the state before it, unless the part that reached the
      disk happens to contain an intact frame of its own or the bound was lowered since. */
  lemma TornAppendTheorem(ps: seq<seq<byte>>, p: seq<byte>, k: nat, max: nat)
    requires AllSmall(ps) && |p| <= MAX_RECORD && 0 < k < |JFrame(p)|
    ensures var file := FrameAll(ps) + JFrame(p)[..k];
            RecoverJournal(file, Defaults(max))
            == if |file| > max then Refused(OVERSIZED)
               else if IntactAfter(file, |FrameAll(ps)|) then Refused(CORRUPT_RECORD) else Recovered(ps, FrameAll(ps))
  {
    hide JFrame, FrameAll, Scan, IntactAfter;
    TornScan(ps, p, k);
    var file := FrameAll(ps) + JFrame(p)[..k];
    assert file[..|FrameAll(ps)|] == FrameAll(ps);
  }

  // ----- The file, its cursor, and recovery -----

  /** An open journal: the bytes on disk, the read cursor, and the configured bound. */
  class Journal {
    var file: seq<byte>
    var readOffset: nat
    const maxBytes: nat

    ghost predicate Valid() reads this { readOffset <= |file| }

    constructor (bytes: seq<byte>, bound: nat)
      ensures Valid() && file == bytes && readOffset == 0 && maxBytes == bound
    {
      file, readOffset, maxBytes := bytes, 0, bound;
    }

    /** The next record, advancing past it; damage leaves the cursor where it was. */
    method ReadNext() returns (h: Head)
      requires Valid()
      modifies this`readOffset
      ensures Valid() && h == ReadHead(old(file[readOffset..]))
      ensures readOffset == old(readOffset) + (if h.Record? then HEADER + |h.payload| else 0)
    {
      hide Checksum, U32At, FromLe;
      var ahead := file[readOffset..];
      if ahead == [] { return Eof; }
      if |ahead| < HEADER { return Damage(JOURNAL_TRUNCATED); }
      if U32At(ahead, 0) != MAGIC { return Damage(CORRUPT_RECORD); }
      if U32At(ahead, 4) != VERSION { return Damage(VERSION_MISMATCH); }
      var n := U32At(ahead, 8);
      if n > MAX_RECORD { return Damage(OVERSIZED); }
      if HEADER + n > |ahead| { return Damage(JOURNAL_TRUNCATED); }
      var payload := ahead[HEADER..HEADER + n];
      var actual := Compute(payload);
      if actual != U32At(ahead, 12) { return Damage(INTEGRITY_FAILURE); }
      readOffset := readOffset + HEADER + n;
      return Record(payload);
    }

    /** append: refused beyond the record bound or the file bound, else one whole frame. */
    method Append(payload: seq<byte>) returns (code: Code)
      modifies this`file
      ensures code == (if |payload| > MAX_RECORD then OVERSIZED
                       else if maxBytes != 0 && |old(file)| + HEADER + |payload| > maxBytes then EXHAUSTED else OK)
      ensures file == if code == OK then old(file) + JFrame(payload) else old(file)
    {
      if |payload| > MAX_RECORD { return OVERSIZED; }
      if maxBytes != 0 && |file| + HEADER + |payload| > maxBytes { return EXHAUSTED; }
      file := file + JFrame(payload);
      return OK;
    }

    method TruncateTo(offset: nat)
      requires offset <= |file|
      modifies this
      ensures file == old(file)[..offset] && Valid()
    {
      file := file[..offset];
      readOffset := 0;
    }

    method ProbeAt(at: nat) returns (hit: bool)
      requires at + HEADER <= |file|
      ensures hit == ProbeHit(file, at)
    {
      hide Checksum, FromLe;
      if U32At(file, at) != MAGIC || U32At(file, at + 4) != VERSION { return false; }
      if at + HEADER + U32At(file, at + 8) > |file| { return false; }
      var actual := Compute(file[at + HEADER..at + HEADER + U32At(file, at + 8)]);
      return actual == U32At(file, at + 12);
    }

    /** The probe loop: is there an intact frame anywhere after the damage? */
    method Probe(damage: nat) returns (hit: bool)
      ensures hit == IntactAfter(file, damage)
    {
      hide ProbeHit;
      var at := damage + 1;
      while at + HEADER <= |file|
        invariant at >= damage + 1
        invariant forall k: nat :: damage < k < at ==> !ProbeHit(file, k)
      {
        hit := ProbeAt(at);
        if hit { return true; }
        at := at + 1;
      }
      forall k: nat | at <= k ensures !ProbeHit(file, k) { ProbeShort(file, k); }
      return false;
    }

    /** recover: reads until the end or the first damage, then repairs or refuses. */
    method Recover(config: StoreConfig) returns (r: Recovered)
      requires Valid() && readOffset == 0
      modifies this
      ensures Valid() && r == RecoverJournal(old(file), config)
      ensures file == if r.Recovered? then r.file else old(file)
    {
      hide U32At, Checksum, ReadHead, IntactAfter;
      if |file| > config.maxBytes { return Refused(OVERSIZED); }
      var payloads: seq<seq<byte>> := [];
      var damaged, done := false, false;
      assert file[0..] == file;
      while !done
        invariant Valid() && file == old(file) && (damaged ==> done)
        invariant !done ==> Scan(file) == Joined(payloads, readOffset, Scan(file[readOffset..]))
        invariant done ==> Scan(file) == Scanned(payloads, readOffset, damaged)
        decreases !done, |file| - readOffset
      {
        ghost var before := readOffset;
        var h := ReadNext();
        match h
        case Eof =>
          done := true;
        case Damage(_) =>
          damaged, done := true, true;
        case Record(p) =>
          assert file[before..][HEADER + |p|..] == file[readOffset..];
          JoinedStep(payloads, before, p, Scan(file[readOffset..]));
          payloads := payloads + [p];
      }
      if !damaged { return Recovered(payloads, file); }
      var intact := Probe(readOffset);
      if intact && config.refuseMidfile { return Refused(CORRUPT_RECORD); }
      if !config.truncateTail { return Refused(INTEGRITY_FAILURE); }
      TruncateTo(readOffset);
      return Recovered(payloads, file);
    }
  }

  /** A scan resumed after some records were read. */
  ghost function Joined(payloads: seq<seq<byte>>, offset: nat, rest: Scanned): Scanned {
    Scanned(payloads + rest.payloads, offset + rest.length, rest.damaged)
  }

  lemma ProbeShort(bs: seq<byte>, at: nat)
    requires at + HEADER > |bs|
    ensures !ProbeHit(bs, at)
  {
  }

  lemma JoinedStep(payloads: seq<seq<byte>>, offset: nat, p: seq<byte>, rest: Scanned)
    ensures Joined(payloads, offset, Scanned([p] + rest.payloads, HEADER + |p| + rest.length, rest.damaged))
         == Joined(payloads + [p], offset + HEADER + |p|, rest)
  {
    assert payloads + ([p] + rest.payloads) == (payloads + [p]) + rest.payloads;
  }
}
