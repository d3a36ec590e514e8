/** The snapshot: a checksummed container around one full image of the durable state. */
module SnapshotFile {
  import opened Arithmetic
  import opened Model
  import opened Codec
  import opened Records
  import opened Crc32c
  import opened Frames

  const SNAPSHOT_MAGIC: u32 := 0x42465331
  const END_MAGIC: u32 := 0x42465345
  const FORMAT_VERSION: u32 := 1
  const HEAD: nat := 48
  const TRAILER: nat := 12

  // ----- The container -----

  datatype SnapshotHeader = SnapshotHeader(flags: u32, epoch: u64, boot: Boot, recordCount: u64)

  function HeaderKinds(): seq<Kind> { [K32, K32, K32, K32, K64, K64, K64, K64] }

  function HeaderAtoms(h: SnapshotHeader, size: u32): seq<Atom> {
    [A32(SNAPSHOT_MAGIC), A32(FORMAT_VERSION), A32(h.flags), A32(size), N(h.epoch), N(h.boot.hi), N(h.boot.lo), N(h.recordCount)]
  }

  lemma HeaderSize(h: SnapshotHeader, size: u32)
    ensures AllFit(HeaderAtoms(h, size), HeaderKinds()) && |Encode(HeaderAtoms(h, size))| == HEAD
  {
    var a := HeaderAtoms(h, size);
    EncodeConcat(a[..4], a[4..]);
    assert a == a[..4] + a[4..];
    FourWords(a[0], a[1], a[2], a[3], 4);
    FourWords(a[4], a[5], a[6], a[7], 8);
    assert a[..4] == [a[0], a[1], a[2], a[3]] && a[4..] == [a[4], a[5], a[6], a[7]];
  }

  lemma FourWords(a: Atom, b: Atom, c: Atom, d: Atom, w: nat)
    requires |Put(a)| == w && |Put(b)| == w && |Put(c)| == w && |Put(d)| == w
    ensures |Encode([a, b, c, d])| == 4 * w
  {
    hide Put;
    assert [a, b, c, d][1..] == [b, c, d] && [b, c, d][1..] == [c, d] && [c, d][1..] == [d] && [d][1..] == [];
    assert Encode([d]) == Put(d) + Encode([]);
    assert Encode([c, d]) == Put(c) + Encode([d]);
    assert Encode([b, c, d]) == Put(b) + Encode([c, d]);
  }

  /** encode_snapshot. */
  function EncodeSnapshot(h: SnapshotHeader, payload: seq<byte>): seq<byte> {
    var head := Encode(HeaderAtoms(h, |payload| % TWO32));
    head + payload + (Le(Checksum(payload), 4) + Le(Checksum(head), 4) + Le(END_MAGIC, 4))
  }

  datatype Opened = Unusable(code: Code) | Opened(header: SnapshotHeader, payload: seq<byte>)

  datatype RawHeader = RawHeader(magic: u32, version: u32, size: u32, header: SnapshotHeader)

  function RawFrom(a: seq<Atom>): RawHeader
    requires AllFit(a, HeaderKinds())
  {
    RawHeader(a[0].v32, a[1].v32, a[3].v32, SnapshotHeader(a[2].v32, a[4].v64, Boot(a[5].v64, a[6].v64), a[7].v64))
  }

  lemma RawInverse(h: SnapshotHeader, size: u32)
    ensures AllFit(HeaderAtoms(h, size), HeaderKinds())
    ensures RawFrom(HeaderAtoms(h, size)) == RawHeader(SNAPSHOT_MAGIC, FORMAT_VERSION, size, h)
  {
  }

  /** decode_snapshot. */
  function DecodeSnapshot(data: seq<byte>, max: nat): Opened {
    if |data| < HEAD + TRAILER then Unusable(CORRUPT_RECORD)
    else
      match Fields(data, HeaderKinds())
      case Short => Unusable(CORRUPT_RECORD)
      case Got(a, _) => OpenBody(data, RawFrom(a), max)
  }

  function OpenBody(data: seq<byte>, raw: RawHeader, max: nat): Opened
    requires |data| >= HEAD + TRAILER
  {
    var n := raw.size;
    if raw.magic != SNAPSHOT_MAGIC then Unusable(CORRUPT_RECORD)
    else if raw.version != FORMAT_VERSION then Unusable(VERSION_MISMATCH)
    else if n > max then Unusable(SNAPSHOT_OVERSIZED)
    else if |data| < HEAD + n + TRAILER then Unusable(CORRUPT_RECORD)
    else if U32At(data, HEAD + n + 8) != END_MAGIC then Unusable(CORRUPT_RECORD)
    else if U32At(data, HEAD + n + 4) != Checksum(data[..HEAD]) then Unusable(INTEGRITY_FAILURE)
    else if U32At(data, HEAD + n) != Checksum(data[HEAD..HEAD + n]) then Unusable(INTEGRITY_FAILURE)
    else Opened(raw.header, data[HEAD..HEAD + n])
  }

  lemma TrailerFields(front: seq<byte>, x: u32, y: u32, z: u32)
    ensures var bs := front + (Le(x, 4) + Le(y, 4) + Le(z, 4));
            && |bs| == |front| + TRAILER && U32At(bs, |front|) == x && U32At(bs, |front| + 4) == y
            && U32At(bs, |front| + 8) == z
  {
    hide Le, U32At;
    var bs := front + (Le(x, 4) + Le(y, 4) + Le(z, 4));
    assert bs == front + Le(x, 4) + (Le(y, 4) + Le(z, 4));
    U32Of(front, x, Le(y, 4) + Le(z, 4));
    assert bs == (front + Le(x, 4)) + Le(y, 4) + Le(z, 4);
    U32Of(front + Le(x, 4), y, Le(z, 4));
    assert bs == (front + Le(x, 4) + Le(y, 4)) + Le(z, 4) + [];
    U32Of(front + Le(x, 4) + Le(y, 4), z, []);
  }

  /** A container opens to exactly the header and payload it was made of. */
  lemma SnapshotRoundTrip(h: SnapshotHeader, payload: seq<byte>, max: nat)
    requires |payload| <= max && |payload| < TWO32
    ensures DecodeSnapshot(EncodeSnapshot(h, payload), max) == Opened(h, payload)
    ensures |EncodeSnapshot(h, payload)| == HEAD + |payload| + TRAILER
  {
    hide Le, U32At, Encode, Checksum, Fields, HeaderAtoms, HeaderKinds, RawFrom;
    var head := Encode(HeaderAtoms(h, |payload|));
    var trailer := Le(Checksum(payload), 4) + Le(Checksum(head), 4) + Le(END_MAGIC, 4);
    var data := EncodeSnapshot(h, payload);
    HeaderSize(h, |payload|);
    assert data == head + (payload + trailer);
    FieldsOf(HeaderAtoms(h, |payload|), HeaderKinds(), payload + trailer);
    TrailerFields(head + payload, Checksum(payload), Checksum(head), END_MAGIC);
    assert data[..HEAD] == head && data[HEAD..HEAD + |payload|] == payload;
    RawInverse(h, |payload|);
  }

  lemma HeaderRead(data: seq<byte>)
    requires |data| >= HEAD && Fields(data, HeaderKinds()).Got?
    ensures var a := Fields(data, HeaderKinds()).value;
            && RawFrom(a).magic == SNAPSHOT_MAGIC && RawFrom(a).version == FORMAT_VERSION ==>
                 data[..HEAD] == Encode(HeaderAtoms(RawFrom(a).header, RawFrom(a).size))
  {
    hide Encode, HeaderAtoms, HeaderKinds, RawFrom, Decode;
    EncodeDecode(data, HeaderKinds());
    var got := Fields(data, HeaderKinds());
    var raw := RawFrom(got.value);
    if raw.magic == SNAPSHOT_MAGIC && raw.version == FORMAT_VERSION {
      RawExact(got.value);
      HeaderSize(raw.header, raw.size);
      assert data == Encode(got.value) + got.rest;
    }
  }

  lemma RawExact(a: seq<Atom>)
    requires AllFit(a, HeaderKinds()) && RawFrom(a).magic == SNAPSHOT_MAGIC && RawFrom(a).version == FORMAT_VERSION
    ensures a == HeaderAtoms(RawFrom(a).header, RawFrom(a).size)
  {
    var b := HeaderAtoms(RawFrom(a).header, RawFrom(a).size);
    assert |a| == 8;
    assert Fits(a[0], K32) && Fits(a[1], K32) && Fits(a[2], K32) && Fits(a[3], K32);
    assert Fits(a[4], K64) && Fits(a[5], K64) && Fits(a[6], K64) && Fits(a[7], K64);
    forall i | 0 <= i < 8 ensures a[i] == b[i] {}
  }

  lemma TrailerRead(data: seq<byte>, at: nat)
    requires at + TRAILER <= |data|
    ensures data[at..at + TRAILER] == Le(U32At(data, at), 4) + Le(U32At(data, at + 4), 4) + Le(U32At(data, at + 8), 4)
  {
    hide Le, FromLe;
    LeCanonical(data[at..at + 4]);
    LeCanonical(data[at + 4..at + 8]);
    LeCanonical(data[at + 8..at + 12]);
    assert data[at..at + TRAILER] == data[at..at + 4] + data[at + 4..at + 8] + data[at + 8..at + 12];
  }

  /** Only containers open: what opens starts with the container of the header and payload
      returned, byte for byte, and the payload is within the bound. */
  lemma OnlyContainersOpen(data: seq<byte>, max: nat)
    requires DecodeSnapshot(data, max).Opened?
    ensures var r := DecodeSnapshot(data, max);
            && |r.payload| <= max && HEAD + |r.payload| + TRAILER <= |data|
            && data[..HEAD + |r.payload| + TRAILER] == EncodeSnapshot(r.header, r.payload)
  {
    hide Le, U32At, Encode, Checksum, Fields, HeaderAtoms, HeaderKinds, RawFrom;
    HeaderRead(data);
    var p := DecodeSnapshot(data, max).payload;
    TrailerRead(data, HEAD + |p|);
    assert data[..HEAD + |p| + TRAILER] == data[..HEAD] + p + data[HEAD + |p|..HEAD + |p| + TRAILER];
  }

  /** read_file_bounded bounds the whole file, write_snapshot only the payload: a snapshot
      that was written is read back if and only if the container also fits the bound. */
  function WriteSnapshot(h: SnapshotHeader, payload: seq<byte>, max: nat): Opened {
    if |payload| > max then Unusable(SNAPSHOT_OVERSIZED) else Opened(h, EncodeSnapshot(h, payload))
  }

  function ReadSnapshot(file: seq<byte>, max: nat): Opened {
    if |file| > max then Unusable(OVERSIZED) else DecodeSnapshot(file, max)
  }

  lemma SnapshotReadableIff(h: SnapshotHeader, payload: seq<byte>, max: nat)
    requires |payload| <= max < TWO32
    ensures WriteSnapshot(h, payload, max).Opened?
    ensures ReadSnapshot(WriteSnapshot(h, payload, max).payload, max)
         == if |payload| + HEAD + TRAILER <= max then Opened(h, payload) else Unusable(OVERSIZED)
  {
    hide EncodeSnapshot, DecodeSnapshot;
    SnapshotRoundTrip(h, payload, max);
  }

  // ----- Lists of items -----

  function PutAll<T>(items: seq<T>, enc: T -> seq<byte>): seq<byte> {
    if items == [] then [] else enc(items[0]) + PutAll(items[1..], enc)
  }

  function GetAll<T>(bs: seq<byte>, n: nat, dec: seq<byte> -> Read<T>): Read<seq<T>>
    decreases n
  {
    if n == 0 then Got([], bs)
    else
      match dec(bs)
      case Short => Short
      case Got(x, rest) =>
        match GetAll(rest, n - 1, dec)
        case Short => Short
        case Got(xs, left) => Got([x] + xs, left)
  }

  /** A decoder undoes an encoder on x, whatever follows. */
  ghost predicate Undoes<T(!new)>(x: T, enc: T -> seq<byte>, dec: seq<byte> -> Read<T>) {
    forall rest: seq<byte> :: dec(enc(x) + rest) == Got(x, rest)
  }

  lemma {:induction false} GetPutAll<T(!new)>(items: seq<T>, enc: T -> seq<byte>, dec: seq<byte> -> Read<T>, rest: seq<byte>)
    requires forall i :: 0 <= i < |items| ==> Undoes(items[i], enc, dec)
    ensures GetAll(PutAll(items, enc) + rest, |items|, dec) == Got(items, rest)
    decreases |items|
  {
    if items == [] {
      assert PutAll(items, enc) + rest == rest;
    } else {
      var tail := PutAll(items[1..], enc) + rest;
      assert PutAll(items, enc) + rest == enc(items[0]) + tail;
      assert Undoes(items[0], enc, dec);
      assert dec(enc(items[0]) + tail) == Got(items[0], tail);
      GetPutAll(items[1..], enc, dec, rest);
      assert items == [items[0]] + items[1..];
    }
  }

  /** A counted list: the count, then the items. */
  function PutSection<T>(items: seq<T>, enc: T -> seq<byte>): seq<byte> { Le(|items| % TWO32, 4) + PutAll(items, enc) }

  function GetSection<T>(bs: seq<byte>, max: nat, dec: seq<byte> -> Read<T>): Read<seq<T>> {
    match GetLe(bs, 4)
    case Short => Short
    case Got(n, rest) => if n > max then Short else GetAll(rest, n, dec)
  }

  lemma SectionRoundTrip<T(!new)>(items: seq<T>, enc: T -> seq<byte>, dec: seq<byte> -> Read<T>, max: nat, rest: seq<byte>)
    requires |items| <= max < TWO32
    requires forall i :: 0 <= i < |items| ==> Undoes(items[i], enc, dec)
    ensures GetSection(PutSection(items, enc) + rest, max, dec) == Got(items, rest)
  {
    hide PutAll, GetAll;
    Powers();
    var tail := PutAll(items, enc) + rest;
    assert PutSection(items, enc) + rest == Le(|items|, 4) + tail;
    PrefixLe(|items|, 4, tail);
    GetPutAll(items, enc, dec, rest);
  }

  // ----- Tables as lists -----

  /** The values of a table, in the order its keys are listed. */
  function Values<T>(m: map<u64, T>, order: seq<u64>): seq<T>
    requires forall i :: 0 <= i < |order| ==> order[i] in m
  {
    seq(|order|, i requires 0 <= i < |order| => m[order[i]])
  }

  /** Storing items one by one under their own keys. */
  function Collect<T>(items: seq<T>, key: T -> u64): map<u64, T> {
    if items == [] then map[]
    else Collect(items[..|items| - 1], key)[key(items[|items| - 1]) := items[|items| - 1]]
  }

  /** A listing of a table's keys; the source leaves the order to its hash map. */
  ghost predicate Lists<T>(order: seq<u64>, m: map<u64, T>) {
    && (forall i :: 0 <= i < |order| ==> order[i] in m)
    && (forall i, j :: 0 <= i < j < |order| ==> order[i] != order[j])
    && (forall k :: k in m ==> k in order)
  }

  lemma {:induction false} CollectValues<T>(m: map<u64, T>, order: seq<u64>, key: T -> u64)
    requires forall i :: 0 <= i < |order| ==> order[i] in m && key(m[order[i]]) == order[i]
    ensures var c := Collect(Values(m, order), key);
            forall k :: (k in c <==> k in order) && (k in c ==> k in m && c[k] == m[k])
    decreases |order|
  {
    if order != [] {
      var n := |order| - 1;
      var front := order[..n];
      assert Values(m, order)[..n] == Values(m, front);
      CollectValues(m, front, key);
      assert order == front + [order[n]];
      assert Collect(Values(m, order), key) == Collect(Values(m, front), key)[order[n] := m[order[n]]];
    }
  }

  /** Whatever the listing order, the table is restored exactly. */
  lemma TableRestored<T>(m: map<u64, T>, order: seq<u64>, key: T -> u64)
    requires Lists(order, m) && forall k :: k in m ==> key(m[k]) == k
    ensures Collect(Values(m, order), key) == m
  {
    hide Collect, Values;
    CollectValues(m, order, key);
    var c := Collect(Values(m, order), key);
    assert forall k :: k in order ==> k in m;
    assert c.Keys == m.Keys;
  }
}
