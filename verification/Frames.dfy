/** Framing: a record travels with a magic number, a version, its length and its CRC-32C. */
module Frames {
  import opened Arithmetic
  import opened Model
  import opened Codec
  import opened Crc32c

  const HEADER: nat := 16

  function U32At(bs: seq<byte>, at: nat): (v: u32)
    requires at + 4 <= |bs|
  {
    LeBounded(bs[at..at + 4], 4);
    FromLe(bs[at..at + 4])
  }

  function Header(payload: seq<byte>, magic: u32, version: u32): (h: seq<byte>)
    ensures |h| == HEADER
  {
    Le(magic, 4) + Le(version, 4) + Le(|payload| % TWO32, 4) + Le(Checksum(payload), 4)
  }

  /** encode_frame. */
  function Frame(payload: seq<byte>, magic: u32, version: u32): seq<byte> { Header(payload, magic, version) + payload }

  datatype Unframed = Bad(code: Code) | Good(payload: seq<byte>, consumed: nat)

  /** decode_frame. */
  function DecodeFrame(data: seq<byte>, magic: u32, version: u32, max: nat): Unframed {
    if |data| < HEADER then Bad(TRUNCATED)
    else if U32At(data, 0) != magic then Bad(CORRUPT_RECORD)
    else if U32At(data, 4) != version then Bad(VERSION_MISMATCH)
    else
      var n := U32At(data, 8);
      if n > max then Bad(OVERSIZED)
      else if |data| - HEADER < n then Bad(TRUNCATED)
      else if Checksum(data[HEADER..HEADER + n]) != U32At(data, 12) then Bad(INTEGRITY_FAILURE)
      else Good(data[HEADER..HEADER + n], HEADER + n)
  }

  lemma U32Of(before: seq<byte>, v: u32, after: seq<byte>)
    ensures U32At(before + Le(v, 4) + after, |before|) == v
  {
    var bs := before + Le(v, 4) + after;
    assert bs[|before|..|before| + 4] == Le(v, 4);
    Powers();
    LeRoundTrip(v, 4);
  }

  /** The four numbers of a header are read back. */
  lemma HeaderFields(payload: seq<byte>, magic: u32, version: u32, rest: seq<byte>)
    ensures var bs := Header(payload, magic, version) + rest;
            && U32At(bs, 0) == magic && U32At(bs, 4) == version
            && U32At(bs, 8) == |payload| % TWO32 && U32At(bs, 12) == Checksum(payload)
  {
    hide Le, Checksum, U32At;
    var a, b, c, d := Le(magic, 4), Le(version, 4), Le(|payload| % TWO32, 4), Le(Checksum(payload), 4);
    var bs := Header(payload, magic, version) + rest;
    assert bs == [] + a + (b + c + d + rest);
    U32Of([], magic, b + c + d + rest);
    assert bs == a + b + (c + d + rest);
    U32Of(a, version, c + d + rest);
    assert bs == (a + b) + c + (d + rest);
    U32Of(a + b, |payload| % TWO32, d + rest);
    assert bs == (a + b + c) + d + rest;
    U32Of(a + b + c, Checksum(payload), rest);
  }

  /** A frame is read back exactly, and what follows it is left alone. */
  lemma FrameRoundTrip(payload: seq<byte>, magic: u32, version: u32, max: nat, rest: seq<byte>)
    requires |payload| <= max && |payload| < TWO32
    ensures DecodeFrame(Frame(payload, magic, version) + rest, magic, version, max) == Good(payload, HEADER + |payload|)
  {
    hide Checksum, U32At, Header;
    var bs := Frame(payload, magic, version) + rest;
    assert bs == Header(payload, magic, version) + (payload + rest);
    HeaderFields(payload, magic, version, payload + rest);
    assert bs[HEADER..HEADER + |payload|] == payload;
  }

  /** Only frames are accepted: what is read off the front of the data is the frame of the payload
      returned, byte for byte, and within the bound. */
  lemma OnlyFramesRead(data: seq<byte>, magic: u32, version: u32, max: nat)
    requires DecodeFrame(data, magic, version, max).Good?
    ensures var r := DecodeFrame(data, magic, version, max);
            && |r.payload| <= max && r.consumed == HEADER + |r.payload| <= |data|
            && data[..r.consumed] == Frame(r.payload, magic, version)
  {
    hide Checksum, Le, FromLe;
    var p := DecodeFrame(data, magic, version, max).payload;
    LeCanonical(data[0..4]);
    LeCanonical(data[4..8]);
    LeCanonical(data[8..12]);
    LeCanonical(data[12..16]);
    assert data[..HEADER] == data[0..4] + data[4..8] + data[8..12] + data[12..16];
    assert data[..HEADER + |p|] == data[..HEADER] + p;
  }

  /** Any change confined to four consecutive bytes of the payload is reported as an
      integrity failure, for every payload. */
  lemma BurstIsIntegrityFailure(prefix: seq<byte>, x: seq<byte>, y: seq<byte>, suffix: seq<byte>, magic: u32,
                                version: u32, max: nat)
    requires |x| == |y| <= 4 && x != y && |prefix + x + suffix| <= max && |prefix + x + suffix| < TWO32
    ensures DecodeFrame(Header(prefix + x + suffix, magic, version) + (prefix + y + suffix), magic, version, max)
         == Bad(INTEGRITY_FAILURE)
  {
    hide Checksum, U32At, Header;
    var sent, got := prefix + x + suffix, prefix + y + suffix;
    var bs := Header(sent, magic, version) + got;
    HeaderFields(sent, magic, version, got);
    BurstDetected(prefix, x, y, suffix);
    assert bs[HEADER..HEADER + |sent|] == got;
  }
}
