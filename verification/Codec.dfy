/** The canonical byte encoding: fixed-width little-endian integers, one-byte flags and
    length-prefixed strings, written by ByteWriter and read back by ByteReader. */
module Codec {
  import opened Arithmetic

  // ----- Little-endian integers -----

  function Power(n: nat): (p: nat)
    ensures p > 0
  {
    if n == 0 then 1 else 256 * Power(n - 1)
  }

  lemma Powers()
    ensures Power(1) == 256 && Power(2) == 65536 && Power(4) == TWO32 && Power(8) == TWO64
  {
    assert Power(2) == 256 * Power(1);
    assert Power(3) == 256 * Power(2);
    assert Power(4) == 256 * Power(3);
    assert Power(5) == 256 * Power(4);
    assert Power(6) == 256 * Power(5);
    assert Power(7) == 256 * Power(6);
  }

  /** The n low bytes of v, least significant first. */
  function Le(v: nat, n: nat): (bs: seq<byte>)
    ensures |bs| == n
  {
    if n == 0 then [] else [v % 256] + Le(v / 256, n - 1)
  }

  function FromLe(bs: seq<byte>): nat {
    if bs == [] then 0 else bs[0] + 256 * FromLe(bs[1..])
  }

  lemma {:induction false} FromLeBound(bs: seq<byte>)
    ensures FromLe(bs) < Power(|bs|)
  {
    if bs != [] { FromLeBound(bs[1..]); }
  }

  lemma {:induction false} LeRoundTrip(v: nat, n: nat)
    requires v < Power(n)
    ensures FromLe(Le(v, n)) == v
    decreases n
  {
    if n > 0 {
      LeRoundTrip(v / 256, n - 1);
      assert Le(v, n)[1..] == Le(v / 256, n - 1);
    }
  }

  lemma {:induction false} LeCanonical(bs: seq<byte>)
    ensures Le(FromLe(bs), |bs|) == bs
  {
    if bs != [] {
      LeCanonical(bs[1..]);
      assert FromLe(bs) % 256 == bs[0] && FromLe(bs) / 256 == FromLe(bs[1..]);
    }
  }

  // ----- Fields -----

  const MAX_STRING: nat := 4096

  /** How one field is laid out. Enumerations are single bytes checked against their
      largest value. */
  datatype Kind = K8(max: nat) | K16(max: nat) | K32 | K64 | KFlag | KText(max: nat)

  datatype Atom = A8(v8: byte) | A16(v16: u16) | A32(v32: u32) | A64(v64: u64) | AFlag(flag: bool) | AText(text: seq<byte>)

  predicate Fits(a: Atom, k: Kind) {
    match k
    case K8(max) => a.A8? && a.v8 <= max
    case K16(max) => a.A16? && a.v16 <= max
    case K32 => a.A32?
    case K64 => a.A64?
    case KFlag => a.AFlag?
    case KText(max) => a.AText? && |a.text| <= max && |a.text| <= MAX_STRING
  }

  function Put(a: Atom): seq<byte> {
    match a
    case A8(v) => [v]
    case A16(v) => Le(v, 2)
    case A32(v) => Le(v, 4)
    case A64(v) => Le(v, 8)
    case AFlag(b) => [if b then 1 else 0]
    case AText(t) => Le(|t|, 4) + t
  }

  datatype Read<T> = Short | Got(value: T, rest: seq<byte>)

  /** n bytes as an integer. */
  function GetLe(bs: seq<byte>, n: nat): Read<nat> {
    if |bs| < n then Short else Got(FromLe(bs[..n]), bs[n..])
  }

  function GetText(bs: seq<byte>, max: nat): Read<Atom> {
    match GetLe(bs, 4)
    case Short => Short
    case Got(n, rest) =>
      if n > max || n > MAX_STRING || |rest| < n then Short else Got(AText(rest[..n]), rest[n..])
  }

  function Get(bs: seq<byte>, k: Kind): Read<Atom> {
    match k
    case K8(max) => if |bs| < 1 || bs[0] > max then Short else Got(A8(bs[0]), bs[1..])
    case K16(max) =>
      if |bs| < 2 then Short else
        LeBounded(bs[..2], 2);
        if FromLe(bs[..2]) > max then Short else Got(A16(FromLe(bs[..2])), bs[2..])
    case K32 => if |bs| < 4 then Short else LeBounded(bs[..4], 4); Got(A32(FromLe(bs[..4])), bs[4..])
    case K64 => if |bs| < 8 then Short else LeBounded(bs[..8], 8); Got(A64(FromLe(bs[..8])), bs[8..])
    case KFlag => if |bs| < 1 || bs[0] > 1 then Short else Got(AFlag(bs[0] != 0), bs[1..])
    case KText(max) => GetText(bs, max)
  }

  lemma LeBounded(bs: seq<byte>, n: nat)
    requires |bs| == n
    ensures FromLe(bs) < Power(n)
    ensures n == 2 ==> FromLe(bs) < 65536
    ensures n == 4 ==> FromLe(bs) < TWO32
    ensures n == 8 ==> FromLe(bs) < TWO64
  {
    FromLeBound(bs);
    Powers();
  }

  lemma PrefixLe(v: nat, n: nat, rest: seq<byte>)
    requires v < Power(n)
    ensures |Le(v, n) + rest| >= n && FromLe((Le(v, n) + rest)[..n]) == v && (Le(v, n) + rest)[n..] == rest
  {
    assert (Le(v, n) + rest)[..n] == Le(v, n);
    LeRoundTrip(v, n);
  }

  /** What was put is what is got, whatever follows. */
  lemma GetPut(a: Atom, k: Kind, rest: seq<byte>)
    requires Fits(a, k)
    ensures Get(Put(a) + rest, k) == Got(a, rest)
  {
    hide Le, FromLe, Power;
    Powers();
    match a
    case A8(v) =>
    case A16(v) => PrefixLe(v, 2, rest);
    case A32(v) => PrefixLe(v, 4, rest);
    case A64(v) => PrefixLe(v, 8, rest);
    case AFlag(b) =>
    case AText(t) =>
      assert Put(a) + rest == Le(|t|, 4) + (t + rest);
      PrefixLe(|t|, 4, t + rest);
  }

  /** What is got was put: a field has only one encoding. */
  lemma PutGet(bs: seq<byte>, k: Kind)
    requires Get(bs, k).Got?
    ensures Fits(Get(bs, k).value, k) && bs == Put(Get(bs, k).value) + Get(bs, k).rest
  {
    match k
    case K8(max) =>
    case K16(max) => LeCanonical(bs[..2]);
    case K32 => LeCanonical(bs[..4]);
    case K64 => LeCanonical(bs[..8]);
    case KFlag =>
    case KText(max) => LeCanonical(bs[..4]);
  }

  // ----- Records: sequences of fields -----

  predicate AllFit(atoms: seq<Atom>, kinds: seq<Kind>) {
    |atoms| == |kinds| && forall i :: 0 <= i < |kinds| ==> Fits(atoms[i], kinds[i])
  }

  function Encode(atoms: seq<Atom>): seq<byte> {
    if atoms == [] then [] else Put(atoms[0]) + Encode(atoms[1..])
  }

  function Decode(bs: seq<byte>, kinds: seq<Kind>): Read<seq<Atom>>
    decreases |kinds|
  {
    if kinds == [] then Got([], bs)
    else
      match Get(bs, kinds[0])
      case Short => Short
      case Got(a, rest) =>
        match Decode(rest, kinds[1..])
        case Short => Short
        case Got(atoms, left) => Got([a] + atoms, left)
  }

  /** Decoding inverts encoding and is self-delimiting. */
  lemma {:induction false} DecodeEncode(atoms: seq<Atom>, kinds: seq<Kind>, rest: seq<byte>)
    requires AllFit(atoms, kinds)
    ensures Decode(Encode(atoms) + rest, kinds) == Got(atoms, rest)
    decreases |kinds|
  {
    hide Get, Put, Fits;
    if kinds == [] {
      assert Encode(atoms) + rest == rest;
    } else {
      var tail := Encode(atoms[1..]) + rest;
      assert Encode(atoms) + rest == Put(atoms[0]) + tail;
      GetPut(atoms[0], kinds[0], tail);
      DecodeEncode(atoms[1..], kinds[1..], rest);
      assert atoms == [atoms[0]] + atoms[1..];
    }
  }

  /** And only encodings decode. */
  lemma {:induction false} EncodeDecode(bs: seq<byte>, kinds: seq<Kind>)
    requires Decode(bs, kinds).Got?
    ensures AllFit(Decode(bs, kinds).value, kinds)
    ensures bs == Encode(Decode(bs, kinds).value) + Decode(bs, kinds).rest
    decreases |kinds|
  {
    hide Get, Put, Fits;
    if kinds != [] {
      PutGet(bs, kinds[0]);
      var got := Get(bs, kinds[0]);
      EncodeDecode(got.rest, kinds[1..]);
      var tail := Decode(got.rest, kinds[1..]);
      assert Decode(bs, kinds).value[1..] == tail.value;
    }
  }

  lemma {:induction false} EncodeConcat(a: seq<Atom>, b: seq<Atom>)
    ensures Encode(a + b) == Encode(a) + Encode(b)
  {
    if a == [] {
      assert a + b == b;
    } else {
      assert (a + b)[1..] == a[1..] + b;
      EncodeConcat(a[1..], b);
    }
  }

  lemma EncodeStep(before: seq<byte>, atoms: seq<Atom>, i: nat)
    requires i < |atoms|
    ensures before + Encode(atoms[i..]) == (before + Put(atoms[i])) + Encode(atoms[i + 1..])
  {
    hide Put;
    assert atoms[i..][1..] == atoms[i + 1..];
  }

  lemma EncodeNone(before: seq<byte>, atoms: seq<Atom>)
    ensures before + Encode(atoms[|atoms|..]) == before
  {
  }

  lemma DecodeStep(bs: seq<byte>, kinds: seq<Kind>, i: nat, atoms: seq<Atom>)
    requires i < |kinds|
    ensures Get(bs, kinds[i]).Short? ==> Decode(bs, kinds[i..]).Short?
    ensures Get(bs, kinds[i]).Got? ==>
              Prepend(atoms, Decode(bs, kinds[i..]))
              == Prepend(atoms + [Get(bs, kinds[i]).value], Decode(Get(bs, kinds[i]).rest, kinds[i + 1..]))
  {
    hide Get;
    assert kinds[i..][1..] == kinds[i + 1..];
    if Get(bs, kinds[i]).Got? {
      var tail := Decode(Get(bs, kinds[i]).rest, kinds[i + 1..]);
      if tail.Got? {
        assert atoms + ([Get(bs, kinds[i]).value] + tail.value) == (atoms + [Get(bs, kinds[i]).value]) + tail.value;
      }
    }
  }

  lemma DecodeNone(bs: seq<byte>, kinds: seq<Kind>, atoms: seq<Atom>)
    ensures Prepend(atoms, Decode(bs, kinds[|kinds|..])) == Got(atoms, bs)
  {
    assert atoms + [] == atoms;
  }

  lemma PrependNone(r: Read<seq<Atom>>)
    ensures Prepend([], r) == r
  {
    if r.Got? { assert [] + r.value == r.value; }
  }

  // ----- The writer and the reader -----

  /** Appends to a byte buffer; a string beyond its bound latches failure. */
  class ByteWriter {
    var buffer: seq<byte>
    var failed: bool

    constructor ()
      ensures buffer == [] && !failed
    {
      buffer, failed := [], false;
    }

    /** put_u16, put_u32 and put_u64: one byte at a time, lowest first. */
    method PutLe(v: nat, width: nat)
      modifies this`buffer
      ensures buffer == old(buffer) + Le(v, width)
    {
      var shifted, i := v, 0;
      while i < width
        invariant 0 <= i <= width
        invariant old(buffer) + Le(v, width) == buffer + Le(shifted, width - i)
      {
        buffer := buffer + [shifted % 256];
        shifted, i := shifted / 256, i + 1;
      }
      assert buffer + Le(shifted, 0) == buffer;
    }

    /** put_str: an oversized string is not written and poisons the writer. */
    method PutText(t: seq<byte>, max: nat)
      modifies this
      ensures !old(failed) && |t| <= max && |t| <= MAX_STRING ==> !failed && buffer == old(buffer) + Put(AText(t))
      ensures old(failed) || |t| > max || |t| > MAX_STRING ==> failed && buffer == old(buffer)
    {
      if !failed {
        if |t| > max || |t| > MAX_STRING {
          failed := true;
        } else {
          PutLe(|t|, 4);
          buffer := buffer + t;
        }
      }
    }

    /** One field of a record. */
    method PutField(a: Atom, k: Kind)
      requires Fits(a, k)
      modifies this
      ensures !old(failed) ==> !failed && buffer == old(buffer) + Put(a)
    {
      match a
      case A8(v) => buffer := buffer + [v];
      case A16(v) => PutLe(v, 2);
      case A32(v) => PutLe(v, 4);
      case A64(v) => PutLe(v, 8);
      case AFlag(b) => buffer := buffer + [if b then 1 else 0];
      case AText(t) => PutText(t, k.max);
    }

    /** The encode_* functions: every field in order. */
    method PutRecord(atoms: seq<Atom>, kinds: seq<Kind>)
      requires AllFit(atoms, kinds)
      modifies this
      ensures !old(failed) ==> !failed && buffer == old(buffer) + Encode(atoms)
    {
      hide Put, Fits, Encode;
      var i := 0;
      assert atoms[0..] == atoms;
      while i < |atoms|
        invariant 0 <= i <= |atoms|
        invariant !old(failed) ==> !failed && old(buffer) + Encode(atoms) == buffer + Encode(atoms[i..])
      {
        EncodeStep(buffer, atoms, i);
        PutField(atoms[i], kinds[i]);
        i := i + 1;
      }
      EncodeNone(buffer, atoms);
    }
  }

  /** Advances over a byte string; a short read latches failure and nothing is read after. */
  class ByteReader {
    const data: seq<byte>
    var offset: nat
    var failed: bool

    ghost predicate Valid() reads this { offset <= |data| }

    /** What is still to be read. */
    ghost function Ahead(): seq<byte>
      requires Valid()
      reads this
    {
      data[offset..]
    }

    constructor (bytes: seq<byte>)
      ensures Valid() && data == bytes && offset == 0 && !failed
    {
      data, offset, failed := bytes, 0, false;
    }

    predicate Empty() reads this { !failed && offset == |data| }

    /** The length check before every read. */
    method Require(count: nat) returns (ok: bool)
      requires Valid()
      modifies this`failed
      ensures ok == (!old(failed) && count <= |data| - offset)
      ensures failed == !ok
    {
      if failed { return false; }
      if count > |data| - offset { failed := true; return false; }
      return true;
    }

    /** get_u16, get_u32 and get_u64. */
    method GetLittle(width: nat) returns (ok: bool, v: nat)
      requires Valid()
      modifies this
      ensures Valid() && ok == !failed && (old(failed) ==> failed)
      ensures !old(failed) ==> ok == (|old(Ahead())| >= width)
      ensures ok ==> GetLe(old(Ahead()), width) == Got(v, Ahead())
    {
      v := 0;
      ok := Require(width);
      if ok {
        ghost var ahead := data[offset..];
        var scale, i := 1, 0;
        while i < width
          invariant offset == old(offset) && !failed
          invariant 0 <= i <= width <= |ahead| && ahead == data[offset..] && scale == Power(i)
          invariant v + scale * FromLe(ahead[i..width]) == FromLe(ahead[..width])
        {
          assert ahead[i..width][1..] == ahead[i + 1..width];
          assert data[offset + i] == ahead[i..width][0];
          Rescale(v, scale, data[offset + i], FromLe(ahead[i + 1..width]));
          v, scale := v + data[offset + i] * scale, 256 * scale;
          i := i + 1;
        }
        offset := offset + width;
      }
    }

    /** One field of a record. */
    method GetField(k: Kind) returns (ok: bool, a: Atom)
      requires Valid()
      modifies this
      ensures Valid() && (old(failed) ==> !ok)
      ensures !old(failed) ==> ok == Get(old(Ahead()), k).Got?
      ensures ok ==> !failed && Get(old(Ahead()), k) == Got(a, Ahead())
    {
      a := AFlag(false);
      ghost var ahead := data[offset..];
      match k
      case K8(max) =>
        ok := Require(1);
        if ok {
          var b := data[offset];
          offset := offset + 1;
          ok, a := b <= max, A8(b);
        }
      case K16(max) =>
        var v;
        ok, v := GetLittle(2);
        if ok {
          LeBounded(ahead[..2], 2);
          ok, a := v <= max, A16(v);
        }
      case K32 =>
        var v;
        ok, v := GetLittle(4);
        if ok {
          LeBounded(ahead[..4], 4);
          a := A32(v);
        }
      case K64 =>
        var v;
        ok, v := GetLittle(8);
        if ok {
          LeBounded(ahead[..8], 8);
          a := A64(v);
        }
      case KFlag =>
        ok := Require(1);
        if ok {
          var b := data[offset];
          offset := offset + 1;
          if b > 1 { failed, ok := true, false; } else { a := AFlag(b != 0); }
        }
      case KText(max) => ok, a := GetString(max);
    }

    /** get_str: the length is checked before anything is read. */
    method GetString(max: nat) returns (ok: bool, a: Atom)
      requires Valid()
      modifies this
      ensures Valid() && (old(failed) ==> !ok)
      ensures !old(failed) ==> ok == GetText(old(Ahead()), max).Got?
      ensures ok ==> !failed && GetText(old(Ahead()), max) == Got(a, Ahead())
    {
      a := AFlag(false);
      var n;
      ghost var ahead := data[offset..];
      ok, n := GetLittle(4);
      if ok {
        assert data[offset..] == ahead[4..];
        if n > max || n > MAX_STRING {
          failed, ok := true, false;
        } else {
          ok := Require(n);
          if ok {
            assert data[offset..][..n] == data[offset..offset + n] && data[offset..][n..] == data[offset + n..];
            a := AText(data[offset..offset + n]);
            offset := offset + n;
          }
        }
      }
    }

    /** The decode_* functions: every field in order, stopping at the first failure. */
    method GetRecord(kinds: seq<Kind>) returns (ok: bool, atoms: seq<Atom>)
      requires Valid() && !failed
      modifies this
      ensures Valid() && ok == Decode(old(Ahead()), kinds).Got?
      ensures ok ==> !failed && Decode(old(Ahead()), kinds) == Got(atoms, Ahead())
    {
      hide Get, Decode;
      atoms, ok := [], true;
      var i := 0;
      assert kinds[0..] == kinds;
      PrependNone(Decode(Ahead(), kinds));
      while i < |kinds| && ok
        invariant 0 <= i <= |kinds| && Valid()
        invariant ok ==> !failed && Prepend(atoms, Decode(Ahead(), kinds[i..])) == Decode(old(Ahead()), kinds)
        invariant !ok ==> Decode(old(Ahead()), kinds).Short?
      {
        var a;
        DecodeStep(Ahead(), kinds, i, atoms);
        ok, a := GetField(kinds[i]);
        if ok {
          atoms := atoms + [a];
        }
        i := i + 1;
      }
      if ok { DecodeNone(Ahead(), kinds, atoms); }
    }
  }

  lemma Rescale(v: nat, scale: nat, b: nat, rest: nat)
    ensures v + scale * (b + 256 * rest) == v + b * scale + 256 * scale * rest
  {
  }

  ghost function Prepend(atoms: seq<Atom>, r: Read<seq<Atom>>): Read<seq<Atom>> {
    if r.Short? then Short else Got(atoms + r.value, r.rest)
  }
}
