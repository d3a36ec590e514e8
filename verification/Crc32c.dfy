/** CRC-32C (Castagnoli), reflected polynomial 0x82F63B78, as section 12.1 of RFC 3720
    prescribes it, on 32-bit registers. */
module Crc32c {
  import opened Arithmetic

  type Word = bv32

  const POLYNOMIAL: Word := 0x82F63B78

  // ----- Register operations -----

  function Xor(a: Word, b: Word): Word { a ^ b }

  function Not(a: Word): Word { !a }

  function Half(c: Word): Word { c >> 1 }

  predicate Odd(c: Word) { c & 1 == 1 }

  predicate TopBit(c: Word) { c & 0x8000_0000 != 0 }

  /** The low byte of a register. */
  function LowByte(c: Word): Word { c & 0xFF }

  function HighBytes(c: Word): Word { c & 0xFFFF_FF00 }

  /** A register moved on by a byte, and back. */
  function Drop8(c: Word): Word { c >> 8 }

  function Raise8(c: Word): Word { c << 8 }

  /** A byte as the low eight bits of a register. */
  function Low(v: byte): Word { (v as bv8) as bv32 }

  lemma XorCancels(a: Word, b: Word, m: Word)
    requires Xor(a, m) == Xor(b, m)
    ensures a == b
  {
  }

  lemma XorCommutes(a: Word, b: Word)
    ensures Xor(a, b) == Xor(b, a)
  {
  }

  lemma XorAssociates(a: Word, b: Word, c: Word)
    ensures Xor(Xor(a, b), c) == Xor(a, Xor(b, c))
  {
  }

  lemma XorHalves(a: Word, b: Word)
    ensures Half(Xor(a, b)) == Xor(Half(a), Half(b)) && Odd(Xor(a, b)) == (Odd(a) != Odd(b))
  {
  }

  // ----- Registers and numbers -----

  /** The k-th byte of a register. */
  function ByteOf(c: Word, k: nat): (r: bv8)
    requires k < 4
  {
    var shifted := if k == 0 then c else if k == 1 then c >> 8 else if k == 2 then c >> 16 else c >> 24;
    (shifted & 0xFF) as bv8
  }

  function ByteNumber(b: bv8): (r: byte) { b as nat }

  /** The number a register stands for. */
  function Number(c: Word): (r: u32) {
    ByteNumber(ByteOf(c, 0)) + 0x100 * ByteNumber(ByteOf(c, 1))
    + 0x1_0000 * ByteNumber(ByteOf(c, 2)) + 0x100_0000 * ByteNumber(ByteOf(c, 3))
  }

  lemma ByteInjective(a: bv8, b: bv8)
    requires ByteNumber(a) == ByteNumber(b)
    ensures a == b
  {
  }

  lemma NumberInjective(a: Word, b: Word)
    requires Number(a) == Number(b)
    ensures a == b
  {
    hide ByteOf, ByteNumber;
    DigitsTell(ByteNumber(ByteOf(a, 0)), ByteNumber(ByteOf(a, 1)), ByteNumber(ByteOf(a, 2)), ByteNumber(ByteOf(a, 3)),
               ByteNumber(ByteOf(b, 0)), ByteNumber(ByteOf(b, 1)), ByteNumber(ByteOf(b, 2)), ByteNumber(ByteOf(b, 3)));
    ByteInjective(ByteOf(a, 0), ByteOf(b, 0));
    ByteInjective(ByteOf(a, 1), ByteOf(b, 1));
    ByteInjective(ByteOf(a, 2), ByteOf(b, 2));
    ByteInjective(ByteOf(a, 3), ByteOf(b, 3));
    BytesTell(a, b);
  }

  lemma DigitsTell(a0: byte, a1: byte, a2: byte, a3: byte, b0: byte, b1: byte, b2: byte, b3: byte)
    requires a0 + 0x100 * a1 + 0x1_0000 * a2 + 0x100_0000 * a3 == b0 + 0x100 * b1 + 0x1_0000 * b2 + 0x100_0000 * b3
    ensures a0 == b0 && a1 == b1 && a2 == b2 && a3 == b3
  {
    DigitTells(a0, a1 + 0x100 * (a2 + 0x100 * a3), b0, b1 + 0x100 * (b2 + 0x100 * b3));
    DigitTells(a1, a2 + 0x100 * a3, b1, b2 + 0x100 * b3);
    DigitTells(a2, a3, b2, b3);
  }

  lemma DigitTells(a: byte, above: nat, b: byte, beyond: nat)
    requires a + 0x100 * above == b + 0x100 * beyond
    ensures a == b && above == beyond
  {
  }

  lemma BytesTell(a: Word, b: Word)
    requires ByteOf(a, 0) == ByteOf(b, 0) && ByteOf(a, 1) == ByteOf(b, 1)
    requires ByteOf(a, 2) == ByteOf(b, 2) && ByteOf(a, 3) == ByteOf(b, 3)
    ensures a == b
  {
  }

  // ----- The bitwise definition -----

  /** One step of the division by an arbitrary polynomial. */
  function Step(p: Word, c: Word): Word { if Odd(c) then Xor(p, Half(c)) else Half(c) }

  function Steps(p: Word, n: nat, c: Word): Word {
    if n == 0 then c else Steps(p, n - 1, Step(p, c))
  }

  /** Feeding bytes one at a time, eight bitwise steps per byte: the reference form. */
  function Feed(p: Word, c: Word, data: seq<byte>): Word
    decreases data
  {
    if data == [] then c else Feed(p, Steps(p, 8, Xor(c, Low(data[0]))), data[1..])
  }

  function RegisterOf(p: Word, data: seq<byte>): Word { Not(Feed(p, Not(0), data)) }

  /** The CRC-32C of a byte string. */
  function Checksum(data: seq<byte>): (r: u32) { Number(RegisterOf(POLYNOMIAL, data)) }

  // ----- The published polynomial and check value -----

  /** The term x^k of a polynomial in reflected form: the highest bit stands for x^0. */
  function Term(k: bv6): Word
    requires k < 32
  {
    1 << (31 - k)
  }

  /** x^32 + x^28 + x^27 + x^26 + x^25 + x^23 + x^22 + x^20 + x^19 + x^18 + x^14 + x^13 + x^11
      + x^10 + x^9 + x^8 + x^6 + 1, the leading term being implied. */
  lemma PublishedPolynomial()
    ensures POLYNOMIAL
         == Term(28) | Term(27) | Term(26) | Term(25) | Term(23) | Term(22) | Term(20) | Term(19) | Term(18)
          | Term(14) | Term(13) | Term(11) | Term(10) | Term(9) | Term(8) | Term(6) | Term(0)
  {
  }

  /** Eight steps written out. */
  function EightOf(p: Word, c: Word): Word {
    Step(p, Step(p, Step(p, Step(p, Step(p, Step(p, Step(p, Step(p, c))))))))
  }

  lemma FourMore(p: Word, n: nat, c: Word)
    ensures Steps(p, n + 4, c) == Steps(p, n, Step(p, Step(p, Step(p, Step(p, c)))))
  {
    hide Step;
    assert Steps(p, n + 3, Step(p, c)) == Steps(p, n + 2, Step(p, Step(p, c)));
  }

  lemma EightIs(p: Word, c: Word)
    ensures Steps(p, 8, c) == EightOf(p, c)
  {
    hide Step;
    var c4 := Step(p, Step(p, Step(p, Step(p, c))));
    FourMore(p, 4, c);
    FourMore(p, 0, c4);
  }

  lemma FeedOne(p: Word, c: Word, v: byte, data: seq<byte>)
    requires data != [] && data[0] == v
    ensures Feed(p, c, data) == Feed(p, EightOf(p, Xor(c, Low(v))), data[1..])
  {
    hide Step, EightOf, Low, Xor, Steps;
    EightIs(p, Xor(c, Low(v)));
  }

  /** The registers after each digit of the published check. */
  lemma DigitRegisters()
    ensures EightOf(POLYNOMIAL, Xor(0xFFFF_FFFF, Low(49))) == 0x6F0A_661C
    ensures EightOf(POLYNOMIAL, Xor(0x6F0A_661C, Low(50))) == 0x8CAA_3B9F
    ensures EightOf(POLYNOMIAL, Xor(0x8CAA_3B9F, Low(51))) == 0xEF84_D04D
    ensures EightOf(POLYNOMIAL, Xor(0xEF84_D04D, Low(52))) == 0x09C5_0B11
    ensures EightOf(POLYNOMIAL, Xor(0x09C5_0B11, Low(53))) == 0xE72E_DCCA
    ensures EightOf(POLYNOMIAL, Xor(0xE72E_DCCA, Low(54))) == 0xBECA_8E79
    ensures EightOf(POLYNOMIAL, Xor(0xBECA_8E79, Low(55))) == 0xEDBD_6815
    ensures EightOf(POLYNOMIAL, Xor(0xEDBD_6815, Low(56))) == 0x9F78_7F65
    ensures EightOf(POLYNOMIAL, Xor(0x9F78_7F65, Low(57))) == 0x1CF9_6D7C
  {
    assert Xor(0xFFFF_FFFF, Low(49)) == 0xFFFF_FFCE;
    assert Xor(0x6F0A_661C, Low(50)) == 0x6F0A_662E;
    assert Xor(0x8CAA_3B9F, Low(51)) == 0x8CAA_3BAC;
    assert Xor(0xEF84_D04D, Low(52)) == 0xEF84_D079;
    assert Xor(0x09C5_0B11, Low(53)) == 0x09C5_0B24;
    assert Xor(0xE72E_DCCA, Low(54)) == 0xE72E_DCFC;
    assert Xor(0xBECA_8E79, Low(55)) == 0xBECA_8E4E;
    assert Xor(0xEDBD_6815, Low(56)) == 0xEDBD_682D;
    assert Xor(0x9F78_7F65, Low(57)) == 0x9F78_7F5C;
  }

  lemma FirstDigits(data: seq<byte>)
    requires |data| == 9 && data[..5] == [49, 50, 51, 52, 53]
    ensures Feed(POLYNOMIAL, 0xFFFF_FFFF, data) == Feed(POLYNOMIAL, 0xE72E_DCCA, data[5..])
  {
    hide Feed, EightOf, Low, Xor, POLYNOMIAL;
    DigitRegisters();
    assert forall i :: 0 <= i < 5 ==> data[i] == data[..5][i];
    FeedOne(POLYNOMIAL, 0xFFFF_FFFF, 49, data);
    FeedOne(POLYNOMIAL, 0x6F0A_661C, 50, data[1..]);
    assert data[1..][1..] == data[2..];
    FeedOne(POLYNOMIAL, 0x8CAA_3B9F, 51, data[2..]);
    assert data[2..][1..] == data[3..];
    FeedOne(POLYNOMIAL, 0xEF84_D04D, 52, data[3..]);
    assert data[3..][1..] == data[4..];
    FeedOne(POLYNOMIAL, 0x09C5_0B11, 53, data[4..]);
    assert data[4..][1..] == data[5..];
  }

  lemma LastDigits(data: seq<byte>)
    requires data == [54, 55, 56, 57]
    ensures Feed(POLYNOMIAL, 0xE72E_DCCA, data) == 0x1CF9_6D7C
  {
    hide Feed, EightOf, Low, Xor, POLYNOMIAL;
    DigitRegisters();
    FeedOne(POLYNOMIAL, 0xE72E_DCCA, 54, data);
    FeedOne(POLYNOMIAL, 0xBECA_8E79, 55, data[1..]);
    assert data[1..][1..] == data[2..];
    FeedOne(POLYNOMIAL, 0xEDBD_6815, 56, data[2..]);
    assert data[2..][1..] == data[3..];
    FeedOne(POLYNOMIAL, 0x9F78_7F65, 57, data[3..]);
    assert data[3..][1..] == [];
    FeedNone(POLYNOMIAL, 0x1CF9_6D7C);
  }

  lemma CheckNumber()
    ensures Number(Not(0x1CF9_6D7C)) == 0xE306_9283
  {
    var w := Not(0x1CF9_6D7C);
    assert ByteOf(w, 0) == 0x83 && ByteOf(w, 1) == 0x92 && ByteOf(w, 2) == 0x06 && ByteOf(w, 3) == 0xE3;
  }

  /** The published check value: the checksum of the digits one to nine. */
  lemma CheckValue()
    ensures Checksum([49, 50, 51, 52, 53, 54, 55, 56, 57]) == 0xE306_9283
  {
    hide Feed;
    var data: seq<byte> := [49, 50, 51, 52, 53, 54, 55, 56, 57];
    FirstDigits(data);
    LastDigits(data[5..]);
    assert Feed(POLYNOMIAL, 0xFFFF_FFFF, data) == 0x1CF9_6D7C;
    CheckNumber();
    assert Not(0) == 0xFFFF_FFFF;
  }

  lemma FeedNone(p: Word, c: Word)
    ensures Feed(p, c, []) == c
  {
  }

  lemma EmptyChecksum()
    ensures Checksum([]) == 0
  {
    FeedNone(POLYNOMIAL, Not(0));
    assert Not(Not(0)) == 0;
    assert ByteOf(0, 0) == 0 && ByteOf(0, 1) == 0 && ByteOf(0, 2) == 0 && ByteOf(0, 3) == 0;
  }

  // ----- The table-driven form agrees with the bitwise form -----

  /** Shifted right by n, one bit at a time. */
  function Shifted(c: Word, n: nat): Word { if n == 0 then c else Shifted(Half(c), n - 1) }

  /** The n lowest bits are clear. */
  predicate LowClear(c: Word, n: nat) { n == 0 || (!Odd(c) && LowClear(Half(c), n - 1)) }

  lemma StepPasses(p: Word, x: Word, h: Word)
    requires !Odd(h)
    ensures Step(p, Xor(x, h)) == Xor(Step(p, x), Half(h))
  {
    hide Xor, Half, Odd;
    XorHalves(x, h);
    XorAssociates(p, Half(x), Half(h));
  }

  /** Bits above the lowest n pass through n steps unchanged, merely shifted. */
  lemma {:induction false} StepsPass(p: Word, n: nat, x: Word, h: Word)
    requires LowClear(h, n)
    ensures Steps(p, n, Xor(x, h)) == Xor(Steps(p, n, x), Shifted(h, n))
  {
    hide Xor, Half, Odd, Step;
    if n > 0 {
      StepPasses(p, x, h);
      StepsPass(p, n - 1, Step(p, x), Half(h));
    }
  }

  lemma FourShifted(h: Word, n: nat)
    ensures Shifted(h, n + 4) == Shifted(h >> 4, n)
  {
    FourHalves(h);
    hide Half;
    assert Shifted(Half(h), n + 3) == Shifted(Half(Half(h)), n + 2);
    assert Shifted(Half(Half(h)), n + 2) == Shifted(Half(Half(Half(h))), n + 1);
  }

  lemma FourHalves(h: Word)
    ensures Half(Half(Half(Half(h)))) == h >> 4
    ensures (h & 0xF == 0) == (!Odd(h) && !Odd(Half(h)) && !Odd(Half(Half(h))) && !Odd(Half(Half(Half(h)))))
  {
  }

  lemma FourClear(h: Word, n: nat)
    requires h & 0xF == 0 && LowClear(h >> 4, n)
    ensures LowClear(h, n + 4)
  {
    FourHalves(h);
    hide Half, Odd;
    assert LowClear(Half(Half(h)), n + 2);
  }

  lemma ShiftedIsDrop(h: Word)
    ensures Shifted(h, 8) == Drop8(h)
  {
    FourShifted(h, 4);
    FourShifted(h >> 4, 0);
  }

  lemma ClearIsByte(h: Word)
    requires LowByte(h) == 0
    ensures LowClear(h, 8)
  {
    FourClear(h >> 4, 0);
    FourClear(h, 4);
  }

  lemma EightPass(p: Word, x: Word, h: Word)
    requires LowByte(h) == 0
    ensures Steps(p, 8, Xor(x, h)) == Xor(Steps(p, 8, x), Drop8(h))
  {
    hide Steps, Xor, Drop8, LowByte, Shifted, LowClear;
    ClearIsByte(h);
    ShiftedIsDrop(h);
    StepsPass(p, 8, x, h);
  }

  /** One table lookup (the entry of the low byte, combined with the register moved on by a
      byte) equals eight bitwise steps, for every register and every byte. */
  lemma TableStepIsEightSteps(p: Word, c: Word, v: byte)
    ensures Xor(Steps(p, 8, LowByte(Xor(c, Low(v)))), Drop8(c)) == Steps(p, 8, Xor(c, Low(v)))
  {
    hide Steps, Low, Xor, Drop8, LowByte, HighBytes;
    var x := Xor(c, Low(v));
    LowIsLow(v);
    LookupSplits(c, Low(v));
    EightPass(p, LowByte(x), HighBytes(x));
  }

  lemma LowIsLow(v: byte)
    ensures LowByte(Low(v)) == Low(v)
  {
  }

  lemma LookupSplits(c: Word, w: Word)
    requires LowByte(w) == w
    ensures Xor(LowByte(Xor(c, w)), HighBytes(Xor(c, w))) == Xor(c, w)
    ensures LowByte(HighBytes(Xor(c, w))) == 0 && Drop8(HighBytes(Xor(c, w))) == Drop8(c)
  {
    BytesSplit(Xor(c, w));
    HighOfXor(c, w);
    DropOfHigh(c);
  }

  lemma BytesSplit(x: Word)
    ensures Xor(LowByte(x), HighBytes(x)) == x && LowByte(HighBytes(x)) == 0
  {
  }

  lemma HighOfXor(c: Word, w: Word)
    requires LowByte(w) == w
    ensures HighBytes(Xor(c, w)) == HighBytes(c)
  {
  }

  lemma DropOfHigh(c: Word)
    ensures Drop8(HighBytes(c)) == Drop8(c)
  {
  }

  /** The inner loop that fills one table entry. */
  method EightSteps(p: Word, start: Word) returns (c: Word)
    ensures c == Steps(p, 8, start)
  {
    hide Step;
    c := start;
    var k := 0;
    while k < 8
      invariant 0 <= k <= 8
      invariant Steps(p, 8 - k, c) == Steps(p, 8, start)
    {
      c := Step(p, c);
      k := k + 1;
    }
  }

  /** The lookup table: 256 entries, entry i being eight steps from the register i. */
  method BuildTable(p: Word) returns (table: array<Word>)
    ensures fresh(table) && table.Length == 256
    ensures forall i: byte :: table[i] == Steps(p, 8, Low(i))
  {
    hide Steps, Low;
    table := new Word[256](_ => 0);
    var i := 0;
    while i < 256
      invariant 0 <= i <= 256
      invariant forall j: byte :: j < i ==> table[j] == Steps(p, 8, Low(j))
    {
      var c := EightSteps(p, Low(i));
      table[i] := c;
      i := i + 1;
    }
  }

  lemma IndexBack(b: bv8)
    ensures ByteNumber(b) as bv8 == b
  {
  }

  /** The low byte of a register as a table index. */
  function IndexOf(x: Word): (i: byte)
    ensures Low(i) == LowByte(x)
  {
    IndexBack((x & 0xFF) as bv8);
    ByteNumber((x & 0xFF) as bv8)
  }

  /** The byte loop of the source, driven by the table. */
  method Update(p: Word, table: array<Word>, crc: Word, data: seq<byte>) returns (c: Word)
    requires table.Length == 256
    requires forall i: byte :: table[i] == Steps(p, 8, Low(i))
    ensures c == Feed(p, crc, data)
  {
    hide Steps, Low, Xor, Drop8, LowByte, IndexOf;
    c := crc;
    var i := 0;
    while i < |data|
      invariant 0 <= i <= |data|
      invariant Feed(p, c, data[i..]) == Feed(p, crc, data)
    {
      var index := IndexOf(Xor(c, Low(data[i])));
      TableStepIsEightSteps(p, c, data[i]);
      c := Xor(table[index], Drop8(c));
      assert data[i..][1..] == data[i + 1..];
      i := i + 1;
    }
  }

  /** The table-driven computation of the source returns the bitwise checksum. */
  method Compute(data: seq<byte>) returns (r: u32)
    ensures r == Checksum(data)
    ensures data == [49, 50, 51, 52, 53, 54, 55, 56, 57] ==> r == 0xE306_9283
  {
    hide Feed, Number;
    CheckValue();
    var table := BuildTable(POLYNOMIAL);
    var c := Update(POLYNOMIAL, table, Not(0), data);
    r := Number(Not(c));
  }

  // ----- The step is a bijection on the register -----

  /** A polynomial whose top bit is set records there the bit that was shifted out. */
  lemma StepInjective(p: Word, a: Word, b: Word)
    requires TopBit(p) && Step(p, a) == Step(p, b)
    ensures a == b
  {
    hide Xor, Half, Odd, TopBit;
    StepRecords(p, a);
    StepRecords(p, b);
    XorCommutes(p, Half(a));
    XorCommutes(p, Half(b));
    if Odd(a) { XorCancels(Half(a), Half(b), p); }
    HalfOdd(a, b);
  }

  lemma StepRecords(p: Word, a: Word)
    requires TopBit(p)
    ensures TopBit(Step(p, a)) == Odd(a)
  {
  }

  lemma HalfOdd(a: Word, b: Word)
    requires Half(a) == Half(b) && Odd(a) == Odd(b)
    ensures a == b
  {
  }

  lemma {:induction false} StepsInjective(p: Word, n: nat, a: Word, b: Word)
    requires TopBit(p) && Steps(p, n, a) == Steps(p, n, b)
    ensures a == b
  {
    hide Step, TopBit;
    if n > 0 {
      StepsInjective(p, n - 1, Step(p, a), Step(p, b));
      StepInjective(p, a, b);
    }
  }

  /** Feeding the same bytes keeps distinct registers distinct. */
  lemma {:induction false} FeedInjective(p: Word, a: Word, b: Word, data: seq<byte>)
    requires TopBit(p) && Feed(p, a, data) == Feed(p, b, data)
    ensures a == b
    decreases data
  {
    hide Steps, Low, Xor, TopBit;
    if data != [] {
      var m := Low(data[0]);
      FeedInjective(p, Steps(p, 8, Xor(a, m)), Steps(p, 8, Xor(b, m)), data[1..]);
      StepsInjective(p, 8, Xor(a, m), Xor(b, m));
      XorCancels(a, b, m);
    }
  }

  lemma {:induction false} FeedConcat(p: Word, c: Word, x: seq<byte>, y: seq<byte>)
    ensures Feed(p, c, x + y) == Feed(p, Feed(p, c, x), y)
    decreases x
  {
    hide Steps, Low, Xor;
    if x == [] {
      assert x + y == y;
    } else {
      assert (x + y)[1..] == x[1..] + y;
      FeedConcat(p, Steps(p, 8, Xor(c, Low(x[0]))), x[1..], y);
    }
  }

  // ----- A burst of four bytes is always detected -----

  lemma LowInjective(x: byte, y: byte)
    requires Low(x) == Low(y)
    ensures x == y
  {
    hide ByteNumber;
    assert x as bv8 == y as bv8;
    BackFromByte(x);
    BackFromByte(y);
  }

  lemma BackFromByte(x: byte)
    ensures ByteNumber(x as bv8) == x
  {
  }

  /** A byte deferred by eight steps: xor-ing it after them is xor-ing it eight bits higher
      before them. */
  lemma DeferByte(p: Word, r: Word, a: Word, w: Word)
    requires Drop8(Raise8(w)) == w
    ensures Xor(Steps(p, 8, Xor(r, a)), w) == Steps(p, 8, Xor(r, Xor(a, Raise8(w))))
  {
    hide Steps, Xor, Raise8, Drop8, LowByte;
    RaisedIsClear(w);
    EightPass(p, Xor(r, a), Raise8(w));
    XorAssociates(r, a, Raise8(w));
  }

  lemma RaisedIsClear(w: Word)
    ensures LowByte(Raise8(w)) == 0
  {
  }

  /** Four bytes as one 32-bit word. */
  function FourBytes(a: Word, b: Word, c: Word, d: Word): Word {
    Xor(a, Raise8(Xor(b, Raise8(Xor(c, Raise8(d))))))
  }

  lemma FourFit(a: Word, b: Word, c: Word, d: Word)
    requires LowByte(a) == a && LowByte(b) == b && LowByte(c) == c && LowByte(d) == d
    ensures Drop8(Raise8(d)) == d && Drop8(Raise8(Xor(c, Raise8(d)))) == Xor(c, Raise8(d))
    ensures Drop8(Raise8(Xor(b, Raise8(Xor(c, Raise8(d)))))) == Xor(b, Raise8(Xor(c, Raise8(d))))
  {
    hide Xor, Raise8, Drop8;
    ThirdFits(c, d);
    SecondFits(b, Xor(c, Raise8(d)));
    RaisedDrops(d);
    RaisedDrops(Xor(c, Raise8(d)));
    RaisedDrops(Xor(b, Raise8(Xor(c, Raise8(d)))));
  }

  lemma RaisedDrops(w: Word)
    requires w & 0xFF00_0000 == 0
    ensures Drop8(Raise8(w)) == w
  {
  }

  lemma ThirdFits(c: Word, d: Word)
    requires LowByte(c) == c && LowByte(d) == d
    ensures d & 0xFF00_0000 == 0 && Xor(c, Raise8(d)) & 0xFFFF_0000 == 0
  {
  }

  lemma SecondFits(b: Word, cd: Word)
    requires LowByte(b) == b && cd & 0xFFFF_0000 == 0
    ensures cd & 0xFF00_0000 == 0 && Xor(b, Raise8(cd)) & 0xFF00_0000 == 0
  {
  }

  function Four8(p: Word, c: Word): Word { Steps(p, 8, Steps(p, 8, Steps(p, 8, Steps(p, 8, c)))) }

  /** Four bytes act on the register as one 32-bit word. */
  lemma FourActAsOne(p: Word, r: Word, a: Word, b: Word, c: Word, d: Word)
    requires LowByte(a) == a && LowByte(b) == b && LowByte(c) == c && LowByte(d) == d
    ensures Steps(p, 8, Xor(Steps(p, 8, Xor(Steps(p, 8, Xor(Steps(p, 8, Xor(r, a)), b)), c)), d))
         == Four8(p, Xor(r, FourBytes(a, b, c, d)))
  {
    hide Steps, Xor, Raise8, Drop8, LowByte;
    FourFit(a, b, c, d);
    var cd := Xor(c, Raise8(d));
    var bcd := Xor(b, Raise8(cd));
    var r1 := Steps(p, 8, Xor(r, a));
    DeferByte(p, Steps(p, 8, Xor(r1, b)), c, d);
    DeferByte(p, r1, b, cd);
    DeferByte(p, r, a, bcd);
  }

  function WordOf(d: seq<byte>): Word
    requires |d| == 4
  {
    FourBytes(Low(d[0]), Low(d[1]), Low(d[2]), Low(d[3]))
  }

  lemma FeedFour(p: Word, r: Word, d: seq<byte>)
    requires |d| == 4
    ensures Feed(p, r, d) == Four8(p, Xor(r, WordOf(d)))
  {
    hide Steps, Low, FourBytes, Xor, LowByte, Four8;
    LowIsLow(d[0]);
    LowIsLow(d[1]);
    LowIsLow(d[2]);
    LowIsLow(d[3]);
    FourActAsOne(p, r, Low(d[0]), Low(d[1]), Low(d[2]), Low(d[3]));
    FourFeeds(p, r, d);
  }

  lemma FourFeeds(p: Word, r: Word, d: seq<byte>)
    requires |d| == 4
    ensures Feed(p, r, d)
         == Steps(p, 8, Xor(Steps(p, 8, Xor(Steps(p, 8, Xor(Steps(p, 8, Xor(r, Low(d[0]))), Low(d[1]))), Low(d[2]))), Low(d[3])))
  {
    hide Steps, Low, Xor;
    assert d[1..][1..] == d[2..] && d[2..][1..] == d[3..] && d[3..][1..] == [];
    var r1 := Steps(p, 8, Xor(r, Low(d[0])));
    var r2 := Steps(p, 8, Xor(r1, Low(d[1])));
    var r3 := Steps(p, 8, Xor(r2, Low(d[2])));
    assert Feed(p, r, d) == Feed(p, r1, d[1..]);
    assert Feed(p, r1, d[1..]) == Feed(p, r2, d[2..]);
    assert Feed(p, r2, d[2..]) == Feed(p, r3, d[3..]);
    FeedNone(p, Steps(p, 8, Xor(r3, Low(d[3]))));
  }

  lemma FourBytesInjective(a: Word, b: Word, c: Word, d: Word, a': Word, b': Word, c': Word, d': Word)
    requires LowByte(a) == a && LowByte(b) == b && LowByte(c) == c && LowByte(d) == d
    requires LowByte(a') == a' && LowByte(b') == b' && LowByte(c') == c' && LowByte(d') == d'
    requires FourBytes(a, b, c, d) == FourBytes(a', b', c', d')
    ensures a == a' && b == b' && c == c' && d == d'
  {
  }

  lemma WordOfInjective(x: seq<byte>, y: seq<byte>)
    requires |x| == |y| == 4 && WordOf(x) == WordOf(y)
    ensures x == y
  {
    hide Low, FourBytes, LowByte;
    forall i | 0 <= i < 4 ensures LowByte(Low(x[i])) == Low(x[i]) && LowByte(Low(y[i])) == Low(y[i]) {
      LowIsLow(x[i]);
      LowIsLow(y[i]);
    }
    FourBytesInjective(Low(x[0]), Low(x[1]), Low(x[2]), Low(x[3]), Low(y[0]), Low(y[1]), Low(y[2]), Low(y[3]));
    LowInjective(x[0], y[0]);
    LowInjective(x[1], y[1]);
    LowInjective(x[2], y[2]);
    LowInjective(x[3], y[3]);
  }

  lemma Four8Injective(p: Word, a: Word, b: Word)
    requires TopBit(p) && Four8(p, a) == Four8(p, b)
    ensures a == b
  {
    hide Steps, TopBit;
    var a2, b2 := Steps(p, 8, Steps(p, 8, a)), Steps(p, 8, Steps(p, 8, b));
    StepsInjective(p, 8, Steps(p, 8, a2), Steps(p, 8, b2));
    StepsInjective(p, 8, a2, b2);
    StepsInjective(p, 8, Steps(p, 8, a), Steps(p, 8, b));
    StepsInjective(p, 8, a, b);
  }

  lemma ShortBurst(p: Word, c: Word, x: seq<byte>, y: seq<byte>)
    requires TopBit(p) && |x| == |y| <= 4 && Feed(p, c, x) == Feed(p, c, y)
    ensures x == y
  {
    hide Feed, Four8, WordOf, Xor, TopBit;
    var pad: seq<byte> := seq(4 - |x|, _ => 0);
    var wx, wy := WordOf(x + pad), WordOf(y + pad);
    FeedConcat(p, c, x, pad);
    FeedConcat(p, c, y, pad);
    FeedFour(p, c, x + pad);
    FeedFour(p, c, y + pad);
    Four8Injective(p, Xor(c, wx), Xor(c, wy));
    XorCommutes(c, wx);
    XorCommutes(c, wy);
    XorCancels(wx, wy, c);
    WordOfInjective(x + pad, y + pad);
    assert x == (x + pad)[..|x|];
    assert y == (y + pad)[..|y|];
  }

  lemma NotInjective(a: Word, b: Word)
    requires Not(a) == Not(b)
    ensures a == b
  {
  }

  lemma BurstDetectedBy(p: Word, prefix: seq<byte>, x: seq<byte>, y: seq<byte>, suffix: seq<byte>)
    requires TopBit(p) && |x| == |y| <= 4
    requires RegisterOf(p, prefix + x + suffix) == RegisterOf(p, prefix + y + suffix)
    ensures x == y
  {
    hide Feed, Not, TopBit;
    var init := Not(0);
    var c := Feed(p, init, prefix);
    FeedConcat(p, init, prefix, x);
    FeedConcat(p, init, prefix + x, suffix);
    FeedConcat(p, init, prefix, y);
    FeedConcat(p, init, prefix + y, suffix);
    NotInjective(Feed(p, init, prefix + x + suffix), Feed(p, init, prefix + y + suffix));
    FeedInjective(p, Feed(p, c, x), Feed(p, c, y), suffix);
    ShortBurst(p, c, x, y);
  }

  lemma PolynomialTopBit()
    ensures TopBit(POLYNOMIAL)
  {
  }

  /** Byte strings that differ only inside one window of at most four bytes, and do
      differ there, have different checksums. */
  lemma BurstDetected(prefix: seq<byte>, x: seq<byte>, y: seq<byte>, suffix: seq<byte>)
    requires |x| == |y| <= 4 && x != y
    ensures Checksum(prefix + x + suffix) != Checksum(prefix + y + suffix)
  {
    hide RegisterOf, Number, TopBit;
    PolynomialTopBit();
    if Checksum(prefix + x + suffix) == Checksum(prefix + y + suffix) {
      NumberInjective(RegisterOf(POLYNOMIAL, prefix + x + suffix), RegisterOf(POLYNOMIAL, prefix + y + suffix));
      BurstDetectedBy(POLYNOMIAL, prefix, x, y, suffix);
    }
  }
}
