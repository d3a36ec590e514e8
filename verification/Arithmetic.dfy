/** 64-bit unsigned arithmetic as the runtime performs it: wrap-around where the
    source adds without a check, saturation or a reported overflow where it does
    check, and the exact 128-bit product comparison. */
module Arithmetic {

  const TWO32: int := 0x1_0000_0000
  const TWO60: int := 0x1000_0000_0000_0000
  const TWO61: int := 0x2000_0000_0000_0000
  const TWO64: int := 0x1_0000_0000_0000_0000
  const MAX_U64: int := TWO64 - 1

  type u64 = x: int | 0 <= x < 0x1_0000_0000_0000_0000 witness 0
  type byte = x: int | 0 <= x < 256 witness 0
  type u16 = x: int | 0 <= x < 65536 witness 0
  type u32 = x: int | 0 <= x < 0x1_0000_0000 witness 0

  /** Unchecked u64 arithmetic: the mathematical value reduced modulo 2^64. */
  function Wrap(x: int): (r: u64)
    ensures 0 <= x < TWO64 ==> r == x
  {
    if 0 <= x < TWO64 then x else x % TWO64
  }

  function Min(a: int, b: int): int { if a <= b then a else b }

  predicate AddOverflows(a: u64, b: u64) { Wrap(a + b) < a }

  lemma AddOverflowIsExact(a: u64, b: u64)
    ensures AddOverflows(a, b) <==> a + b >= TWO64
  {
    if a + b >= TWO64 {
      assert (a + b) % TWO64 == a + b - TWO64;
    }
  }

  function SatAdd(a: u64, b: u64): (r: u64)
    ensures r == Min(a + b, MAX_U64)
  {
    AddOverflowIsExact(a, b);
    if AddOverflows(a, b) then MAX_U64 else Wrap(a + b)
  }

  predicate MulOverflows(a: u64, b: u64) { a != 0 && b > MAX_U64 / a }

  lemma MulMonotone(x: int, y: int, z: int)
    requires x <= y && 0 <= z
    ensures x * z <= y * z
  {
  }

  lemma DivBounds(n: int, a: int)
    requires 0 <= n && 0 < a
    ensures n / a * a <= n < (n / a + 1) * a
  {
    assert (n / a + 1) * a == n / a * a + a;
  }

  lemma MulOverflowIsExact(a: u64, b: u64)
    ensures MulOverflows(a, b) <==> a * b >= TWO64
  {
    if a != 0 {
      var q := MAX_U64 / a;
      DivBounds(MAX_U64, a);
      if b > q {
        MulMonotone(q + 1, b, a);
      } else {
        MulMonotone(b, q, a);
      }
    }
  }

  function SatMul(a: u64, b: u64): (r: u64)
    ensures r == Min(a * b, MAX_U64)
  {
    MulOverflowIsExact(a, b);
    if MulOverflows(a, b) then MAX_U64 else Wrap(a * b)
  }

  /** The two 64-bit halves of a product, computed from four 32-bit partial products. */
  datatype Wide = Wide(hi: u64, lo: u64) {
    ghost function Value(): int { hi * TWO64 + lo }
  }

  function Combine(p00: u64, p01: u64, p10: u64, p11: u64): Wide {
    var mid := Wrap(Wrap(p00 / TWO32 + p01 % TWO32) + p10 % TWO32);
    Wide(Wrap(Wrap(Wrap(p11 + p01 / TWO32) + p10 / TWO32) + mid / TWO32),
         Wrap(p00 % TWO32 + Wrap(mid * TWO32)))
  }

  function SplitMul(x: u64, y: u64): Wide {
    var x0, x1, y0, y1 := x % TWO32, x / TWO32, y % TWO32, y / TWO32;
    Combine(Wrap(x0 * y0), Wrap(x0 * y1), Wrap(x1 * y0), Wrap(x1 * y1))
  }

  lemma PartialProduct(a: int, b: int)
    requires 0 <= a < TWO32 && 0 <= b < TWO32
    ensures 0 <= a * b <= (TWO32 - 1) * (TWO32 - 1) < TWO64
  {
    MulMonotone(0, a, b);
    MulMonotone(a, TWO32 - 1, b);
    MulMonotone(b, TWO32 - 1, TWO32 - 1);
  }

  /** The schoolbook recombination, stated over the partial products alone. */
  lemma Recombine(p00: int, p01: int, p10: int, p11: int)
    requires 0 <= p00 <= (TWO32 - 1) * (TWO32 - 1)
    requires 0 <= p01 <= (TWO32 - 1) * (TWO32 - 1)
    requires 0 <= p10 <= (TWO32 - 1) * (TWO32 - 1)
    requires 0 <= p11 <= (TWO32 - 1) * (TWO32 - 1)
    ensures var mid := p00 / TWO32 + p01 % TWO32 + p10 % TWO32;
            var hi := p11 + p01 / TWO32 + p10 / TWO32 + mid / TWO32;
            var lo := p00 % TWO32 + (mid % TWO32) * TWO32;
            && 0 <= mid < 3 * TWO32
            && 0 <= hi < TWO64
            && 0 <= lo < TWO64
            && hi * TWO64 + lo == p11 * TWO64 + (p01 + p10) * TWO32 + p00
  {
  }

  lemma SchoolbookProduct(x: u64, y: u64)
    ensures var x0, x1, y0, y1 := x % TWO32, x / TWO32, y % TWO32, y / TWO32;
            (x1 * y1) * TWO64 + (x0 * y1 + x1 * y0) * TWO32 + x0 * y0 == x * y
  {
    var x0, x1, y0, y1 := x % TWO32, x / TWO32, y % TWO32, y / TWO32;
    calc {
      x * y;
      (x1 * TWO32 + x0) * (y1 * TWO32 + y0);
      x1 * TWO32 * (y1 * TWO32 + y0) + x0 * (y1 * TWO32 + y0);
      (x1 * y1) * TWO64 + (x1 * y0) * TWO32 + (x0 * y1) * TWO32 + x0 * y0;
    }
  }

  lemma ShiftedLow(mid: int)
    requires 0 <= mid < 3 * TWO32
    ensures Wrap(mid * TWO32) == (mid % TWO32) * TWO32
  {
    var q, r := mid / TWO32, mid % TWO32;
    assert mid * TWO32 == q * TWO64 + r * TWO32;
    assert 0 <= r * TWO32 < TWO64;
    assert q == 0 || q == 1 || q == 2;
  }

  /** The only reduction that takes effect is the deliberate shift of the middle word. */
  lemma CombineIsExact(p00: u64, p01: u64, p10: u64, p11: u64)
    requires p00 <= (TWO32 - 1) * (TWO32 - 1) && p01 <= (TWO32 - 1) * (TWO32 - 1)
    requires p10 <= (TWO32 - 1) * (TWO32 - 1) && p11 <= (TWO32 - 1) * (TWO32 - 1)
    ensures Combine(p00, p01, p10, p11).Value() == p11 * TWO64 + (p01 + p10) * TWO32 + p00
  {
    Recombine(p00, p01, p10, p11);
    ShiftedLow(p00 / TWO32 + p01 % TWO32 + p10 % TWO32);
  }

  /** The two halves are the exact product, for every pair of operands. */
  lemma SplitMulIsExact(x: u64, y: u64)
    ensures SplitMul(x, y).Value() == x * y
  {
    var x0, x1, y0, y1 := x % TWO32, x / TWO32, y % TWO32, y / TWO32;
    PartialProduct(x0, y0);
    PartialProduct(x0, y1);
    PartialProduct(x1, y0);
    PartialProduct(x1, y1);
    CombineIsExact(x0 * y0, x0 * y1, x1 * y0, x1 * y1);
    SchoolbookProduct(x, y);
  }

  function MulCompare(a: u64, b: u64, c: u64, d: u64): (r: int)
    ensures r < 0 <==> a * b < c * d
    ensures r == 0 <==> a * b == c * d
    ensures r > 0 <==> a * b > c * d
  {
    SplitMulIsExact(a, b);
    SplitMulIsExact(c, d);
    var l, r := SplitMul(a, b), SplitMul(c, d);
    if l.hi != r.hi then (if l.hi < r.hi then -1 else 1)
    else if l.lo != r.lo then (if l.lo < r.lo then -1 else 1)
    else 0
  }
}
