/** Pressure bands: threshold validation and the exact classification of utilization. */
module Pressure {
  import opened Arithmetic

  const SCALE: u32 := 10000

  datatype PressureState = Unknown | Clear | Elevated | High | Critical | Stale {
    function Rank(): nat {
      match this
      case Unknown => 0
      case Clear => 1
      case Elevated => 2
      case High => 3
      case Critical => 4
      case Stale => 5
    }

    predicate Known() { Clear? || Elevated? || High? || Critical? }

    predicate AtLeast(floor: PressureState) { Known() && Rank() >= floor.Rank() }
  }

  datatype Thresholds = Thresholds(elevated: u32, high: u32, critical: u32) {
    predicate Valid() { 0 < elevated < high < critical <= SCALE }
  }

  datatype Observation = Observation(state: PressureState, utilization: u32, binding: u32, overcommitted: bool)

  predicate UtilizationAtLeast(used: u64, usable: u64, band: u32) {
    if usable == 0 then used != 0 else MulCompare(used, SCALE, band, usable) >= 0
  }

  /** The reported utilization in basis points, capped at 10000; an overflowing
      product is reported as full. */
  function UtilizationBp(used: u64, usable: u64): (bp: u32)
    requires usable != 0
    ensures bp <= SCALE
  {
    if MulOverflows(used, SCALE) then SCALE
    else
      var scaled := Wrap(used * SCALE);
      assert scaled / usable >= 0;
      if scaled / usable >= SCALE then SCALE else scaled / usable
  }

  function Classify(t: Thresholds, used: u64, usable: u64, overcommitted: bool): Observation {
    if usable == 0 then
      if used == 0 && !overcommitted then Observation(Clear, 0, 0, overcommitted)
      else Observation(Critical, SCALE, t.critical, overcommitted)
    else
      var bp := UtilizationBp(used, usable);
      if UtilizationAtLeast(used, usable, t.critical) then Observation(Critical, bp, t.critical, overcommitted)
      else if UtilizationAtLeast(used, usable, t.high) then Observation(High, bp, t.high, overcommitted)
      else if UtilizationAtLeast(used, usable, t.elevated) then Observation(Elevated, bp, t.elevated, overcommitted)
      else Observation(Clear, bp, 0, overcommitted)
  }

  /** The band is the one the exact rational used/usable falls in: the largest whose
      threshold is reached, with no rounding, for every u64 input. */
  lemma ClassifyIsExact(t: Thresholds, used: u64, usable: u64, over: bool)
    requires t.Valid() && usable != 0
    ensures var s := Classify(t, used, usable, over).state;
            && (s.Critical? <==> used * SCALE >= t.critical * usable)
            && (s.High? <==> t.high * usable <= used * SCALE < t.critical * usable)
            && (s.Elevated? <==> t.elevated * usable <= used * SCALE < t.high * usable)
            && (s.Clear? <==> used * SCALE < t.elevated * usable)
  {
    MulMonotone(t.elevated, t.high, usable);
    MulMonotone(t.high, t.critical, usable);
  }

  /** More usage never lowers the band. */
  lemma ClassifyMonotone(t: Thresholds, used: u64, more: u64, usable: u64, over: bool, over': bool)
    requires t.Valid() && used <= more && (over ==> over')
    ensures Classify(t, used, usable, over).state.Rank() <= Classify(t, more, usable, over').state.Rank()
  {
    if usable != 0 {
      ClassifyIsExact(t, used, usable, over);
      ClassifyIsExact(t, more, usable, over');
    }
  }

  /** A pool whose usage exceeds its usable capacity is always Critical. */
  lemma OvercommittedIsCritical(t: Thresholds, used: u64, usable: u64)
    requires t.Valid() && used > usable
    ensures Classify(t, used, usable, true).state == Critical
  {
    if usable != 0 {
      ClassifyIsExact(t, used, usable, true);
      MulMonotone(t.critical, SCALE, usable);
    }
  }

  lemma FloorDivision(n: int, d: int, band: int)
    requires 0 <= n && 0 < d
    ensures n / d >= band <==> n >= band * d
  {
    DivBounds(n, d);
    if n / d >= band {
      MulMonotone(band, n / d, d);
    } else {
      MulMonotone(n / d + 1, band, d);
    }
  }

  /** The reported figure is the true floor, capped at 10000, exactly when the product
      fits in 64 bits or the pool is at least full. Otherwise it reads 10000 for a pool
      that is not full. */
  lemma UtilizationExactIff(used: u64, usable: u64)
    requires usable != 0
    ensures UtilizationBp(used, usable) == Min(used * SCALE / usable, SCALE)
       <==> used * SCALE < TWO64 || used >= usable
  {
    MulOverflowIsExact(used, SCALE);
    FloorDivision(used * SCALE, usable, SCALE);
    if used >= usable {
      assert used * SCALE >= SCALE * usable;
    } else {
      assert used * SCALE < SCALE * usable;
    }
  }

  /** When it is exact, the figure and the band tell the same story. */
  lemma UtilizationAgreesWithBand(used: u64, usable: u64, band: u32)
    requires usable != 0 && band <= SCALE && used * SCALE < TWO64
    ensures UtilizationBp(used, usable) >= band <==> UtilizationAtLeast(used, usable, band)
  {
    MulOverflowIsExact(used, SCALE);
    FloorDivision(used * SCALE, usable, band);
    FloorDivision(used * SCALE, usable, SCALE);
  }

  /** 2^51 units used out of 2^60 is under a quarter of one percent and Clear, yet the
      reported utilization is 100 percent. */
  lemma UtilizationMisreports()
    ensures var t := Thresholds(7000, 8500, 9500);
            var o := Classify(t, 0x8_0000_0000_0000, TWO60, false);
            o.state == Clear && o.utilization == SCALE
  {
    MulOverflowIsExact(0x8_0000_0000_0000, SCALE);
    ClassifyIsExact(Thresholds(7000, 8500, 9500), 0x8_0000_0000_0000, TWO60, false);
  }
}
