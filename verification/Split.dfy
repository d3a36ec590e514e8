/** The proportional return of borrowed units on a partial release. */
module Split {
  import opened Arithmetic
  import opened Pressure
  import opened Model
  import opened Ledger
  import opened Aggregates

  /** The product of the split fits in 64 bits, or is not taken at all. */
  predicate SplitFits(r: Allocation, release: u64) {
    release == r.units || r.Borrowed() * release < TWO64
  }

  /** The remainder keeps no more borrowed units than units. Whether it does is decided by
      the request and the record alone, before anything is returned. */
  predicate SplitHolds(r: Allocation, release: u64) {
    release == r.units || (r.units != 0 && r.Borrowed() - ReturnedBorrow(r, release) <= r.units - release)
  }

  lemma DivAtLeast(n: int, d: int, q: int)
    requires 0 <= n && 0 < d && q * d <= n
    ensures n / d >= q
  {
    FloorDivision(n, d, q);
  }

  /** The exact quotient leaves neither half with more borrowed units than units. It rests
      on (units - borrow) * (units - release) >= 0. */
  lemma ProportionalShare(units: int, borrow: int, release: int)
    requires 0 <= borrow <= units && 0 < release <= units
    ensures var back := borrow * release / units;
            0 <= back <= borrow && back <= release && borrow - back <= units - release
  {
    MulMonotone(borrow, units, release);
    MulMonotone(0, borrow, release);
    MulMonotone(release, units, borrow);
    MulMonotone(0, units - borrow, units - release);
    assert (units - borrow) * (units - release) == units * units - units * release - borrow * units + borrow * release;
    assert (borrow + release - units) * units == borrow * units + release * units - units * units;
    DivAtLeast(borrow * release, units, borrow + release - units);
    DivAtLeast(borrow * release, units, 0);
  }

  /** The returned share is the exact proportional floor if and only if the product fits:
      a wrapped product always returns too little. */
  lemma SplitExactIff(r: Allocation, release: u64)
    requires 0 < r.units <= MAX_UNITS && 0 < release < r.units
    ensures ReturnedBorrow(r, release) == r.Borrowed() * release / r.units <==> SplitFits(r, release)
  {
    var product := r.Borrowed() * release;
    MulMonotone(0, r.Borrowed(), release);
    if product >= TWO64 {
      var wrapped := product % TWO64;
      assert product - wrapped >= TWO64;
      DivBounds(wrapped, r.units);
      assert (wrapped / r.units + 1) * r.units == wrapped / r.units * r.units + r.units;
      DivAtLeast(product, r.units, wrapped / r.units + 1);
    }
  }

  lemma DivMonotone(a: int, b: int, d: int)
    requires 0 <= a <= b && 0 < d
    ensures 0 <= a / d <= b / d
  {
    DivBounds(a, d);
    DivAtLeast(b, d, a / d);
    DivAtLeast(a, d, 0);
  }

  /** Wrapped or not, the returned share is within the released part and the borrowed part. */
  lemma ShareBounded(r: Allocation, release: u64)
    requires 0 < r.units && 0 < release <= r.units
    ensures 0 <= ReturnedBorrow(r, release) <= r.Borrowed() && ReturnedBorrow(r, release) <= release
  {
    if release < r.units {
      var product := r.Borrowed() * release;
      MulMonotone(0, r.Borrowed(), release);
      assert 0 <= Wrap(product) <= product;
      DivMonotone(Wrap(product), product, r.units);
      ProportionalShare(r.units, r.Borrowed(), release);
    }
  }

  /** A product that fits is enough, but not needed. */
  lemma FittingSplitHolds(r: Allocation, release: u64)
    requires 0 < r.units <= MAX_UNITS && 0 < release <= r.units && SplitFits(r, release)
    ensures SplitHolds(r, release)
  {
    ProportionalShare(r.units, r.Borrowed(), release);
  }

  /** When the split holds, both halves are well formed, and their units, borrowed units
      and own units add up exactly to the original. */
  lemma SplitConserves(r: Allocation, release: u64, now: u64)
    requires 0 < r.units <= MAX_UNITS && r.borrow <= r.units && 0 < release <= r.units && SplitHolds(r, release)
    ensures var out, left := ReleasedHalf(r, release, now), RemainingHalf(r, release, now);
            && out.borrow <= out.units && left.borrow <= left.units
            && out.units + left.units == r.units
            && out.Borrowed() + left.Borrowed() == r.Borrowed()
            && out.Own() + left.Own() == r.Own()
            && (left.Holds() <==> r.Holds() && release < r.units)
            && left == r.(units := left.units, borrow := left.borrow, state := left.state, lender := left.lender,
                          lastTouched := now, revision := left.revision)
            && (release < r.units ==> left.state == r.state && left.lender == r.lender)
            && (release == r.units ==> left.state == Released)
  {
    hide ReturnedBorrow;
    ShareBounded(r, release);
    WholeShare(r, release);
  }

  lemma WholeShare(r: Allocation, release: u64)
    requires r.units != 0
    ensures release == r.units ==> ReturnedBorrow(r, release) == r.Borrowed()
  {
  }

  /** Each aggregate of each pool receives from the two halves what it received from the
      whole. */
  lemma SplitContributions(r: Allocation, release: u64, now: u64, a: Aggregate, p: u64)
    requires r.Holds() && 0 < r.units <= MAX_UNITS && r.borrow <= r.units
    requires 0 < release <= r.units && SplitHolds(r, release)
    ensures Contribution(ReleasedHalf(r, release, now), a, p) + Contribution(RemainingHalf(r, release, now), a, p)
         == Contribution(r, a, p)
  {
    SplitConserves(r, release, now);
  }

  ghost predicate ContributionsConserved(r: Allocation, release: u64, now: u64)
    requires r.units != 0
  {
    forall a, p ::
      Contribution(ReleasedHalf(r, release, now), a, p) + Contribution(RemainingHalf(r, release, now), a, p)
      == Contribution(r, a, p)
  }

  /** What a split that does not hold loses: the remainder counts as borrowing only its own
      size, less than the borrowed units it is charged with. */
  lemma SplitLoses(r: Allocation, release: u64, now: u64)
    requires r.Holds() && 0 < r.units <= MAX_UNITS && r.borrow <= r.units && 0 < release <= r.units
    requires !SplitHolds(r, release)
    ensures RemainingHalf(r, release, now).Holds()
    ensures ReleasedHalf(r, release, now).Borrowed() == ReturnedBorrow(r, release)
    ensures ReturnedBorrow(r, release) + RemainingHalf(r, release, now).Borrowed() < r.Borrowed()
  {
    hide ReturnedBorrow;
    ShareBounded(r, release);
  }

  /** The exact condition: every aggregate of every pool receives from the two halves what it
      received from the whole if and only if the split holds. */
  lemma SplitConservesIff(r: Allocation, release: u64, now: u64)
    requires r.Holds() && 0 < r.units <= MAX_UNITS && r.borrow <= r.units && 0 < release <= r.units
    ensures ContributionsConserved(r, release, now) <==> SplitHolds(r, release)
  {
    hide ReturnedBorrow;
    if SplitHolds(r, release) {
      forall a, p ensures Contribution(ReleasedHalf(r, release, now), a, p) + Contribution(RemainingHalf(r, release, now), a, p)
                       == Contribution(r, a, p)
      {
        SplitContributions(r, release, now, a, p);
      }
    } else {
      SplitLoses(r, release, now);
      assert Contribution(ReleasedHalf(r, release, now), InBorrowed, r.pool)
           + Contribution(RemainingHalf(r, release, now), InBorrowed, r.pool) != Contribution(r, InBorrowed, r.pool);
    }
  }

  /** Releasing 16 of 2^60 fully borrowed units wraps the product to zero: no borrowed
      unit is returned, and the remainder claims more borrowed units than it has. */
  lemma SplitCanWrap(r: Allocation, now: u64)
    requires r.units == TWO60 && r.borrow == TWO60 && r.state.Committed?
    ensures var out, left := ReleasedHalf(r, 16, now), RemainingHalf(r, 16, now);
            out.borrow == 0 && left.borrow > left.units && out.Own() > r.Own() && !SplitHolds(r, 16)
  {
    assert r.Borrowed() * 16 == TWO60 * 0x10;
  }

  /** A wrapped product may still split harmlessly: half of 2^60 units, 32 of them borrowed. */
  lemma WrappedSplitMayHold(r: Allocation)
    requires r.units == TWO60 && r.borrow == 32
    ensures !SplitFits(r, TWO60 / 2) && SplitHolds(r, TWO60 / 2)
  {
    assert r.Borrowed() * (TWO60 / 2) == TWO64;
  }
}
