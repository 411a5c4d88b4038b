/** Rounding of response times before they are counted. */
module Rounding {
  import opened Remainders

  /** The multiple of the unit nearest to v; a remainder of at least half a unit rounds up. */
  function RoundHalfUp(v: int, unit: int): int
    requires unit > 0
  {
    if 2 * (v % unit) >= unit then (v / unit + 1) * unit else v / unit * unit
  }

  lemma {:induction false} RoundHalfUpBounds(v: int, unit: int)
    requires unit > 0
    ensures -unit <= 2 * (RoundHalfUp(v, unit) - v) <= unit
  {
    assert v == v / unit * unit + v % unit;
    assert (v / unit + 1) * unit == v / unit * unit + unit;
  }

  /** The multiple of the unit that is nearest to v; of two equally near, the greater one. */
  predicate IsNearest(r: int, v: int, unit: int)
    requires unit > 0
  {
    r % unit == 0 && -unit < 2 * (r - v) <= unit
  }

  /** Times below 100 are kept, and others rounded to two digits below 1000 and 10000, then to thousands. */
  predicate Rounds(v: int, r: int) {
    && (v < 100 ==> r == v)
    && (100 <= v < 1000 ==> IsNearest(r, v, 10))
    && (1000 <= v < 10000 ==> IsNearest(r, v, 100))
    && (10000 <= v ==> IsNearest(r, v, 1000))
  }

  /** The bucket of a time is the one number that the time rounds to. */
  lemma BucketIff(v: int, r: int)
    ensures r == Bucket(v) <==> Rounds(v, r)
  {
    hide RoundHalfUp, IsNearest;
    if v >= 100 {
      RoundHalfUpIff(v, if v < 1000 then 10 else if v < 10000 then 100 else 1000, r);
    }
  }

  lemma RoundHalfUpIff(v: int, unit: int, r: int)
    requires unit > 0
    ensures r == RoundHalfUp(v, unit) <==> IsNearest(r, v, unit)
  {
    hide RoundHalfUp, IsNearest;
    RoundHalfUpIsNearest(v, unit);
    if IsNearest(r, v, unit) {
      NearestIsUnique(v, unit, r, RoundHalfUp(v, unit));
    }
  }

  lemma RoundHalfUpIsNearest(v: int, unit: int)
    requires unit > 0
    ensures IsNearest(RoundHalfUp(v, unit), v, unit)
  {
    var q := v / unit;
    assert v == q * unit + v % unit && (q + 1) * unit == q * unit + unit;
    RemainderIs(q * unit, unit, q, 0);
    RemainderIs((q + 1) * unit, unit, q + 1, 0);
  }

  lemma NearestIsUnique(v: int, unit: int, r: int, s: int)
    requires unit > 0 && IsNearest(r, v, unit) && IsNearest(s, v, unit)
    ensures r == s
  {
    IsMultiple(r, unit);
    IsMultiple(s, unit);
    CloseMultiples(r / unit, s / unit, unit);
  }

  /** The examples given in the source. */
  lemma BucketExamples()
    ensures Bucket(99) == 99 && Bucket(147) == 150 && Bucket(3432) == 3400 && Bucket(58760) == 59000
    ensures Bucket(145) == 150 && Bucket(144) == 140 && Bucket(3450) == 3500 && Bucket(10500) == 11000
  {
  }

  /** Times below 100 stay as they are; 234 is counted as 230, 1650 as 1700 and 10499 as 10000. */
  function Bucket(responseTime: int): int {
    if responseTime < 100 then responseTime
    else if responseTime < 1000 then RoundHalfUp(responseTime, 10)
    else if responseTime < 10000 then RoundHalfUp(responseTime, 100)
    else RoundHalfUp(responseTime, 1000)
  }

  lemma MultipleMonotone(p: int, q: int, unit: int)
    requires unit > 0
    ensures p <= q ==> p * unit <= q * unit
  {
    if p <= q {
      assert (q - p) * unit >= 0;
    }
  }

  lemma RoundHalfUpMonotone(a: int, b: int, unit: int)
    requires unit > 0 && a <= b
    ensures RoundHalfUp(a, unit) <= RoundHalfUp(b, unit)
  {
    var qa, ra, qb, rb := a / unit, a % unit, b / unit, b % unit;
    assert a == qa * unit + ra && b == qb * unit + rb;
    MultipleMonotone(qb + 1, qa, unit);
    assert (qb + 1) * unit == qb * unit + unit;
    MultipleMonotone(qa + 1, qb, unit);
  }

  lemma Seam(v: int)
    ensures 100 <= v < 1000 ==> 100 <= Bucket(v) <= 1000
    ensures 1000 <= v < 10000 ==> 1000 <= Bucket(v) <= 10000
    ensures 10000 <= v ==> 10000 <= Bucket(v)
  {
  }

  /** Rounding keeps the order of response times, also across the seams at 100, 1000 and 10000. */
  lemma BucketMonotone(a: int, b: int)
    requires a <= b
    ensures Bucket(a) <= Bucket(b)
  {
    if 100 <= a && b < 1000 {
      RoundHalfUpMonotone(a, b, 10);
    } else if 1000 <= a && b < 10000 {
      RoundHalfUpMonotone(a, b, 100);
    } else if 10000 <= a {
      RoundHalfUpMonotone(a, b, 1000);
    } else {
      Seam(a);
      Seam(b);
    }
  }

  /** The rounded value is within 5% of a non-negative response time. */
  lemma BucketWithinFivePercent(v: int)
    requires 0 <= v
    ensures -v <= 20 * (Bucket(v) - v) <= v
  {
    if v >= 100 {
      RoundHalfUpBounds(v, if v < 1000 then 10 else if v < 10000 then 100 else 1000);
    }
  }
}
