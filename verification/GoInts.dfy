/** Go's machine integers. */
module GoInts {
  const MAX_INT64: int := 0x7FFF_FFFF_FFFF_FFFF
  const MAX_INT32: int := 0x7FFF_FFFF

  predicate IsInt64(x: int) {
    -MAX_INT64 - 1 <= x <= MAX_INT64
  }

  /** An int64 result: the value modulo 2^64, in [-2^63, 2^63). */
  function Wrap64(x: int): (r: int)
    ensures IsInt64(r)
  {
    (x + MAX_INT64 + 1) % (2 * MAX_INT64 + 2) - MAX_INT64 - 1
  }

  function Wrap32(x: int): int {
    (x + MAX_INT32 + 1) % (2 * MAX_INT32 + 2) - MAX_INT32 - 1
  }

  /** Wrapping gives the one number in range that differs by a multiple of 2^64. */
  lemma Wrap64Iff(x: int, r: int)
    ensures r == Wrap64(x) <==> IsInt64(r) && (x - r) % 0x1_0000_0000_0000_0000 == 0
  {
    assert 2 * MAX_INT64 + 2 == 0x1_0000_0000_0000_0000;
  }

  /** The same in 32 bits. */
  lemma Wrap32Iff(x: int, r: int)
    ensures r == Wrap32(x) <==> -MAX_INT32 - 1 <= r <= MAX_INT32 && (x - r) % 0x1_0000_0000 == 0
  {
    assert 2 * MAX_INT32 + 2 == 0x1_0000_0000;
  }

  /** Integer division truncates towards zero. */
  function GoDiv(a: int, b: int): int
    requires b != 0
  {
    var q := (if a >= 0 then a else -a) / (if b >= 0 then b else -b);
    if (a >= 0) == (b >= 0) then q else -q
  }

  /** The quotient, told by products alone: the whole number between zero and a / b that is nearest to a / b. */
  predicate IsQuotient(a: int, b: int, q: int)
    requires b > 0
  {
    if a >= 0 then q * b <= a < (q + 1) * b else (q - 1) * b < a <= q * b
  }

  lemma GoDivIsQuotient(a: int, b: int)
    requires b > 0
    ensures IsQuotient(a, b, GoDiv(a, b))
  {
    var n := if a >= 0 then a else -a;
    var q := n / b;
    assert q * b <= n < q * b + b;
    assert (q + 1) * b == q * b + b && (-q - 1) * b == -(q * b) - b && -q * b == -(q * b);
  }
}
