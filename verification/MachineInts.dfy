/** The fixed-width integers of the library, and the facts about truncating division that its
    clock arithmetic relies on. */
module MachineInts {

  newtype int64 = x: int | -0x8000_0000_0000_0000 <= x < 0x8000_0000_0000_0000
  newtype uint16 = x: int | 0 <= x < 0x1_0000
  newtype uint8 = x: int | 0 <= x < 0x100

  const INT64_MAX: int64 := 0x7FFF_FFFF_FFFF_FFFF

  datatype Option<+T> = None | Some(value: T)

  function Min(a: int, b: int): int { if a <= b then a else b }

  function Max(a: int, b: int): int { if a >= b then a else b }

  /** Integer division as C++ does it, towards zero. */
  function TruncDiv(a: int, b: int): int
    requires b > 0
  {
    if a >= 0 then a / b else -((-a) / b)
  }

  /** A quotient is determined by the two products around the dividend. */
  lemma QuotientIsUnique(a: int, d: int, q: int)
    requires d > 0 && q * d <= a < (q + 1) * d
    ensures a / d == q
  {
    var p := a / d;
    assert a == p * d + a % d && 0 <= a % d < d;
    assert p < q ==> (p + 1) * d <= q * d;
    assert p > q ==> (q + 1) * d <= p * d;
  }

  /** Two truncating divisions in a row lose nothing against one division by the product. */
  lemma NestedDivision(a: int, inner: int, outer: int)
    requires a >= 0 && inner > 0 && outer > 0
    ensures outer * inner > 0
    ensures (a / inner) / outer == a / (outer * inner)
  {
    var m := a / inner;
    var q := m / outer;
    assert m == q * outer + m % outer;
    assert a == m * inner + a % inner;
    calc {
      q * (outer * inner);
      (q * outer) * inner;
    <= { MulMonotone(q * outer, m, inner); }
      m * inner;
    <= a;
    }
    calc {
      a;
    < (m + 1) * inner;
    <= { MulMonotone(m + 1, (q + 1) * outer, inner); }
      ((q + 1) * outer) * inner;
      (q + 1) * (outer * inner);
    }
    assert outer * inner > 0;
    QuotientIsUnique(a, outer * inner, q);
  }

  lemma MulMonotone(a: int, b: int, k: int)
    requires a <= b && k >= 0
    ensures a * k <= b * k
  {
  }

  lemma Distribute(a: int, b: int, k: int)
    ensures (a + b) * k == a * k + b * k
  {
  }

  lemma DivisionBrackets(a: int, d: int)
    requires d > 0
    ensures (a / d) * d <= a < (a / d + 1) * d
    ensures a >= 0 ==> a / d >= 0
  {
    assert a == (a / d) * d + a % d;
  }

  lemma QuotientMonotone(a: int, b: int, d: int)
    requires d > 0 && a <= b
    ensures a / d <= b / d
  {
    DivisionBrackets(a, d);
    QuotientBounds(b, d, a / d);
  }

  /** Adding whole multiples of the divisor moves the quotient by as many. */
  lemma QuotientShift(a: int, d: int, n: int)
    requires d > 0
    ensures (a + n * d) / d == a / d + n
  {
    var q := a / d;
    assert a == q * d + a % d;
    assert (q + n) * d == q * d + n * d;
    assert (q + n + 1) * d == q * d + n * d + d;
    QuotientIsUnique(a + n * d, d, q + n);
  }

  /** `n` divisors fit below `a` exactly when `n` is at most the quotient. */
  lemma QuotientBounds(a: int, d: int, n: int)
    requires d > 0
    ensures n * d <= a <==> n <= a / d
  {
    var q := a / d;
    assert a == q * d + a % d;
    if n <= q {
      MulMonotone(n, q, d);
    } else {
      MulMonotone(q + 1, n, d);
      assert (q + 1) * d == q * d + d;
    }
  }
}
