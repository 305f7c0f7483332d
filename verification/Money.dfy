/** Decimal amounts and their rounding to whole cents, half up
    (services/api/src/creditops/domain/repayments.py, application/underwriting/calculators.py).
    Decimals are exact reals here. */
module Money {
  /** The nearest whole number; a half is rounded up. */
  function HalfUp(c: real): int { (c + 0.5).Floor }

  function OfCents(n: int): real { n as real / 100.0 }

  function Quantized(v: real): real {
    if v >= 0.0 then OfCents(HalfUp(v * 100.0)) else -OfCents(HalfUp(-v * 100.0))
  }

  /** A whole number of cents. */
  predicate Whole(v: real) { v * 100.0 == (v * 100.0).Floor as real }

  lemma CentsAreWhole(n: int)
    ensures Whole(OfCents(n))
  {
  }

  lemma WholeCents(v: real) returns (n: int)
    requires Whole(v)
    ensures v == OfCents(n)
  {
    n := (v * 100.0).Floor;
  }

  lemma WholeSum(a: real, b: real)
    requires Whole(a) && Whole(b)
    ensures Whole(a + b) && Whole(a - b)
  {
    var m := WholeCents(a);
    var n := WholeCents(b);
    CentsAreWhole(m + n);
    CentsAreWhole(m - n);
    assert a + b == OfCents(m + n) && a - b == OfCents(m - n);
  }

  /** v is the amount in whole cents that is nearest to the exact one; a half goes away from zero. */
  predicate IsRounded(v: real, exact: real) {
    && Whole(v) && -0.005 <= v - exact <= 0.005
    && (exact > 0.0 ==> -0.005 < v - exact) && (exact < 0.0 ==> v - exact < 0.005)
    && (exact == 0.0 ==> v == 0.0)
  }

  lemma HalfUpNear(c: real)
    ensures -0.5 < HalfUp(c) as real - c <= 0.5
  {
    var n := HalfUp(c);
    assert n as real <= c + 0.5 < n as real + 1.0;
  }

  lemma HalfUpOfWhole(n: int)
    ensures HalfUp(n as real) == n
  {
  }

  lemma HalfUpShifts(c: real, n: int)
    ensures HalfUp(c - n as real) == HalfUp(c) - n
  {
    assert (c - n as real) + 0.5 == (c + 0.5) - n as real;
  }

  /** Rounding gives whole cents, at most half a cent away, and leaves exactly whole cents alone. */
  lemma QuantizedIsNearest(v: real)
    ensures Whole(Quantized(v))
    ensures -0.005 <= Quantized(v) - v <= 0.005
    ensures Whole(v) <==> Quantized(v) == v
    ensures v >= 0.0 ==> Quantized(v) >= 0.0 && -0.005 < Quantized(v) - v
  {
    if v >= 0.0 {
      NearestAbove(v);
    } else {
      NearestAbove(-v);
      NegatedWhole(v);
      NegatedWhole(Quantized(v));
    }
  }

  /** There is only one rounded amount. */
  lemma RoundedIsUnique(a: real, b: real, exact: real)
    requires IsRounded(a, exact) && IsRounded(b, exact)
    ensures a == b
  {
    assert -0.01 < a - b < 0.01;
    WholeApart(a, b);
  }

  /** Different amounts in whole cents are a cent apart. */
  lemma WholeApart(a: real, b: real)
    requires Whole(a) && Whole(b) && -0.01 < a - b < 0.01
    ensures a == b
  {
    var m, n := (a * 100.0).Floor, (b * 100.0).Floor;
    assert a - b == (m - n) as real / 100.0;
    assert -1 < m - n < 1;
  }

  lemma QuantizedIsOdd(v: real)
    ensures Quantized(-v) == -Quantized(v)
  {
    if v == 0.0 { HalfUpOfWhole(0); }
  }

  /** Quantized finds it. */
  lemma QuantizedIsRounded(v: real)
    ensures IsRounded(Quantized(v), v)
  {
    QuantizedIsNearest(v);
    if v < 0.0 {
      QuantizedIsOdd(-v);
      NearestAbove(-v);
    }
    CentsAreWhole(0);
  }

  lemma NegatedWhole(v: real)
    ensures Whole(v) <==> Whole(-v)
  {
    WholeSum(0.0, 0.0);
    if Whole(v) { WholeSum(0.0, v); }
    if Whole(-v) { WholeSum(0.0, -v); }
  }

  lemma NearestAbove(v: real)
    requires v >= 0.0
    ensures Whole(Quantized(v)) && Quantized(v) >= 0.0
    ensures -0.005 < Quantized(v) - v <= 0.005
    ensures Whole(v) <==> Quantized(v) == v
  {
    HalfUpNear(v * 100.0);
    HalfUpOfWhole((v * 100.0).Floor);
    CentsAreWhole(HalfUp(v * 100.0));
  }

  /** Rounding moves along with whole cents, and never past them. */
  lemma QuantizedShifts(v: real, w: real)
    requires Whole(w) && 0.0 <= w <= v
    ensures Quantized(v - w) == Quantized(v) - w
  {
    var n := WholeCents(w);
    assert (v - w) * 100.0 == v * 100.0 - n as real;
    HalfUpShifts(v * 100.0, n);
  }

  lemma QuantizedBelow(v: real, w: real)
    requires Whole(w) && 0.0 <= v <= w
    ensures Quantized(v) <= w
  {
    var n := WholeCents(w);
  }
}
