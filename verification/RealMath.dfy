// Facts about real products and quotients that the solver needs one at a time.
module RealMath {
  function Abs(x: real): real { if x < 0.0 then -x else x }

  lemma MulLess(x: real, y: real, c: real)
    requires x < y && c > 0.0
    ensures x * c < y * c
  {
    assert (y - x) * c > 0.0;
  }

  lemma CancelLessEq(x: real, y: real, c: real)
    requires x * c <= y * c && c > 0.0
    ensures x <= y
  {
    if y < x { MulLess(y, x, c); }
  }

  // The same with the products named, so that callers need no product of their own.
  lemma MulLessEqBy(x: real, y: real, c: real, xc: real, yc: real)
    requires x <= y && c >= 0.0 && x * c == xc && y * c == yc
    ensures xc <= yc
  {
    MulLessEq(x, y, c);
  }

  lemma CancelLessBy(x: real, y: real, c: real, xc: real, yc: real)
    requires x * c == xc && y * c == yc && xc < yc && c > 0.0
    ensures x < y
  {
    if y <= x { MulLessEqBy(y, x, c, yc, xc); }
  }

  lemma PositiveFactor(x: real, y: real)
    requires x * y > 0.0 && y > 0.0
    ensures x > 0.0
  {
    if x <= 0.0 { MulLessEq(x, 0.0, y); }
  }

  lemma IntMulLess(x: int, y: int, c: int)
    requires x < y && c > 0
    ensures x * c < y * c
  {
    assert (y - x) * c > 0;
  }

  lemma IntCancel(x: int, y: int, c: int)
    requires x * c == y * c && c > 0
    ensures x == y
  {
    if x < y { IntMulLess(x, y, c); }
    if y < x { IntMulLess(y, x, c); }
  }

  lemma MulLessEq(x: real, y: real, c: real)
    requires x <= y && c >= 0.0
    ensures x * c <= y * c
  {
    assert (y - x) * c >= 0.0;
  }

  lemma IntMulLessEq(x: int, y: int, c: int)
    requires x <= y && c >= 0
    ensures x * c <= y * c
  {
    assert (y - x) * c >= 0;
  }

  lemma RemainderZero(q: int, r: int, p: int, d: int)
    requires q * d + r == p * d && 0 <= r < d
    ensures q == p && r == 0
  {
    if q < p { IntMulLessEq(q + 1, p, d); }
    if p < q { IntMulLessEq(p + 1, q, d); }
  }
}
