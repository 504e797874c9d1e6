/** Real arithmetic in small steps.  Products and quotients are written through the named functions
    `Mul` and `Div`, so that proofs elsewhere can treat them as opaque and call the law they need. */
module RealArithmetic {

  /** Multiplication and division by name: products and quotients of equal terms are then
      recognised as equal without any nonlinear reasoning. */
  function Mul(x: real, y: real): real {
    x * y
  }

  function Div(x: real, y: real): real
    requires y != 0.0
  {
    x / y
  }

  lemma MulAdd(c: real, x: real, y: real, sum: real)
    requires sum == x + y
    ensures Mul(c, sum) == Mul(c, x) + Mul(c, y)
    ensures Mul(sum, c) == Mul(x, c) + Mul(y, c)
  {
  }

  lemma MulAssoc(x: real, y: real, z: real)
    ensures Mul(x, Mul(y, z)) == Mul(y, Mul(x, z)) == Mul(Mul(x, y), z)
  {
    assert x * (y * z) == y * (x * z) == (x * y) * z;
  }

  lemma MulMono(c: real, x: real, y: real)
    requires 0.0 <= c && x <= y
    ensures Mul(c, x) <= Mul(c, y)
    ensures 0.0 < c && x < y ==> Mul(c, x) < Mul(c, y)
  {
  }

  lemma MulComm(x: real, y: real)
    ensures Mul(x, y) == Mul(y, x)
  {
  }

  lemma MulUnit(c: real)
    ensures Mul(c, 1.0) == c && Mul(c, 0.0) == 0.0 && Mul(0.0, c) == 0.0
    ensures c != 0.0 ==> Div(0.0, c) == 0.0
  {
  }

  lemma MulSign(c: real, x: real)
    requires 0.0 < c && 0.0 <= x
    ensures 0.0 <= Mul(c, x)
    ensures 0.0 < x ==> 0.0 < Mul(c, x)
  {
  }

  lemma DivSign(a: real, r: real)
    requires 0.0 <= a && 0.0 < r
    ensures 0.0 <= Div(a, r)
    ensures 0.0 < a ==> 0.0 < Div(a, r)
  {
  }

  lemma DivOrdered(a: real, b: real, r: real)
    requires 0.0 <= a <= b && r > 0.0
    ensures 0.0 <= Div(a, r) <= Div(b, r)
  {
  }

  lemma DivCancels(a: real, s: real)
    requires s != 0.0
    ensures Mul(Div(a, s), s) == a
  {
  }

  lemma DivDifference(a: real, b: real, t: real)
    requires t > 0.0
    ensures Div(a, t) - Div(b, t) == Div(a - b, t)
  {
  }

  lemma DivAsMul(x: real, t: real, c: real)
    requires t > 0.0 && c == 1.0 / t
    ensures Div(x, t) == Mul(c, x)
  {
  }

  lemma Reciprocal(t: real, c: real)
    requires t >= 1.0 && c == 1.0 / t
    ensures 0.0 < c <= 1.0 && Mul(c, t) == 1.0
  {
  }

  lemma CancelFactor(x: real, y: real, r: real)
    requires r > 0.0 && Mul(x, r) <= Mul(y, r)
    ensures x <= y
    ensures Mul(x, r) < Mul(y, r) ==> x < y
  {
    if x > y {
      MulMono(r, y, x);
      MulComm(r, x);
      MulComm(r, y);
    }
  }

  lemma CancelQuotient(f: real, a: real, b: real)
    requires f > 0.0 && b > 0.0
    ensures Mul(f, b) > 0.0
    ensures Div(Mul(f, a), Mul(f, b)) == Div(a, b)
  {
    CrossEqual(f * a, f * b, a, b);
  }

  lemma CrossEqual(a: real, b: real, c: real, d: real)
    requires b > 0.0 && d > 0.0 && a * d == c * b
    ensures a / b == c / d
  {
    var x := a / b;
    assert x * b == a;
    assert (x * b) * d == c * b;
    assert b * (x * d - c) == 0.0;
    assert x * d == c;
  }

  lemma CrossOrdered(a: real, b: real, c: real, d: real)
    requires b > 0.0 && d > 0.0
    requires Mul(a, d) <= Mul(c, b)
    ensures Div(a, b) <= Div(c, d)
    ensures Mul(a, d) < Mul(c, b) ==> Div(a, b) < Div(c, d)
  {
    var x, y := a / b, c / d;
    assert a == Mul(x, b) && c == Mul(y, d);
    var bd := Mul(b, d);
    assert bd > 0.0;
    MulAssoc(x, b, d);
    MulAssoc(y, d, b);
    MulComm(b, d);
    assert Mul(a, d) == Mul(x, bd) && Mul(c, b) == Mul(y, bd);
    CancelFactor(x, y, bd);
  }

  lemma MulNonNegative(x: real, y: real)
    requires 0.0 <= x && 0.0 <= y
    ensures 0.0 <= Mul(x, y)
  {
  }

  lemma MulThenDiv(w: real, arrival: real, mu: real)
    requires mu > 0.0
    ensures Div(Mul(w, arrival), mu) == Mul(w, Div(arrival, mu))
  {
    var x := arrival / mu;
    assert x * mu == arrival;
    assert (w * x) * mu == w * arrival;
  }

  lemma ReciprocalUnique(t: real, c: real)
    requires t != 0.0 && Mul(c, t) == 1.0
    ensures c == Div(1.0, t)
  {
  }

  lemma DivSelf(x: real)
    requires x != 0.0
    ensures Div(x, x) == 1.0
  {
  }

  lemma DivDiv(n: real, t: real)
    requires n > 0.0 && t > 0.0
    ensures 0.0 < Div(n, t)
    ensures Div(n, Div(n, t)) == t
  {
    var x := n / t;
    assert x * t == n;
    assert n / x == t;
  }

  lemma DivCancelsLeft(slope: real, n: real, c: real)
    requires slope > 0.0
    ensures Div(Mul(slope, n) + c, slope) == n + Div(c, slope)
  {
  }

  lemma DivNegated(x: real, y: real)
    requires y > 0.0
    ensures Div(0.0 - x, y) == 0.0 - Div(x, y)
    ensures Div(x, y) == 0.0 <==> x == 0.0
  {
  }
}
