/** Binary search for the argument at which a monotone function meets a target, with the relative
    tolerance and the indicator of the analyzer's search.  The search is a function of the evaluated function
    here; the analyzer runs it by re-solving its queueing model at every point. */
module RateSearch {
  import opened Basics
  import opened RealArithmetic

  datatype SearchResult =
    | SearchError                            // bad range, or the function could not be evaluated
    | Found(x: real, indicator: int)         // -1 below, 0 within, +1 above the bounded region

  const TOLERANCE: real := 0.000001
  const MAX_ITERATIONS: nat := 100

  function Abs(x: real): real {
    if x < 0.0 then -x else x
  }

  /** `x` is within a relative tolerance of `value`. */
  predicate WithinTolerance(x: real, value: real, tolerance: real) {
    if x == value then true
    else if value == 0.0 || tolerance < 0.0 then false
    else Abs(Div(x - value, value)) <= tolerance
  }

  /** For a positive value, within tolerance means inside the band around it. */
  lemma WithinToleranceMeaning(x: real, value: real, tolerance: real)
    requires value > 0.0 && tolerance >= 0.0
    ensures WithinTolerance(x, value, tolerance)
       <==> value - Mul(tolerance, value) <= x <= value + Mul(tolerance, value)
  {
    hide Mul, Div;
    var q := Div(x - value, value);
    DivCancels(x - value, value);
    MulUnit(value);
    MulComm(0.0 - tolerance, value);
    MulAdd(value, tolerance, 0.0 - tolerance, 0.0);
    MulComm(tolerance, value);
    if q <= tolerance {
      MulMono(value, q, tolerance);
    } else {
      MulMono(value, tolerance, q);
    }
    if 0.0 - tolerance <= q {
      MulMono(value, 0.0 - tolerance, q);
    } else {
      MulMono(value, q, 0.0 - tolerance);
    }
    MulComm(value, q);
    if x == value {
      MulMono(value, 0.0, tolerance);
    }
  }

  function Pow2(n: nat): (r: real)
    ensures r >= 1.0
  {
    if n == 0 then 1.0 else 2.0 * Pow2(n - 1)
  }

  lemma {:induction false} Pow2Adds(a: nat, b: nat)
    ensures Pow2(a + b) == Pow2(a) * Pow2(b)
  {
    if a > 0 {
      Pow2Adds(a - 1, b);
      assert a + b - 1 == (a - 1) + b;
      Regroup(Pow2(a - 1), Pow2(b));
    }
  }

  lemma Regroup(x: real, y: real)
    ensures 2.0 * (x * y) == (2.0 * x) * y
  {
  }

  lemma Pow2Squared(a: nat, x: real)
    requires Pow2(a) == x
    ensures Pow2(a + a) == x * x
  {
    Pow2Adds(a, a);
  }

  /** The number of parts into which an exhausted search has cut its range, and its tolerance. */
  lemma SearchInFigures()
    ensures Pow2(MAX_ITERATIONS) == 1267650600228229401496703205376.0
    ensures TOLERANCE == 0.000001
  {
    hide Pow2;
    Pow2Five();
    Pow2Squared(5, 32.0);
    Pow2Squared(10, 1024.0);
    Pow2Adds(20, 5);
    Pow2Squared(25, 33554432.0);
    Pow2Squared(50, 1125899906842624.0);
  }

  lemma Pow2Five()
    ensures Pow2(5) == 32.0
  {
    assert Pow2(2) == 4.0;
    assert Pow2(4) == 16.0;
  }

  ghost predicate DefinedOn(f: real -> Option<real>, lo: real, hi: real) {
    forall x :: lo <= x <= hi ==> f(x).Some?
  }

  ghost predicate IncreasingOn(f: real -> Option<real>, lo: real, hi: real)
    requires DefinedOn(f, lo, hi)
  {
    forall x, y :: lo <= x <= y <= hi ==> f(x).value <= f(y).value
  }

  ghost predicate DecreasingOn(f: real -> Option<real>, lo: real, hi: real)
    requires DefinedOn(f, lo, hi)
  {
    forall x, y :: lo <= x <= y <= hi ==> f(y).value <= f(x).value
  }

  /** Both ends can be evaluated and neither already meets the target. */
  predicate EndsMiss(f: real -> Option<real>, lo: real, hi: real, t: real) {
    && f(lo).Some? && f(hi).Some?
    && !WithinTolerance(f(lo).value, t, TOLERANCE)
    && !WithinTolerance(f(hi).value, t, TOLERANCE)
  }

  /** The test for a target below the region: against the value at the lower end, in the
      direction read off the two ends. */
  predicate BelowRegion(f: real -> Option<real>, lo: real, hi: real, t: real)
    requires f(lo).Some? && f(hi).Some?
  {
    if f(lo).value < f(hi).value then t < f(lo).value else t > f(lo).value
  }

  predicate AboveRegion(f: real -> Option<real>, lo: real, hi: real, t: real)
    requires f(lo).Some? && f(hi).Some?
  {
    if f(lo).value < f(hi).value then t > f(hi).value else t < f(hi).value
  }

  /** The target lies between the values at `a` and `b`. */
  ghost predicate Brackets(f: real -> Option<real>, a: real, b: real, increasing: bool, t: real)
    requires f(a).Some? && f(b).Some?
  {
    if increasing then f(a).value <= t <= f(b).value else f(b).value <= t <= f(a).value
  }

  /** Whether the next half is the lower one. */
  predicate GoesLeft(increasing: bool, t: real, y: real) {
    (increasing && t < y) || (!increasing && t > y)
  }

  /** The loop of the search, with `n` rounds to go. */
  function Bisect(f: real -> Option<real>, lo: real, hi: real, t: real, increasing: bool, n: nat): SearchResult
    requires n >= 1
    decreases n
  {
    var x := 0.5 * (lo + hi);
    var y := f(x);
    if y.None? then SearchError
    else if WithinTolerance(y.value, t, TOLERANCE) || n == 1 then Found(x, 0)
    else if GoesLeft(increasing, t, y.value) then Bisect(f, lo, x, t, increasing, n - 1)
    else Bisect(f, x, hi, t, increasing, n - 1)
  }

  /** The search: the ends first, then the loop. */
  function Search(f: real -> Option<real>, lo: real, hi: real, t: real, n: nat): SearchResult
    requires n >= 1
  {
    if lo > hi || f(lo).None? then SearchError
    else if WithinTolerance(f(lo).value, t, TOLERANCE) then Found(lo, 0)
    else if f(hi).None? then SearchError
    else if WithinTolerance(f(hi).value, t, TOLERANCE) then Found(hi, 0)
    else if BelowRegion(f, lo, hi, t) then Found(lo, -1)
    else if AboveRegion(f, lo, hi, t) then Found(hi, 1)
    else Bisect(f, lo, hi, t, f(lo).value < f(hi).value, n)
  }

  /** A part of the range, halved `n` times, around both `x` and the target. */
  ghost predicate LastBracket(f: real -> Option<real>, lo: real, hi: real, t: real, increasing: bool,
                              n: nat, x: real, a: real, b: real) {
    && lo <= a <= x <= b <= hi
    && b - a == Div(hi - lo, Pow2(n))
    && f(a).Some? && f(b).Some? && Brackets(f, a, b, increasing, t)
  }

  ghost predicate Bracketed(f: real -> Option<real>, lo: real, hi: real, t: real, increasing: bool, n: nat, x: real) {
    exists a, b :: LastBracket(f, lo, hi, t, increasing, n, x, a, b)
  }

  lemma HalfStep(w: real, n: nat)
    requires n >= 1
    ensures Div(0.5 * w, Pow2(n - 1)) == Div(w, Pow2(n))
  {
    var q := Pow2(n - 1);
    var x := 0.5 * w / q;
    assert x * q == 0.5 * w;
    assert x * (2.0 * q) == w;
  }

  lemma DivUnit(x: real)
    ensures Div(x, Pow2(0)) == x
  {
  }

  /** What the loop finds: an error only where the function has none, else a point of the range that
      meets the target or shares with it a bracket halved at every round. */
  lemma {:induction false} BisectContract(f: real -> Option<real>, lo: real, hi: real, t: real, increasing: bool, n: nat)
    requires n >= 1 && lo <= hi
    requires f(lo).Some? && f(hi).Some? && Brackets(f, lo, hi, increasing, t)
    ensures var r := Bisect(f, lo, hi, t, increasing, n);
            && (DefinedOn(f, lo, hi) ==> r.Found?)
            && (r.Found? ==> lo <= r.x <= hi && f(r.x).Some? && r.indicator == 0)
            && (r.Found? && !WithinTolerance(f(r.x).value, t, TOLERANCE) ==>
                  Bracketed(f, lo, hi, t, increasing, n, r.x))
    decreases n
  {
    hide WithinTolerance, Div, Pow2;
    var x := 0.5 * (lo + hi);
    var y := f(x);
    var r := Bisect(f, lo, hi, t, increasing, n);
    if y.Some? && !WithinTolerance(y.value, t, TOLERANCE) {
      var lo', hi' := if GoesLeft(increasing, t, y.value) then lo else x, if GoesLeft(increasing, t, y.value) then x else hi;
      HalfStep(hi - lo, n);
      assert hi' - lo' == 0.5 * (hi - lo);
      if n == 1 {
        DivUnit(0.5 * (hi - lo));
        assert LastBracket(f, lo, hi, t, increasing, n, r.x, lo', hi');
      } else {
        BisectContract(f, lo', hi', t, increasing, n - 1);
        assert r == Bisect(f, lo', hi', t, increasing, n - 1);
        if r.Found? && !WithinTolerance(f(r.x).value, t, TOLERANCE) {
          var a, b :| LastBracket(f, lo', hi', t, increasing, n - 1, r.x, a, b);
          assert LastBracket(f, lo, hi, t, increasing, n, r.x, a, b);
        }
      }
    }
  }

  /** The contract of the search, for every function: when it errs, what each indicator means, and
      where the result lies. */
  lemma SearchContract(f: real -> Option<real>, lo: real, hi: real, t: real, n: nat)
    requires n >= 1
    ensures var r := Search(f, lo, hi, t, n);
            && (lo > hi ==> r.SearchError?)
            && (lo <= hi && f(lo).None? ==> r.SearchError?)
            && (lo <= hi && DefinedOn(f, lo, hi) ==> r.Found?)
            && (r.Found? ==>
                  && lo <= r.x <= hi && f(lo).Some? && f(r.x).Some?
                  && (r.indicator == 0 || r.indicator == -1 || r.indicator == 1)
                  && (r.indicator == -1 <==> EndsMiss(f, lo, hi, t) && BelowRegion(f, lo, hi, t))
                  && (r.indicator == 1 <==> && EndsMiss(f, lo, hi, t)
                                            && !BelowRegion(f, lo, hi, t)
                                            && AboveRegion(f, lo, hi, t))
                  && (r.indicator == -1 ==> r.x == lo)
                  && (r.indicator == 1 ==> r.x == hi))
            && (r.Found? && r.indicator == 0 && !WithinTolerance(f(r.x).value, t, TOLERANCE) ==>
                  && f(hi).Some?
                  && Bracketed(f, lo, hi, t, f(lo).value < f(hi).value, n, r.x))
  {
    hide WithinTolerance, Div, Pow2, Bisect, Bracketed;
    if lo <= hi && EndsMiss(f, lo, hi, t) && !BelowRegion(f, lo, hi, t) && !AboveRegion(f, lo, hi, t) {
      BisectContract(f, lo, hi, t, f(lo).value < f(hi).value, n);
    }
  }

  /** For a function that increases strictly from one end to the other, the indicator is right:
      below means every value in the range exceeds the target, above means every value is under it. */
  lemma IndicatorMeaning(f: real -> Option<real>, lo: real, hi: real, t: real)
    requires lo <= hi && DefinedOn(f, lo, hi) && IncreasingOn(f, lo, hi)
    requires f(lo).value < f(hi).value
    ensures BelowRegion(f, lo, hi, t) <==> forall x :: lo <= x <= hi ==> t < f(x).value
    ensures AboveRegion(f, lo, hi, t) <==> forall x :: lo <= x <= hi ==> f(x).value < t
  {
  }

  /** The same for a function that decreases from one end to the other. */
  lemma IndicatorMeaningDecreasing(f: real -> Option<real>, lo: real, hi: real, t: real)
    requires lo <= hi && DefinedOn(f, lo, hi) && DecreasingOn(f, lo, hi)
    requires f(lo).value > f(hi).value
    ensures BelowRegion(f, lo, hi, t) <==> forall x :: lo <= x <= hi ==> f(x).value < t
    ensures AboveRegion(f, lo, hi, t) <==> forall x :: lo <= x <= hi ==> t < f(x).value
  {
  }
}
