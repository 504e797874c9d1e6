/** Finite sums of reals, weighted sums, and the ordering argument that the
    latency model rests on: when weights shift upwards by likelihood ratio,
    the weighted average of a nondecreasing sequence does not go down. */
module Sums {
  import opened RealArithmetic

  /** The sum of the first `n` elements of `w`. */
  function Sum(w: seq<real>, n: nat): real
    requires n <= |w|
  {
    if n == 0 then 0.0 else Sum(w, n - 1) + w[n - 1]
  }

  /** The sum of `f[i] * w[i]` over the first `n` indices. */
  function Dot(f: seq<real>, w: seq<real>, n: nat): real
    requires n <= |f| && n <= |w|
  {
    if n == 0 then 0.0 else Dot(f, w, n - 1) + Mul(f[n - 1], w[n - 1])
  }

  ghost predicate Nondecreasing(f: seq<real>) {
    forall i, j :: 0 <= i <= j < |f| ==> f[i] <= f[j]
  }

  ghost predicate AllPositive(w: seq<real>) {
    forall i :: 0 <= i < |w| ==> 0.0 < w[i]
  }

  ghost predicate AllNonNegative(w: seq<real>) {
    forall i :: 0 <= i < |w| ==> 0.0 <= w[i]
  }

  /** Between indices `i` and `j`, `v` favours `j` over `i` at least as much as `w` does. */
  ghost predicate Favours(w: seq<real>, v: seq<real>, i: nat, j: nat)
    requires i < |w| && j < |w| && |w| == |v|
  {
    Mul(w[j], v[i]) <= Mul(w[i], v[j])
  }

  ghost predicate StrictlyFavours(w: seq<real>, v: seq<real>, i: nat, j: nat)
    requires i < |w| && j < |w| && |w| == |v|
  {
    Mul(w[j], v[i]) < Mul(w[i], v[j])
  }

  /** `v` puts relatively more weight on later indices than `w` does. */
  ghost predicate ShiftedUp(w: seq<real>, v: seq<real>) {
    && |w| == |v|
    && forall i, j :: 0 <= i <= j < |w| ==> Favours(w, v, i, j)
  }

  ghost predicate StrictlyShiftedUp(w: seq<real>, v: seq<real>) {
    && |w| == |v|
    && forall i, j :: 0 <= i < j < |w| ==> StrictlyFavours(w, v, i, j)
  }

  lemma {:induction false} SumPositive(w: seq<real>, n: nat)
    requires n <= |w|
    requires AllNonNegative(w)
    ensures 0.0 <= Sum(w, n)
    ensures n > 0 && w[0] > 0.0 ==> Sum(w, n) >= w[0]
  {
    if n > 0 {
      SumPositive(w, n - 1);
    }
  }

  lemma {:induction false} SumScaled(w: seq<real>, v: seq<real>, c: real, n: nat)
    requires n <= |w| && n <= |v|
    requires forall i :: 0 <= i < n ==> v[i] == Mul(c, w[i])
    ensures Sum(v, n) == Mul(c, Sum(w, n))
  {
    if n > 0 {
      SumScaled(w, v, c, n - 1);
      MulAdd(c, Sum(w, n - 1), w[n - 1], Sum(w, n));
    }
  }

  lemma {:induction false} DotScaled(f: seq<real>, w: seq<real>, v: seq<real>, c: real, n: nat)
    requires n <= |f| && n <= |w| && n <= |v|
    requires forall i :: 0 <= i < n ==> v[i] == Mul(c, w[i])
    ensures Dot(f, v, n) == Mul(c, Dot(f, w, n))
  {
    if n > 0 {
      DotScaled(f, w, v, c, n - 1);
      MulAssoc(f[n - 1], c, w[n - 1]);
      MulAdd(c, Dot(f, w, n - 1), Mul(f[n - 1], w[n - 1]), Dot(f, w, n));
    }
  }

  /** A sum over a prefix depends only on that prefix. */
  lemma {:induction false} SumPrefix(w: seq<real>, v: seq<real>, n: nat)
    requires n <= |w| && n <= |v|
    requires forall i :: 0 <= i < n ==> v[i] == w[i]
    ensures Sum(v, n) == Sum(w, n)
  {
    if n > 0 {
      SumPrefix(w, v, n - 1);
    }
  }

  lemma {:induction false} DotPrefix(f: seq<real>, g: seq<real>, w: seq<real>, v: seq<real>, n: nat)
    requires n <= |w| && n <= |v| && n <= |f| && n <= |g|
    requires forall i :: 0 <= i < n ==> v[i] == w[i] && f[i] == g[i]
    ensures Dot(f, w, n) == Dot(g, v, n)
  {
    if n > 0 {
      DotPrefix(f, g, w, v, n - 1);
    }
  }

  lemma {:induction false} DotDifference(f: seq<real>, g: seq<real>, h: seq<real>, w: seq<real>, n: nat)
    requires n <= |f| && n <= |g| && n <= |h| && n <= |w|
    requires forall i :: 0 <= i < n ==> h[i] == f[i] - g[i]
    ensures Dot(h, w, n) == Dot(f, w, n) - Dot(g, w, n)
  {
    if n > 0 {
      DotDifference(f, g, h, w, n - 1);
      MulAdd(w[n - 1], h[n - 1], g[n - 1], f[n - 1]);
    }
  }

  /** A weighted sum lies between the extreme values times the total weight. */
  lemma {:induction false} DotBounds(f: seq<real>, w: seq<real>, n: nat, lo: real, hi: real)
    requires n <= |f| && n <= |w|
    requires AllNonNegative(w)
    requires forall i :: 0 <= i < n ==> lo <= f[i] <= hi
    ensures Mul(lo, Sum(w, n)) <= Dot(f, w, n) <= Mul(hi, Sum(w, n))
  {
    if n > 0 {
      DotBounds(f, w, n - 1, lo, hi);
      BoundStep(lo, hi, f[n - 1], w[n - 1], Sum(w, n - 1), Sum(w, n), Dot(f, w, n - 1), Dot(f, w, n));
    }
  }

  lemma BoundStep(lo: real, hi: real, f: real, x: real, s: real, s': real, d: real, d': real)
    requires lo <= f <= hi && 0.0 <= x
    requires s' == s + x && d' == d + Mul(f, x)
    requires Mul(lo, s) <= d <= Mul(hi, s)
    ensures Mul(lo, s') <= d' <= Mul(hi, s')
  {
    MulMono(x, lo, f);
    MulMono(x, f, hi);
    MulComm(x, lo);
    MulComm(x, f);
    MulComm(x, hi);
    MulAdd(lo, s, x, s');
    MulAdd(hi, s, x, s');
  }

  /** How much `top` exceeds the first `n` values of `f`, weighed by `w`. */
  function Excess(top: real, f: seq<real>, w: seq<real>, n: nat): real
    requires n <= |f| && n <= |w|
  {
    if n == 0 then 0.0 else Excess(top, f, w, n - 1) + Mul(top - f[n - 1], w[n - 1])
  }

  lemma {:induction false} ExcessIs(top: real, f: seq<real>, w: seq<real>, n: nat)
    requires n <= |f| && n <= |w|
    ensures Excess(top, f, w, n) == Mul(top, Sum(w, n)) - Dot(f, w, n)
  {
    if n > 0 {
      ExcessIs(top, f, w, n - 1);
      ExcessIsStep(top, f[n - 1], w[n - 1], Sum(w, n - 1), Sum(w, n), Dot(f, w, n - 1), Dot(f, w, n),
                   Excess(top, f, w, n - 1), Excess(top, f, w, n));
    }
  }

  lemma ExcessIsStep(top: real, f: real, x: real, s: real, s': real, d: real, d': real, e: real, e': real)
    requires s' == s + x && d' == d + Mul(f, x) && e' == e + Mul(top - f, x)
    requires e == Mul(top, s) - d
    ensures e' == Mul(top, s') - d'
  {
    MulAdd(top, s, x, s');
    MulAdd(x, top - f, f, top);
  }

  /** The step of the ordering argument: the excess of a later value over the
      earlier ones weighs more under `w` than under `v`. */
  lemma {:induction false} ExcessOrdered(f: seq<real>, w: seq<real>, v: seq<real>, k: nat, n: nat)
    requires n <= k < |f| && |f| == |w| == |v|
    requires Nondecreasing(f)
    requires ShiftedUp(w, v)
    ensures Mul(w[k], Excess(f[k], f, v, n)) <= Mul(v[k], Excess(f[k], f, w, n))
    ensures n > 0 && f[0] < f[k] && StrictlyShiftedUp(w, v) ==>
              Mul(w[k], Excess(f[k], f, v, n)) < Mul(v[k], Excess(f[k], f, w, n))
  {
    if n > 0 {
      var i := n - 1;
      ExcessOrdered(f, w, v, k, i);
      assert Favours(w, v, i, k);
      assert StrictlyShiftedUp(w, v) ==> StrictlyFavours(w, v, i, k);
      ExcessStep(f[k] - f[i], w[k], v[k], w[i], v[i],
                 Excess(f[k], f, v, i), Excess(f[k], f, v, n),
                 Excess(f[k], f, w, i), Excess(f[k], f, w, n));
    }
  }

  lemma ExcessStep(gap: real, wk: real, vk: real, wi: real, vi: real,
                   ev: real, ev': real, ew: real, ew': real)
    requires gap >= 0.0 && Mul(wk, vi) <= Mul(wi, vk)
    requires ev' == ev + Mul(gap, vi) && ew' == ew + Mul(gap, wi)
    requires Mul(wk, ev) <= Mul(vk, ew)
    ensures Mul(wk, ev') <= Mul(vk, ew')
    ensures Mul(wk, ev) < Mul(vk, ew) || (gap > 0.0 && Mul(wk, vi) < Mul(wi, vk)) ==> Mul(wk, ev') < Mul(vk, ew')
  {
    MulMono(gap, Mul(wk, vi), Mul(wi, vk));
    MulAdd(wk, ev, Mul(gap, vi), ev');
    MulAdd(vk, ew, Mul(gap, wi), ew');
    MulAssoc(wk, gap, vi);
    MulAssoc(vk, gap, wi);
    MulComm(vk, wi);
  }

  /** What the average of `f` gains when the weights move from `w` to `v`: each index
      against all the earlier ones. */
  function Gain(f: seq<real>, w: seq<real>, v: seq<real>, n: nat): real
    requires n <= |f| && |f| == |w| == |v|
  {
    if n == 0 then 0.0
    else Gain(f, w, v, n - 1)
         + (Mul(v[n - 1], Excess(f[n - 1], f, w, n - 1)) - Mul(w[n - 1], Excess(f[n - 1], f, v, n - 1)))
  }

  lemma {:induction false} GainSign(f: seq<real>, w: seq<real>, v: seq<real>, n: nat)
    requires n <= |f| && |f| == |w| == |v|
    requires Nondecreasing(f)
    requires ShiftedUp(w, v)
    ensures 0.0 <= Gain(f, w, v, n)
    ensures n > 0 && f[0] < f[n - 1] && StrictlyShiftedUp(w, v) ==> 0.0 < Gain(f, w, v, n)
  {
    if n > 0 {
      GainSign(f, w, v, n - 1);
      ExcessOrdered(f, w, v, n - 1, n - 1);
    }
  }

  lemma {:induction false} GainIs(f: seq<real>, w: seq<real>, v: seq<real>, n: nat)
    requires n <= |f| && |f| == |w| == |v|
    ensures Gain(f, w, v, n) == Mul(Dot(f, v, n), Sum(w, n)) - Mul(Dot(f, w, n), Sum(v, n))
  {
    if n > 0 {
      GainIs(f, w, v, n - 1);
      ExcessIs(f[n - 1], f, w, n - 1);
      ExcessIs(f[n - 1], f, v, n - 1);
      GainStep(f[n - 1], w[n - 1], v[n - 1],
               Excess(f[n - 1], f, w, n - 1), Excess(f[n - 1], f, v, n - 1),
               Dot(f, w, n - 1), Dot(f, w, n), Sum(w, n - 1), Sum(w, n),
               Dot(f, v, n - 1), Dot(f, v, n), Sum(v, n - 1), Sum(v, n),
               Gain(f, w, v, n - 1), Gain(f, w, v, n));
    }
  }

  lemma GainStep(f: real, x: real, y: real, ew: real, ev: real,
                 a: real, a': real, s: real, s': real,
                 b: real, b': real, t: real, t': real, g: real, g': real)
    requires a' == a + Mul(f, x) && s' == s + x
    requires b' == b + Mul(f, y) && t' == t + y
    requires ew == Mul(f, s) - a && ev == Mul(f, t) - b
    requires g == Mul(b, s) - Mul(a, t)
    requires g' == g + (Mul(y, ew) - Mul(x, ev))
    ensures g' == Mul(b', s') - Mul(a', t')
  {
    calc {
      b' * s' - a' * t';
      (b + f * y) * (s + x) - (a + f * x) * (t + y);
      b * s + b * x + (f * y) * s + (f * y) * x - a * t - a * y - (f * x) * t - (f * x) * y;
      (b * s - a * t) + (y * (f * s - a) - x * (f * t - b));
    }
  }

  /** Likelihood-ratio ordering: averaging a nondecreasing `f` with weights shifted upwards
      gives at least as much (cross-multiplied, so that no total is divided by), and strictly
      more when the shift is strict and `f` is not constant. */
  lemma AverageShiftsUp(f: seq<real>, w: seq<real>, v: seq<real>, n: nat)
    requires n <= |f| && |f| == |w| == |v|
    requires Nondecreasing(f)
    requires ShiftedUp(w, v)
    ensures Mul(Dot(f, w, n), Sum(v, n)) <= Mul(Dot(f, v, n), Sum(w, n))
    ensures n > 0 && f[0] < f[n - 1] && StrictlyShiftedUp(w, v) ==>
              Mul(Dot(f, w, n), Sum(v, n)) < Mul(Dot(f, v, n), Sum(w, n))
  {
    GainSign(f, w, v, n);
    GainIs(f, w, v, n);
  }
}
