/** The closed-form M/M/1/K model, proved to agree with the recurrence: for a single service rate
    it leaves the same distribution and the same statistics as the state-dependent chain. */
module ClosedForm {
  import opened RealArithmetic
  import opened Sums
  import opened BirthDeath

  function Pow(x: real, n: nat): real {
    if n == 0 then 1.0 else Mul(Pow(x, n - 1), x)
  }

  lemma {:induction false} PowNonNegative(x: real, n: nat)
    requires 0.0 <= x
    ensures 0.0 <= Pow(x, n)
  {
    hide Mul;
    if n > 0 {
      PowNonNegative(x, n - 1);
      MulNonNegative(Pow(x, n - 1), x);
    }
  }

  function Powers(x: real, n: nat): (w: seq<real>)
    ensures |w| == n && forall i :: 0 <= i < n ==> w[i] == Pow(x, i)
  {
    seq(n, i requires 0 <= i => Pow(x, i))
  }

  /** The geometric sum, without dividing by 1 - x. */
  lemma {:induction false} GeometricSum(x: real, w: seq<real>, n: nat)
    requires n <= |w| && forall i :: 0 <= i < |w| ==> w[i] == Pow(x, i)
    ensures Mul(1.0 - x, Sum(w, n)) == 1.0 - Pow(x, n)
  {
    hide Mul;
    if n == 0 {
      MulUnit(1.0 - x);
    } else {
      GeometricSum(x, w, n - 1);
      MulAdd(1.0 - x, Sum(w, n - 1), w[n - 1], Sum(w, n));
      MulAdd(Pow(x, n - 1), 1.0 - x, x, 1.0);
      MulComm(Pow(x, n - 1), 1.0 - x);
      MulUnit(Pow(x, n - 1));
    }
  }

  /** At x = 1 the geometric sum counts its terms. */
  lemma {:induction false} UnitSum(w: seq<real>, n: nat)
    requires n <= |w| && forall i :: 0 <= i < |w| ==> w[i] == Pow(1.0, i)
    ensures Pow(1.0, n) == 1.0 && Sum(w, n) == n as real
  {
    if n > 0 {
      UnitSum(w, n - 1);
    }
  }

  lemma PowersSum(x: real, n: nat)
    requires 0.0 <= x && n > 0
    ensures 1.0 <= Sum(Powers(x, n), n)
  {
    var w := Powers(x, n);
    forall i | 0 <= i < n ensures 0.0 <= w[i] {
      PowNonNegative(x, i);
    }
    assert w[0] == 1.0;
    SumPositive(w, n);
  }

  /** With one service rate, the chain's weights are the powers of the utilization. */
  lemma {:induction false} WeightIsPower(arrival: real, mu: real, n: nat)
    requires 0.0 < mu
    ensures Weight([mu], arrival, n) == Pow(Div(arrival, mu), n)
  {
    hide Mul, Div;
    if n > 0 {
      WeightIsPower(arrival, mu, n - 1);
      MulThenDiv(Weight([mu], arrival, n - 1), arrival, mu);
    }
  }

  /** Probability of an empty system in closed form. */
  function EmptyProbability(rho: real, K: nat): (p0: real)
    requires 0.0 <= rho
  {
    if rho == 1.0 then
      Div(1.0, (K + 1) as real)
    else
      PowerIsNotOne(rho, K + 1);
      Div(1.0 - rho, 1.0 - Pow(rho, K + 1))
  }

  lemma PowerIsNotOne(rho: real, n: nat)
    requires 0.0 <= rho != 1.0 && 0 < n
    ensures 1.0 - Pow(rho, n) != 0.0
  {
    hide Mul, Pow;
    PowersSum(rho, n);
    GeometricSum(rho, Powers(rho, n), n);
    GeometricQuotient(1.0 - rho, Sum(Powers(rho, n), n));
  }

  /** The closed form is the reciprocal of the total weight. */
  lemma EmptyProbabilityIsReciprocal(rho: real, K: nat)
    requires 0.0 <= rho
    ensures 1.0 <= Sum(Powers(rho, K + 1), K + 1)
    ensures EmptyProbability(rho, K) == Div(1.0, Sum(Powers(rho, K + 1), K + 1))
  {
    hide Mul, Div, Pow;
    PowersSum(rho, K + 1);
    if rho == 1.0 {
      UnitSum(Powers(1.0, K + 1), K + 1);
    } else {
      GeometricSum(rho, Powers(rho, K + 1), K + 1);
      GeometricQuotient(1.0 - rho, Sum(Powers(rho, K + 1), K + 1));
    }
  }

  lemma GeometricQuotient(d: real, s: real)
    requires d != 0.0 && s > 0.0
    ensures Mul(d, s) != 0.0
    ensures Div(d, Mul(d, s)) == Div(1.0, s)
  {
    var x := 1.0 / s;
    assert x * s == 1.0;
    var t := d * s;
    assert t != 0.0;
    assert x * t == d * (x * s) == d;
    assert d / t == x;
  }

  /** The closed form and the recurrence give the same distribution, at every utilization. */
  lemma ClosedFormAgrees(arrival: real, mu: real, K: nat, p: seq<real>)
    requires 0.0 <= arrival && 0.0 < mu && |p| == K + 1 && 0.0 <= Div(arrival, mu)
    requires forall i :: 0 <= i <= K ==>
               p[i] == Mul(EmptyProbability(Div(arrival, mu), K), Pow(Div(arrival, mu), i))
    ensures p == Distribution([mu], arrival, K)
  {
    hide Mul, Div, Pow, Weight, EmptyProbability;
    var rho := Div(arrival, mu);
    var w, v := Weights([mu], arrival, K + 1), Powers(rho, K + 1);
    forall i | 0 <= i <= K ensures w[i] == v[i] {
      WeightIsPower(arrival, mu, i);
    }
    assert w == v;
    var c := DistributionScales([mu], arrival, K);
    EmptyProbabilityIsReciprocal(rho, K);
    ReciprocalUnique(Total([mu], arrival, K), c);
    assert EmptyProbability(rho, K) == c;
    var d := Distribution([mu], arrival, K);
    forall i | 0 <= i <= K ensures p[i] == d[i] {
      WeightIsPower(arrival, mu, i);
    }
  }

  lemma SingleRateServTime(arrival: real, mu: real, K: nat)
    requires 0.0 < arrival && 0.0 < mu && 1 <= K
    ensures AvgServTime([mu], arrival, K) == Div(1.0, mu)
  {
    hide Mul, Div, AvgServTime;
    ServTimeBounds([mu], arrival, K);
  }

  ghost function Scaled(c: real, w: seq<real>): (v: seq<real>)
    ensures |v| == |w| && forall i :: 0 <= i < |w| ==> v[i] == Mul(c, w[i])
  {
    seq(|w|, i requires 0 <= i < |w| => Mul(c, w[i]))
  }

  lemma PowZero(x: real)
    ensures Pow(x, 0) == 1.0
  {
  }

  class MM1KModel {
    const K: nat
    const p: array<real>
    var arrival: real
    var mu: real
    var rho: real
    var isValid: bool
    var sumP: real
    var throughput: real
    var avgNumInSystem: real
    var avgRespTime: real
    var avgServTime: real
    var avgWaitTime: real
    var avgQueueLength: real

    constructor (K: nat)
      ensures this.K == K && p.Length == K + 1 && fresh(p)
    {
      this.K := K;
      this.p := new real[K + 1](_ => 0.0);
      arrival, mu, rho, isValid, sumP, throughput := 0.0, 0.0, 0.0, false, 0.0, 0.0;
      avgNumInSystem, avgRespTime, avgServTime, avgWaitTime, avgQueueLength := 0.0, 0.0, 0.0, 0.0, 0.0;
    }

    /** Closed-form probabilities. */
    method ComputeProbabilities()
      requires p.Length == K + 1 && 0.0 <= arrival && 0.0 < mu && rho == Div(arrival, mu) >= 0.0
      modifies p, this`sumP
      ensures p[..] == Distribution([mu], arrival, K)
      ensures sumP == 1.0
    {
      hide Mul, Div, Pow, EmptyProbability;
      for i := 0 to K + 1 {
        p[i] := 0.0;
      }
      sumP := 1.0;
      p[0] := EmptyProbability(rho, K);
      ghost var p0 := p[0];
      ghost var q := Scaled(p0, Powers(rho, K + 1));
      sumP := 0.0;
      MulUnit(p0);
      PowZero(rho);
      for i := 0 to K + 1
        invariant p[0] == p0
        invariant forall j :: 0 <= j < i ==> p[j] == q[j]
        invariant sumP == Sum(q, i)
      {
        p[i] := Mul(p[0], Pow(rho, i));
        sumP := sumP + p[i];
      }
      assert p[..] == q;
      ClosedFormAgrees(arrival, mu, K, q);
      Stationary([mu], arrival, K);
    }

    /** Solves in closed form.  A valid solution equals that of the state-dependent chain with the
        single rate `mu` in every field but the utilization, which is the offered load here and the
        probability of a busy system there. */
    method Solve(arrival: real, mu: real)
      requires p.Length == K + 1
      modifies this, p
      ensures isValid <==> (0.0 <= arrival && 0.0 < mu && Div(arrival, mu) < K as real)
      ensures isValid ==>
                && rho == Div(arrival, mu)
                && p[..] == Distribution([mu], arrival, K) && sumP == 1.0
                && throughput == Throughput([mu], arrival, K)
                && avgNumInSystem == AvgNumInSystem([mu], arrival, K)
      ensures isValid && 0.0 < arrival ==>
                && 1 <= K
                && avgRespTime == AvgRespTime([mu], arrival, K)
                && avgServTime == AvgServTime([mu], arrival, K)
                && avgWaitTime == AvgWaitTime([mu], arrival, K)
                && avgQueueLength == Mul(throughput, avgWaitTime)
    {
      hide Mul, Div, Distribution, Dot, EmptyProbability;
      this.arrival := arrival;
      this.mu := mu;
      if arrival == mu {
        rho := 1.0;
        if mu != 0.0 {
          DivSelf(mu);
        }
      } else if mu == 0.0 {
        rho := *;
      } else {
        rho := Div(arrival, mu);
      }
      if rho < 0.0 || rho >= K as real || arrival < 0.0 || mu <= 0.0 {
        isValid := false;
        if 0.0 <= arrival && 0.0 < mu {
          DivSign(arrival, mu);
        }
      } else {
        isValid := true;
        DivSign(arrival, mu);
        ComputeStatistics();
      }
    }

    method ComputeStatistics()
      requires p.Length == K + 1 && 0.0 <= arrival && 0.0 < mu && rho == Div(arrival, mu) >= 0.0 && 1 <= K
      modifies this, p
      ensures arrival == old(arrival) && mu == old(mu) && rho == old(rho) && isValid == old(isValid)
      ensures p[..] == Distribution([mu], arrival, K) && sumP == 1.0
      ensures throughput == Throughput([mu], arrival, K)
      ensures avgNumInSystem == AvgNumInSystem([mu], arrival, K)
      ensures 0.0 < arrival ==>
                && avgRespTime == AvgRespTime([mu], arrival, K)
                && avgServTime == AvgServTime([mu], arrival, K)
                && avgWaitTime == AvgWaitTime([mu], arrival, K)
                && avgQueueLength == Mul(throughput, avgWaitTime)
    {
      hide Mul, Div, Distribution, EmptyProbability;
      ComputeProbabilities();
      ghost var d, all := Distribution([mu], arrival, K), Customers(K);
      var temp := 0.0;
      for i := 0 to K + 1
        invariant p[..] == d
        invariant temp == Dot(all, d, i)
      {
        assert p[i] == d[i] && all[i] == i as real;
        temp := temp + Mul(i as real, p[i]);
      }
      avgNumInSystem := temp;
      assert p[K] == d[K];
      throughput := Mul(arrival, 1.0 - p[K]);
      ThroughputPositive([mu], arrival, K);
      avgServTime := Div(1.0, mu);
      if throughput == 0.0 {
        avgRespTime, avgWaitTime, avgQueueLength := *, *, *;
      } else {
        avgRespTime := Div(avgNumInSystem, throughput);
        avgWaitTime := avgRespTime - avgServTime;
        if avgWaitTime < 0.0 {
          avgWaitTime := 0.0;
        }
        avgQueueLength := Mul(throughput, avgWaitTime);
        if 0.0 < arrival {
          SingleRateServTime(arrival, mu, K);
          WaitTimeMonotone([mu], arrival, arrival, K);
        }
      }
    }
  }
}
