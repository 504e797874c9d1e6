/** The M/M/1 model with state-dependent service rate: an object whose probability vector is
    solved in place, with rescues when an entry or the sum overflows, and whose statistics are left
    in its fields.  Each method is proved against the chain of module BirthDeath. */
module StateDependentModel {
  import opened Basics
  import opened RealArithmetic
  import opened Sums
  import opened BirthDeath

  /** Largest finite double. */
  const MAX_FLOAT64: real := 179769313486231570814527423731704356798070567525844996598917476803157260780028538760589558632766878171540458953514382464234321326889464182768467546703537516986049910576551282076245490090389328944075868508455133942304583236903222948165808559332123347764797926204144723168738177180919299881250404026184124858368.0

  class MM1ModelStateDependent {
    const K: nat              // limit on number in system
    const servRate: seq<real> // service rate with 1, 2, ... customers
    const p: array<real>      // state probabilities
    var arrival: real
    var mu: real
    var rho: real
    var isValid: bool
    var sumP: real
    var throughput: real
    var avgNumInServers: real
    var avgNumInSystem: real
    var avgRespTime: real
    var avgServTime: real
    var avgWaitTime: real
    var avgQueueLength: real

    /** What every sequence of solves keeps: the probability of an empty system is a probability,
        and it is still the initial zero when there is room for at most one customer. */
    ghost predicate Valid()
      reads this, p
    {
      && ValidRates(servRate)
      && p.Length == K + 1
      && 0.0 <= p[0] <= 1.0
      && (K <= 1 ==> p[0] == 0.0)
    }

    constructor (K: nat, servRate: seq<real>)
      requires ValidRates(servRate)
      ensures Valid() && fresh(p)
      ensures this.K == K && this.servRate == servRate
    {
      this.K := K;
      this.servRate := servRate;
      this.p := new real[K + 1](_ => 0.0);
      arrival, mu, rho, isValid, sumP, throughput := 0.0, 0.0, 0.0, false, 0.0, 0.0;
      avgNumInServers, avgNumInSystem := 0.0, 0.0;
      avgRespTime, avgServTime, avgWaitTime, avgQueueLength := 0.0, 0.0, 0.0, 0.0;
    }

    /** Utilization: probability that the system is not empty. */
    function ComputeRho(): (r: real)
      reads this, p
      requires p.Length == K + 1
    {
      1.0 - p[0]
    }

    /** The first `m` entries are the chain's weights up to the common factor `c`. */
    ghost predicate Proportional(m: nat, c: real)
      reads this, p
      requires ValidRates(servRate) && m <= p.Length
    {
      forall i :: 0 <= i < m ==> p[i] == Mul(c, Weight(servRate, arrival, i))
    }

    /** Overflow rescue in the recurrence: divide the entries computed so far by `scale`. */
    method Rescale(m: nat, scale: real, ghost c: real) returns (ghost c': real)
      requires ValidRates(servRate) && m <= p.Length
      requires scale > 0.0 && c > 0.0 && Proportional(m, c)
      modifies p
      ensures c' > 0.0 && Proportional(m, c')
    {
      hide Mul, Div, Weight;
      c' := Div(c, scale);
      DivSign(c, scale);
      for i := 0 to m
        invariant forall j :: 0 <= j < i ==> p[j] == Mul(c', Weight(servRate, arrival, j))
        invariant forall j :: i <= j < m ==> p[j] == Mul(c, Weight(servRate, arrival, j))
      {
        p[i] := Div(p[i], scale);
        ScaleStep(c, Weight(servRate, arrival, i), scale);
      }
    }

    /** Overflow rescue in the normalising loop: divide every entry by `scale` and recompute the
        partial sum of the first `n + 1`. */
    method RescaleAndSum(n: nat, scale: real, ghost c: real) returns (sum: real, ghost c': real)
      requires ValidRates(servRate) && p.Length == K + 1 && n <= K
      requires scale > 0.0 && c > 0.0 && Proportional(K + 1, c)
      modifies p
      ensures c' > 0.0 && Proportional(K + 1, c')
      ensures sum == Mul(c', Sum(Weights(servRate, arrival, K + 1), n + 1))
    {
      hide Mul, Div, Weight;
      ghost var w := Weights(servRate, arrival, K + 1);
      c' := Div(c, scale);
      DivSign(c, scale);
      sum := 0.0;
      MulUnit(c');
      for i := 0 to K + 1
        invariant forall j :: 0 <= j < i ==> p[j] == Mul(c', Weight(servRate, arrival, j))
        invariant forall j :: i <= j <= K ==> p[j] == Mul(c, Weight(servRate, arrival, j))
        invariant sum == Mul(c', Sum(w, Min(i, n + 1)))
      {
        p[i] := Div(p[i], scale);
        ScaleStep(c, Weight(servRate, arrival, i), scale);
        if i <= n {
          sum := sum + p[i];
          MulAdd(c', Sum(w, i), w[i], Sum(w, i + 1));
        }
      }
    }

    /** The recurrence loop.  The rescue may fire any finite number of times at any state. */
    method ComputeWeights(scale: real) returns (ghost c: real)
      requires ValidRates(servRate) && p.Length == K + 1 && scale > 0.0
      modifies p
      ensures c > 0.0 && Proportional(K + 1, c)
    {
      hide Mul, Div;
      p[0] := 1.0;
      c := 1.0;
      MulUnit(1.0);
      for n := 0 to K
        invariant c > 0.0 && Proportional(n + 1, c)
      {
        var num := |servRate|;
        var sRate := if n < num then servRate[n] else servRate[num - 1];
        p[n + 1] := Div(Mul(p[n], arrival), sRate);
        NextWeight(c, Weight(servRate, arrival, n), arrival, sRate);
        var fires: nat := *;
        while fires > 0
          invariant c > 0.0 && Proportional(n + 2, c)
        {
          c := Rescale(n + 1, scale, c);
          p[n + 1] := Div(Mul(p[n], arrival), sRate);
          NextWeight(c, Weight(servRate, arrival, n), arrival, sRate);
          fires := fires - 1;
        }
      }
    }

    /** The summing loop.  The rescue may fire at any state. */
    method SumWeights(scale: real, ghost c0: real) returns (sum: real, ghost c: real)
      requires ValidRates(servRate) && p.Length == K + 1 && scale > 0.0
      requires c0 > 0.0 && Proportional(K + 1, c0)
      modifies p
      ensures c > 0.0 && Proportional(K + 1, c)
      ensures sum == Mul(c, Total(servRate, arrival, K))
    {
      hide Mul, Div, Weight;
      ghost var w := Weights(servRate, arrival, K + 1);
      c := c0;
      sum := 0.0;
      MulUnit(c);
      for n := 0 to K + 1
        invariant c > 0.0 && Proportional(K + 1, c)
        invariant sum == Mul(c, Sum(w, n))
      {
        sum := sum + p[n];
        MulAdd(c, Sum(w, n), w[n], Sum(w, n + 1));
        var overflow: bool := *;
        if overflow {
          sum, c := RescaleAndSum(n, scale, c);
        }
      }
    }

    /** Solves the chain in place.  Whatever the rescues did, the result is the stationary
        distribution of the unscaled chain. */
    method ComputeProbabilities()
      requires ValidRates(servRate) && p.Length == K + 1 && 1 <= K && 0.0 <= arrival
      modifies p, this`sumP, this`rho
      ensures p[..] == Distribution(servRate, arrival, K)
      ensures sumP == 1.0
      ensures rho == ComputeRho()
    {
      hide Mul, Div, Weight;
      var scale := MAX_FLOAT64 / K as real;
      ghost var c := ComputeWeights(scale);
      var sum;
      sum, c := SumWeights(scale, c);
      WeightsSign(servRate, arrival, K + 1);
      MulSign(c, Total(servRate, arrival, K));
      ghost var d := Distribution(servRate, arrival, K);
      sumP := 0.0;
      for n := 0 to K + 1
        invariant p.Length == K + 1
        invariant forall j :: 0 <= j < n ==> p[j] == d[j]
        invariant forall j :: n <= j <= K ==> p[j] == Mul(c, Weight(servRate, arrival, j))
        invariant sumP == Sum(d, n)
      {
        p[n] := Div(p[n], sum);
        NormalStep(c, Weight(servRate, arrival, n), Total(servRate, arrival, K));
        sumP := sumP + p[n];
      }
      Stationary(servRate, arrival, K);
      rho := ComputeRho();
    }

    /** Number of customers in the system and in service, accumulated in one pass. */
    method Occupancy() returns (inServers: real, inSystem: real)
      requires ValidRates(servRate) && p.Length == K + 1 && 0.0 <= arrival
      requires p[..] == Distribution(servRate, arrival, K)
      ensures inSystem == AvgNumInSystem(servRate, arrival, K)
      ensures |servRate| <= K ==> inServers == AvgNumInServers(servRate, arrival, K)
      ensures |servRate| > K ==> inServers == 0.0
    {
      hide Mul, Div, Distribution;
      var num := |servRate|;
      ghost var d, all, busy := Distribution(servRate, arrival, K), Customers(K), InService(num, K);
      inServers, inSystem := 0.0, 0.0;
      var sum := p[0];
      assert sum == d[0];
      OccupancyFirst(d, K, num);
      for i := 1 to K + 1
        invariant inSystem == Dot(all, d, i)
        invariant sum == Sum(d, i)
        invariant i <= num ==> inServers == 0.0 && Dot(busy, d, i) == Dot(all, d, i)
        invariant i > num ==> inServers == Dot(busy, d, i) + Mul(num as real, 1.0 - Sum(d, i))
      {
        assert p[i] == d[i];
        inSystem := inSystem + Mul(i as real, p[i]);
        sum := sum + p[i];
        if i == num {
          inServers := inSystem + Mul(1.0 - sum, num as real);
          MulComm(1.0 - sum, num as real);
        } else {
          MulAdd(num as real, 1.0 - Sum(d, i + 1), d[i], 1.0 - Sum(d, i));
        }
        assert busy[i] == Min(i, num) as real && all[i] == i as real;
      }
      Stationary(servRate, arrival, K);
      MulUnit(num as real);
    }

    /** Statistics from the probabilities.  With no arrivals the throughput is zero and the time
        averages are not numbers; they are left arbitrary. */
    method ComputeStatistics()
      requires ValidRates(servRate) && p.Length == K + 1 && 1 <= K && 0.0 <= arrival
      modifies this, p
      ensures arrival == old(arrival) && mu == old(mu) && isValid == old(isValid)
      ensures p[..] == Distribution(servRate, arrival, K) && sumP == 1.0
      ensures rho == ComputeRho()
      ensures throughput == Throughput(servRate, arrival, K)
      ensures avgNumInSystem == AvgNumInSystem(servRate, arrival, K)
      ensures |servRate| <= K ==> avgNumInServers == AvgNumInServers(servRate, arrival, K)
      ensures 0.0 < arrival ==> avgRespTime == AvgRespTime(servRate, arrival, K)
      ensures 0.0 < arrival && |servRate| <= K ==>
                && avgServTime == AvgServTime(servRate, arrival, K)
                && avgWaitTime == AvgWaitTime(servRate, arrival, K)
                && avgQueueLength == Mul(throughput, avgWaitTime)
    {
      hide Mul, Div, Distribution, Dot;
      ComputeProbabilities();
      avgNumInServers, avgNumInSystem := Occupancy();
      throughput := Mul(arrival, 1.0 - p[K]);
      assert p[K] == p[..][K];
      ThroughputPositive(servRate, arrival, K);
      if throughput == 0.0 {
        avgRespTime, avgServTime, avgWaitTime, avgQueueLength := *, *, *, *;
      } else {
        avgRespTime := Div(avgNumInSystem, throughput);
        avgServTime := Div(avgNumInServers, throughput);
        avgWaitTime := avgRespTime - avgServTime;
        if avgWaitTime < 0.0 {
          avgWaitTime := 0.0;
        }
        avgQueueLength := Mul(throughput, avgWaitTime);
        if 0.0 < arrival {
          WaitTimeMonotone(servRate, arrival, arrival, K);
        }
      }
    }

    /** Solves for an arrival rate.  Over every history of earlier solves, the model is valid exactly
        when the rates are in range and there is room for two customers, and a valid solution with
        traffic depends on the arrival rate alone; an invalid call changes no statistic. */
    method Solve(arrival: real, mu: real)
      requires Valid()
      modifies this, p
      ensures Valid()
      ensures this.arrival == arrival && this.mu == mu
      ensures isValid <==> (2 <= K && 0.0 <= arrival && 0.0 < mu)
      ensures isValid ==>
                && p[..] == Distribution(servRate, arrival, K) && sumP == 1.0
                && rho == ComputeRho()
                && throughput == Throughput(servRate, arrival, K)
                && avgNumInSystem == AvgNumInSystem(servRate, arrival, K)
                && (|servRate| <= K ==> avgNumInServers == AvgNumInServers(servRate, arrival, K))
      ensures isValid && 0.0 < arrival ==> avgRespTime == AvgRespTime(servRate, arrival, K)
      ensures isValid && 0.0 < arrival && |servRate| <= K ==>
                && avgServTime == AvgServTime(servRate, arrival, K)
                && avgWaitTime == AvgWaitTime(servRate, arrival, K)
                && avgQueueLength == Mul(throughput, avgWaitTime)
      ensures !isValid ==>
                && p[..] == old(p[..])
                && throughput == old(throughput)
                && avgNumInServers == old(avgNumInServers) && avgNumInSystem == old(avgNumInSystem)
                && avgRespTime == old(avgRespTime) && avgServTime == old(avgServTime)
                && avgWaitTime == old(avgWaitTime) && avgQueueLength == old(avgQueueLength)
    {
      hide Mul, Div, Distribution, Dot;
      this.arrival := arrival;
      this.mu := mu;
      rho := ComputeRho();
      if rho < 0.0 || rho >= K as real || arrival < 0.0 || mu <= 0.0 {
        isValid := false;
      } else {
        isValid := true;
        ComputeStatistics();
        Stationary(servRate, arrival, K);
        assert p[0] == p[..][0];
      }
    }
  }

  /** A whole history of solves on one model: what it ends with depends on the last call alone. */
  method SolveEach(model: MM1ModelStateDependent, calls: seq<(real, real)>)
    requires model.Valid()
    modifies model, model.p
    ensures model.Valid()
    ensures calls != [] ==>
              var arrival, mu := calls[|calls| - 1].0, calls[|calls| - 1].1;
              && (model.isValid <==> (2 <= model.K && 0.0 <= arrival && 0.0 < mu))
              && (model.isValid ==> model.p[..] == Distribution(model.servRate, arrival, model.K))
              && (model.isValid && 0.0 < arrival && |model.servRate| <= model.K ==>
                    && model.avgServTime == AvgServTime(model.servRate, arrival, model.K)
                    && model.avgWaitTime == AvgWaitTime(model.servRate, arrival, model.K))
  {
    hide Mul, Div, Distribution, Dot, AvgServTime, AvgWaitTime, ValidRates;
    if calls != [] {
      for i := 0 to |calls| - 1
        invariant model.Valid()
      {
        model.Solve(calls[i].0, calls[i].1);
      }
      model.Solve(calls[|calls| - 1].0, calls[|calls| - 1].1);
    }
  }

  lemma OccupancyFirst(d: seq<real>, K: nat, num: nat)
    requires |d| == K + 1
    ensures Dot(Customers(K), d, 1) == Dot(InService(num, K), d, 1) == 0.0
    ensures Sum(d, 1) == d[0]
  {
    MulUnit(d[0]);
    assert Dot(Customers(K), d, 1) == Dot(Customers(K), d, 0) + Mul(0.0, d[0]);
    assert Dot(InService(num, K), d, 1) == Dot(InService(num, K), d, 0) + Mul(0.0, d[0]);
    assert Sum(d, 1) == Sum(d, 0) + d[0];
  }

  lemma ScaleStep(c: real, w: real, scale: real)
    requires scale > 0.0
    ensures Div(Mul(c, w), scale) == Mul(Div(c, scale), w)
  {
    var x := c / scale;
    assert x * scale == c;
    assert (x * w) * scale == c * w;
  }

  lemma NextWeight(c: real, w: real, arrival: real, r: real)
    requires r > 0.0
    ensures Div(Mul(Mul(c, w), arrival), r) == Mul(c, Div(Mul(w, arrival), r))
  {
    var y := w * arrival / r;
    assert y * r == w * arrival;
    assert (c * y) * r == c * (w * arrival);
    assert (c * w) * arrival == c * (w * arrival);
  }

  lemma NormalStep(c: real, w: real, total: real)
    requires c > 0.0 && total > 0.0
    ensures Mul(c, total) > 0.0
    ensures Div(Mul(c, w), Mul(c, total)) == Div(w, total)
  {
    CancelQuotient(c, w, total);
  }
}
