/** The finite birth-death chain behind the queueing model: arrivals at rate `arrival`, at most
    `K` customers, and a service rate that depends on the number of customers and stays at its
    last value once the batch is full.  This module defines the stationary solution and its
    statistics, and proves how the averages move with the arrival rate. */
module BirthDeath {
  import opened Basics
  import opened RealArithmetic
  import opened Sums

  /** What the solver demands of the rates: at least one, and none of them zero. */
  ghost predicate ValidRates(rates: seq<real>) {
    |rates| >= 1 && AllPositive(rates)
  }

  /** Service rate with `n + 1` customers in the system. */
  function RateAt(rates: seq<real>, n: nat): (r: real)
    requires |rates| >= 1
  {
    if n < |rates| then rates[n] else rates[|rates| - 1]
  }

  /** Unnormalised probability of `n` customers. */
  function Weight(rates: seq<real>, arrival: real, n: nat): real
    requires ValidRates(rates)
  {
    if n == 0 then 1.0 else Div(Mul(Weight(rates, arrival, n - 1), arrival), RateAt(rates, n - 1))
  }

  function Weights(rates: seq<real>, arrival: real, n: nat): (w: seq<real>)
    requires ValidRates(rates)
    ensures |w| == n && forall i :: 0 <= i < n ==> w[i] == Weight(rates, arrival, i)
  {
    seq(n, i requires 0 <= i < n => Weight(rates, arrival, i))
  }

  function Total(rates: seq<real>, arrival: real, K: nat): real
    requires ValidRates(rates)
  {
    Sum(Weights(rates, arrival, K + 1), K + 1)
  }

  lemma {:induction false} WeightSign(rates: seq<real>, arrival: real, n: nat)
    requires ValidRates(rates)
    ensures 0.0 <= arrival ==> 0.0 <= Weight(rates, arrival, n)
    ensures 0.0 < arrival ==> 0.0 < Weight(rates, arrival, n)
  {
    hide Mul, Div;
    if n > 0 {
      WeightSign(rates, arrival, n - 1);
      RateStepSign(Weight(rates, arrival, n - 1), arrival, RateAt(rates, n - 1));
    }
  }

  lemma RateStepSign(w: real, arrival: real, r: real)
    requires r > 0.0
    ensures 0.0 <= w && 0.0 <= arrival ==> 0.0 <= Div(Mul(w, arrival), r)
    ensures 0.0 < w && 0.0 < arrival ==> 0.0 < Div(Mul(w, arrival), r)
  {
    hide Div;
    if 0.0 <= w && 0.0 <= arrival {
      assert 0.0 <= Mul(w, arrival);
      DivSign(Mul(w, arrival), r);
    }
  }

  lemma WeightsSign(rates: seq<real>, arrival: real, n: nat)
    requires ValidRates(rates)
    requires 0.0 <= arrival
    ensures AllNonNegative(Weights(rates, arrival, n))
    ensures 0.0 < arrival ==> AllPositive(Weights(rates, arrival, n))
    ensures n > 0 ==> 1.0 <= Sum(Weights(rates, arrival, n), n)
  {
    var w := Weights(rates, arrival, n);
    forall i | 0 <= i < n ensures 0.0 <= w[i] && (0.0 < arrival ==> 0.0 < w[i]) {
      WeightSign(rates, arrival, i);
    }
    SumPositive(w, n);
    assert n > 0 ==> w[0] == Weight(rates, arrival, 0);
  }

  /** Stationary distribution over 0..K customers. */
  function Distribution(rates: seq<real>, arrival: real, K: nat): (p: seq<real>)
    requires ValidRates(rates)
    requires 0.0 <= arrival
    ensures |p| == K + 1
  {
    WeightsSign(rates, arrival, K + 1);
    seq(K + 1, i requires 0 <= i < K + 1 => Div(Weight(rates, arrival, i), Total(rates, arrival, K)))
  }

  lemma DistributionScales(rates: seq<real>, arrival: real, K: nat) returns (c: real)
    requires ValidRates(rates)
    requires 0.0 <= arrival
    ensures 0.0 < c <= 1.0 && Mul(c, Total(rates, arrival, K)) == 1.0
    ensures forall i :: 0 <= i <= K ==>
              Distribution(rates, arrival, K)[i] == Mul(c, Weights(rates, arrival, K + 1)[i])
  {
    hide Mul, Div;
    WeightsSign(rates, arrival, K + 1);
    c := 1.0 / Total(rates, arrival, K);
    Reciprocal(Total(rates, arrival, K), c);
    forall i | 0 <= i <= K
      ensures Distribution(rates, arrival, K)[i] == Mul(c, Weights(rates, arrival, K + 1)[i])
    {
      DivAsMul(Weight(rates, arrival, i), Total(rates, arrival, K), c);
    }
  }

  /** Between `n` and `n + 1` customers, flow up equals flow down. */
  ghost predicate Balanced(rates: seq<real>, arrival: real, p: seq<real>, n: nat)
    requires |rates| >= 1 && n + 1 < |p|
  {
    Mul(arrival, p[n]) == Mul(RateAt(rates, n), p[n + 1])
  }

  /** The solved probabilities are a distribution, every state is reached when there is traffic,
      and flow up equals flow down between neighbouring states. */
  lemma Stationary(rates: seq<real>, arrival: real, K: nat)
    requires ValidRates(rates)
    requires 0.0 <= arrival
    ensures var p := Distribution(rates, arrival, K);
            && AllNonNegative(p)
            && (0.0 < arrival ==> AllPositive(p))
            && Sum(p, K + 1) == 1.0
            && 0.0 < p[0] <= 1.0
            && forall n :: 0 <= n < K ==> Balanced(rates, arrival, p, n)
  {
    hide Mul, Div;
    var p, w := Distribution(rates, arrival, K), Weights(rates, arrival, K + 1);
    var c := DistributionScales(rates, arrival, K);
    WeightsSign(rates, arrival, K + 1);
    SumScaled(w, p, c, K + 1);
    forall i | 0 <= i <= K ensures 0.0 <= p[i] && (0.0 < arrival ==> 0.0 < p[i]) {
      MulSign(c, w[i]);
    }
    forall n | 0 <= n < K ensures Balanced(rates, arrival, p, n) {
      BalanceStep(arrival, RateAt(rates, n), w[n], w[n + 1], c, p[n], p[n + 1]);
    }
    MulUnit(c);
    assert p[0] == Mul(c, w[0]) == c;
  }

  lemma BalanceStep(arrival: real, r: real, w: real, w': real, c: real, p: real, p': real)
    requires r > 0.0 && w' == Div(Mul(w, arrival), r) && p == Mul(c, w) && p' == Mul(c, w')
    ensures Mul(arrival, p) == Mul(r, p')
  {
    assert r * w' == w * arrival;
    MulAssoc(r, c, w');
    MulAssoc(arrival, c, w);
  }

  // ---- Statistics, as the model computes them ----

  /** Number of customers in each state. */
  function Customers(K: nat): (c: seq<real>)
    ensures |c| == K + 1 && forall i :: 0 <= i <= K ==> c[i] == i as real
  {
    seq(K + 1, i requires 0 <= i => i as real)
  }

  /** Number of customers receiving service in each state, with a batch of `num`. */
  function InService(num: nat, K: nat): (c: seq<real>)
    ensures |c| == K + 1 && forall i :: 0 <= i <= K ==> c[i] == Min(i, num) as real
  {
    seq(K + 1, i requires 0 <= i => Min(i, num) as real)
  }

  /** Number of customers waiting in each state. */
  function Waiting(num: nat, K: nat): (c: seq<real>)
    ensures |c| == K + 1 && forall i :: 0 <= i <= K ==> c[i] == (i - Min(i, num)) as real
  {
    seq(K + 1, i requires 0 <= i => (i - Min(i, num)) as real)
  }

  function Throughput(rates: seq<real>, arrival: real, K: nat): real
    requires ValidRates(rates)
    requires 0.0 <= arrival
  {
    Mul(arrival, 1.0 - Distribution(rates, arrival, K)[K])
  }

  function AvgNumInSystem(rates: seq<real>, arrival: real, K: nat): real
    requires ValidRates(rates)
    requires 0.0 <= arrival
  {
    Dot(Customers(K), Distribution(rates, arrival, K), K + 1)
  }

  function AvgNumInServers(rates: seq<real>, arrival: real, K: nat): real
    requires ValidRates(rates)
    requires 0.0 <= arrival
  {
    Dot(InService(|rates|, K), Distribution(rates, arrival, K), K + 1)
  }

  /** Time per served customer spent in the states that `c` counts (Little's law). */
  function TimePerCustomer(rates: seq<real>, c: seq<real>, arrival: real, K: nat): real
    requires ValidRates(rates)
    requires 0.0 < arrival && 1 <= K && |c| == K + 1
  {
    ThroughputPositive(rates, arrival, K);
    Div(Dot(c, Distribution(rates, arrival, K), K + 1), Throughput(rates, arrival, K))
  }

  function AvgRespTime(rates: seq<real>, arrival: real, K: nat): real
    requires ValidRates(rates)
    requires 0.0 < arrival && 1 <= K
  {
    TimePerCustomer(rates, Customers(K), arrival, K)
  }

  function AvgServTime(rates: seq<real>, arrival: real, K: nat): real
    requires ValidRates(rates)
    requires 0.0 < arrival && 1 <= K
  {
    TimePerCustomer(rates, InService(|rates|, K), arrival, K)
  }

  function AvgWaitTime(rates: seq<real>, arrival: real, K: nat): real
    requires ValidRates(rates)
    requires 0.0 < arrival && 1 <= K
  {
    AvgRespTime(rates, arrival, K) - AvgServTime(rates, arrival, K)
  }

  lemma ThroughputPositive(rates: seq<real>, arrival: real, K: nat)
    requires ValidRates(rates)
    requires 0.0 <= arrival
    ensures 0.0 <= Throughput(rates, arrival, K) <= arrival
    ensures 0.0 < arrival && 1 <= K ==> 0.0 < Throughput(rates, arrival, K) < arrival
  {
    hide Mul, Div, Distribution, Weight;
    Stationary(rates, arrival, K);
    var p := Distribution(rates, arrival, K);
    SumPositive(p, K);
    MulUnit(arrival);
    assert Sum(p, K + 1) == Sum(p, K) + p[K];
    MulMono(arrival, 0.0, 1.0 - p[K]);
    MulMono(arrival, 1.0 - p[K], 1.0);
  }

  // ---- Averages over the states an arrival can see ----

  /** Average of `d` over the states 0..|d|-1, weighed by the chain. */
  function Mean(rates: seq<real>, d: seq<real>, arrival: real): real
    requires ValidRates(rates)
    requires 0.0 <= arrival && 1 <= |d|
  {
    WeightsSign(rates, arrival, |d|);
    Div(Dot(d, Weights(rates, arrival, |d|), |d|), Sum(Weights(rates, arrival, |d|), |d|))
  }

  /** Rate balance turns a sum over the states reached by an arrival into a sum over the states
      the arrival finds. */
  lemma {:induction false} ShiftStates(rates: seq<real>, c: seq<real>, d: seq<real>, arrival: real,
                                       w: seq<real>, m: nat)
    requires ValidRates(rates)
    requires m < |w| && m < |c| && m <= |d|
    requires forall i :: 0 <= i < |w| ==> w[i] == Weight(rates, arrival, i)
    requires c[0] == 0.0
    requires forall j :: 0 <= j < m ==> d[j] == Div(c[j + 1], RateAt(rates, j))
    ensures Dot(c, w, m + 1) == Mul(arrival, Dot(d, w, m))
  {
    hide Mul, Div;
    MulUnit(w[0]);
    MulUnit(arrival);
    if m == 0 {
      assert Dot(c, w, 1) == Dot(c, w, 0) + Mul(c[0], w[0]);
    } else {
      ShiftStates(rates, c, d, arrival, w, m - 1);
      assert w[m] == Div(Mul(w[m - 1], arrival), RateAt(rates, m - 1));
      ShiftStep(arrival, RateAt(rates, m - 1), c[m], d[m - 1], w[m - 1], w[m],
                Dot(c, w, m), Dot(c, w, m + 1), Dot(d, w, m - 1), Dot(d, w, m));
    }
  }

  lemma ShiftStep(arrival: real, r: real, c: real, d: real, w: real, w': real,
                  dc: real, dc': real, dd: real, dd': real)
    requires r > 0.0 && d == Div(c, r) && w' == Div(Mul(w, arrival), r)
    requires dc' == dc + Mul(c, w') && dd' == dd + Mul(d, w)
    requires dc == Mul(arrival, dd)
    ensures dc' == Mul(arrival, dd')
  {
    assert c == Mul(d, r);
    assert Mul(r, w') == Mul(w, arrival) == Mul(arrival, w);
    MulAssoc(d, r, w');
    MulAssoc(arrival, d, w);
    MulAdd(arrival, dd, Mul(d, w), dd');
  }

  /** Little's law quotient as an average over what arrivals find. */
  lemma TimePerCustomerIsMean(rates: seq<real>, c: seq<real>, d: seq<real>, arrival: real, K: nat)
    requires ValidRates(rates)
    requires 0.0 < arrival && 1 <= K && |c| == K + 1 && |d| == K
    requires c[0] == 0.0
    requires forall j :: 0 <= j < K ==> d[j] == Div(c[j + 1], RateAt(rates, j))
    ensures TimePerCustomer(rates, c, arrival, K) == Mean(rates, d, arrival)
  {
    hide Mul, Div, Distribution, Weight, RateAt, Dot;
    var p, w, u := Distribution(rates, arrival, K), Weights(rates, arrival, K + 1), Weights(rates, arrival, K);
    var q := DistributionScales(rates, arrival, K);
    WeightsSign(rates, arrival, K + 1);
    WeightsSign(rates, arrival, K);
    ThroughputPositive(rates, arrival, K);
    DotScaled(c, w, p, q, K + 1);
    ShiftStates(rates, c, d, arrival, w, K);
    DotPrefix(d, d, w, u, K);
    SumPrefix(u, w, K);
    assert Total(rates, arrival, K) == Sum(u, K) + w[K];
    assert p[K] == Mul(q, w[K]);
    QuotientStep(arrival, q, Dot(d, u, K), Sum(u, K), w[K], p[K],
                 Dot(c, w, K + 1), Dot(c, p, K + 1), Throughput(rates, arrival, K));
  }

  lemma QuotientStep(arrival: real, q: real, dd: real, s: real, last: real, plast: real,
                     dw: real, dp: real, thr: real)
    requires arrival > 0.0 && q > 0.0 && s > 0.0 && thr > 0.0
    requires Mul(q, s + last) == 1.0 && plast == Mul(q, last)
    requires dw == Mul(arrival, dd) && dp == Mul(q, dw) && thr == Mul(arrival, 1.0 - plast)
    ensures Div(dp, thr) == Div(dd, s)
  {
    MulAdd(q, s, last, s + last);
    assert 1.0 - plast == Mul(q, s);
    MulAssoc(arrival, q, s);
    MulAssoc(arrival, q, dd);
    CancelQuotient(Mul(arrival, q), dd, s);
  }

  // ---- Dependence on the arrival rate ----

  lemma {:induction false} WeightRatio(rates: seq<real>, arrival: real, arrival': real, i: nat, j: nat)
    requires ValidRates(rates)
    requires 0.0 < arrival <= arrival' && i <= j
    ensures Mul(Weight(rates, arrival, j), Weight(rates, arrival', i)) <= Mul(Weight(rates, arrival, i), Weight(rates, arrival', j))
    ensures arrival < arrival' && i < j ==>
              Mul(Weight(rates, arrival, j), Weight(rates, arrival', i)) < Mul(Weight(rates, arrival, i), Weight(rates, arrival', j))
    decreases j
  {
    if i < j {
      WeightRatio(rates, arrival, arrival', i, j - 1);
      WeightSign(rates, arrival, i);
      WeightSign(rates, arrival, j - 1);
      WeightSign(rates, arrival', i);
      RatioStep(arrival, arrival', RateAt(rates, j - 1),
                Weight(rates, arrival, i), Weight(rates, arrival', i),
                Weight(rates, arrival, j - 1), Weight(rates, arrival', j - 1),
                Weight(rates, arrival, j), Weight(rates, arrival', j));
    }
  }

  lemma RatioStep(l: real, l': real, r: real, wi: real, vi: real, wj: real, vj: real, wk: real, vk: real)
    requires 0.0 < l <= l' && r > 0.0 && wi > 0.0 && vi > 0.0 && wj > 0.0
    requires wk == Div(Mul(wj, l), r) && vk == Div(Mul(vj, l'), r)
    requires Mul(wj, vi) <= Mul(wi, vj)
    ensures Mul(wk, vi) <= Mul(wi, vk)
    ensures l < l' ==> Mul(wk, vi) < Mul(wi, vk)
  {
    var a, b := Mul(wj, vi), Mul(wi, vj);
    MulSign(wj, vi);
    MulMono(l, a, b);
    MulMono(b, l, l');
    assert Mul(Mul(wk, vi), r) == Mul(l, a) by {
      assert wk * r == wj * l;
      assert (wk * vi) * r == (wk * r) * vi;
      assert (wj * l) * vi == l * (wj * vi);
    }
    assert Mul(Mul(wi, vk), r) == Mul(b, l') by {
      assert vk * r == vj * l';
      assert (wi * vk) * r == wi * (vk * r);
      assert wi * (vj * l') == (wi * vj) * l';
    }
    MulComm(b, l);
    CancelFactor(Mul(wk, vi), Mul(wi, vk), r);
  }

  /** A larger arrival rate shifts the weights upwards. */
  lemma WeightsShiftUp(rates: seq<real>, arrival: real, arrival': real, n: nat)
    requires ValidRates(rates)
    requires 0.0 < arrival <= arrival'
    ensures ShiftedUp(Weights(rates, arrival, n), Weights(rates, arrival', n))
    ensures arrival < arrival' ==> StrictlyShiftedUp(Weights(rates, arrival, n), Weights(rates, arrival', n))
  {
    var w, v := Weights(rates, arrival, n), Weights(rates, arrival', n);
    forall i, j | 0 <= i <= j < n
      ensures Favours(w, v, i, j)
      ensures arrival < arrival' && i < j ==> StrictlyFavours(w, v, i, j)
    {
      WeightRatio(rates, arrival, arrival', i, j);
    }
  }

  /** The monotonicity law: a nondecreasing quantity grows on average with the arrival rate,
      strictly when it is not constant. */
  lemma MeanMonotone(rates: seq<real>, d: seq<real>, arrival: real, arrival': real)
    requires ValidRates(rates)
    requires 0.0 < arrival <= arrival' && 1 <= |d|
    requires Nondecreasing(d)
    ensures Mean(rates, d, arrival) <= Mean(rates, d, arrival')
    ensures arrival < arrival' && d[0] < d[|d| - 1] ==> Mean(rates, d, arrival) < Mean(rates, d, arrival')
  {
    hide Mul, Div;
    var n := |d|;
    var w, v := Weights(rates, arrival, n), Weights(rates, arrival', n);
    WeightsSign(rates, arrival, n);
    WeightsSign(rates, arrival', n);
    WeightsShiftUp(rates, arrival, arrival', n);
    AverageShiftsUp(d, w, v, n);
    CrossOrdered(Dot(d, w, n), Sum(w, n), Dot(d, v, n), Sum(v, n));
  }

  lemma MeanBounds(rates: seq<real>, d: seq<real>, arrival: real, lo: real, hi: real)
    requires ValidRates(rates)
    requires 0.0 <= arrival && 1 <= |d|
    requires forall i :: 0 <= i < |d| ==> lo <= d[i] <= hi
    ensures lo <= Mean(rates, d, arrival) <= hi
  {
    hide Mul, Div;
    var n := |d|;
    var w := Weights(rates, arrival, n);
    WeightsSign(rates, arrival, n);
    DotBounds(d, w, n, lo, hi);
    var s, a := Sum(w, n), Dot(d, w, n);
    DivCancels(a, s);
    CancelFactor(lo, Div(a, s), s);
    CancelFactor(Div(a, s), hi, s);
  }

  // ---- Service and waiting time ----

  /** Time of a batch when an arrival finds `j` customers: customers served over service rate. */
  function ServTimes(rates: seq<real>, K: nat): (d: seq<real>)
    requires ValidRates(rates)
    ensures |d| == K
    ensures forall j :: 0 <= j < K ==> d[j] == Div(Min(j + 1, |rates|) as real, RateAt(rates, j))
  {
    seq(K, j requires 0 <= j => Div(Min(j + 1, |rates|) as real, RateAt(rates, j)))
  }

  /** Delay of an arrival that finds `j` customers: customers left waiting over service rate. */
  function WaitTimes(rates: seq<real>, K: nat): (d: seq<real>)
    requires ValidRates(rates)
    ensures |d| == K
    ensures forall j :: 0 <= j < K ==> d[j] == Div((j + 1 - Min(j + 1, |rates|)) as real, RateAt(rates, j))
  {
    seq(K, j requires 0 <= j => Div((j + 1 - Min(j + 1, |rates|)) as real, RateAt(rates, j)))
  }

  /** A larger batch takes at least as long. */
  ghost predicate BatchesSlowDown(rates: seq<real>)
    requires ValidRates(rates)
  {
    Nondecreasing(ServTimes(rates, |rates|))
  }

  lemma ServTimeIsMean(rates: seq<real>, arrival: real, K: nat)
    requires ValidRates(rates)
    requires 0.0 < arrival && 1 <= K
    ensures AvgServTime(rates, arrival, K) == Mean(rates, ServTimes(rates, K), arrival)
  {
    TimePerCustomerIsMean(rates, InService(|rates|, K), ServTimes(rates, K), arrival, K);
  }

  lemma WaitTimeIsMean(rates: seq<real>, arrival: real, K: nat)
    requires ValidRates(rates)
    requires 0.0 < arrival && 1 <= K
    ensures AvgWaitTime(rates, arrival, K) == Mean(rates, WaitTimes(rates, K), arrival)
  {
    hide Mul, Div, Distribution, Weight, RateAt, Dot, Mean;
    var all, busy, idle := Customers(K), InService(|rates|, K), Waiting(|rates|, K);
    var p := Distribution(rates, arrival, K);
    TimePerCustomerIsMean(rates, idle, WaitTimes(rates, K), arrival, K);
    DotDifference(all, busy, idle, p, K + 1);
    ThroughputPositive(rates, arrival, K);
    DivDifference(Dot(all, p, K + 1), Dot(busy, p, K + 1), Throughput(rates, arrival, K));
  }

  lemma ServTimesNondecreasing(rates: seq<real>, K: nat)
    requires ValidRates(rates) && BatchesSlowDown(rates)
    ensures Nondecreasing(ServTimes(rates, K))
  {
    var n := |rates|;
    var d, b := ServTimes(rates, K), ServTimes(rates, n);
    forall i, j | 0 <= i <= j < K ensures d[i] <= d[j] {
      var i', j' := Min(i, n - 1), Min(j, n - 1);
      assert d[i] == b[i'] && d[j] == b[j'];
    }
  }

  lemma WaitTimesNondecreasing(rates: seq<real>, K: nat)
    requires ValidRates(rates)
    ensures Nondecreasing(WaitTimes(rates, K))
    ensures forall j :: 0 <= j < K ==> 0.0 <= WaitTimes(rates, K)[j]
  {
    var d := WaitTimes(rates, K);
    forall i, j | 0 <= i <= j < K ensures 0.0 <= d[i] <= d[j] {
      var a, b := (i + 1 - Min(i + 1, |rates|)) as real, (j + 1 - Min(j + 1, |rates|)) as real;
      assert 0.0 <= a <= b;
      if i + 1 <= |rates| {
        assert d[i] == Div(0.0, RateAt(rates, i)) == 0.0;
      } else {
        assert RateAt(rates, i) == RateAt(rates, j);
      }
      DivOrdered(a, b, RateAt(rates, j));
    }
  }

  /** Average service time does not fall when the arrival rate grows, and rises when the batch
      time is not the same in all states. */
  lemma ServTimeMonotone(rates: seq<real>, arrival: real, arrival': real, K: nat)
    requires ValidRates(rates) && BatchesSlowDown(rates)
    requires 0.0 < arrival <= arrival' && 1 <= K
    ensures AvgServTime(rates, arrival, K) <= AvgServTime(rates, arrival', K)
    ensures arrival < arrival' && ServTimes(rates, K)[0] < ServTimes(rates, K)[K - 1] ==>
              AvgServTime(rates, arrival, K) < AvgServTime(rates, arrival', K)
  {
    hide Mul, Div;
    ServTimeIsMean(rates, arrival, K);
    ServTimeIsMean(rates, arrival', K);
    ServTimesNondecreasing(rates, K);
    MeanMonotone(rates, ServTimes(rates, K), arrival, arrival');
  }

  /** Average waiting time does not fall when the arrival rate grows, and rises when there is room
      to wait.  It is never negative, so the solver's clamp at zero has no effect. */
  lemma WaitTimeMonotone(rates: seq<real>, arrival: real, arrival': real, K: nat)
    requires ValidRates(rates)
    requires 0.0 < arrival <= arrival' && 1 <= K
    ensures 0.0 <= AvgWaitTime(rates, arrival, K) <= AvgWaitTime(rates, arrival', K)
    ensures arrival < arrival' && |rates| < K ==> AvgWaitTime(rates, arrival, K) < AvgWaitTime(rates, arrival', K)
    ensures K <= |rates| ==> AvgWaitTime(rates, arrival, K) == 0.0
  {
    hide Mul, Div;
    var d := WaitTimes(rates, K);
    WaitTimeIsMean(rates, arrival, K);
    WaitTimeIsMean(rates, arrival', K);
    WaitTimesNondecreasing(rates, K);
    MeanMonotone(rates, d, arrival, arrival');
    MulUnit(RateAt(rates, 0));
    MulUnit(RateAt(rates, K - 1));
    assert d[0] == Div(0.0, RateAt(rates, 0)) == 0.0;
    MeanBounds(rates, d, arrival, 0.0, d[K - 1]);
    if |rates| < K {
      DivSign((K - |rates|) as real, RateAt(rates, K - 1));
    } else {
      assert d[K - 1] == Div(0.0, RateAt(rates, K - 1)) == 0.0;
    }
  }

  /** Average service time is a weighted mean of batch times, so it lies between the shortest and
      the longest. */
  lemma ServTimeBounds(rates: seq<real>, arrival: real, K: nat)
    requires ValidRates(rates) && BatchesSlowDown(rates)
    requires 0.0 < arrival && |rates| <= K
    ensures Div(1.0, rates[0]) <= AvgServTime(rates, arrival, K) <= Div(|rates| as real, rates[|rates| - 1])
  {
    hide Mul, Div, AvgServTime, Weight, Dot, Mean;
    var n := |rates|;
    var d := ServTimes(rates, K);
    ServTimeIsMean(rates, arrival, K);
    ServTimesNondecreasing(rates, K);
    assert d[K - 1] == Div(n as real, rates[n - 1]);
    MeanBounds(rates, d, arrival, d[0], d[K - 1]);
  }

  /** What leaves is what the servers complete: throughput equals the service rates weighed by the
      probabilities of the states they apply in. */
  lemma {:induction false} ThroughputIsServiceRate(rates: seq<real>, arrival: real, K: nat, m: nat, served: seq<real>)
    requires ValidRates(rates)
    requires 0.0 <= arrival && m <= K && |served| == K + 1
    requires served[0] == 0.0 && forall i :: 1 <= i <= K ==> served[i] == RateAt(rates, i - 1)
    ensures Dot(served, Distribution(rates, arrival, K), m + 1) == Mul(arrival, Sum(Distribution(rates, arrival, K), m))
    ensures m == K ==> Dot(served, Distribution(rates, arrival, K), K + 1) == Throughput(rates, arrival, K)
  {
    hide Mul, Div, Distribution, Weight, RateAt;
    var p := Distribution(rates, arrival, K);
    Stationary(rates, arrival, K);
    MulUnit(p[0]);
    MulUnit(arrival);
    if m == 0 {
      assert Dot(served, p, 1) == Dot(served, p, 0) + Mul(served[0], p[0]);
    } else {
      ThroughputIsServiceRate(rates, arrival, K, m - 1, served);
      assert Balanced(rates, arrival, p, m - 1);
      MulAdd(arrival, Sum(p, m - 1), p[m - 1], Sum(p, m));
    }
    if m == K {
      assert Sum(p, K) == 1.0 - p[K];
    }
  }

  /** Service rate in each state, none in the empty one. */
  function ServiceRates(rates: seq<real>, K: nat): (r: seq<real>)
    requires |rates| >= 1
    ensures |r| == K + 1 && r[0] == 0.0
    ensures forall i :: 1 <= i <= K ==> r[i] == RateAt(rates, i - 1)
  {
    seq(K + 1, i requires 0 <= i => if i == 0 then 0.0 else RateAt(rates, i - 1))
  }

  lemma ThroughputIsMean(rates: seq<real>, arrival: real, K: nat)
    requires ValidRates(rates) && 0.0 <= arrival
    ensures Throughput(rates, arrival, K) == Mean(rates, ServiceRates(rates, K), arrival)
  {
    hide Mul, Div, Distribution, Throughput;
    var served, p, w := ServiceRates(rates, K), Distribution(rates, arrival, K), Weights(rates, arrival, K + 1);
    ThroughputIsServiceRate(rates, arrival, K, K, served);
    var c := DistributionScales(rates, arrival, K);
    DotScaled(served, w, p, c, K + 1);
    WeightsSign(rates, arrival, K + 1);
    var total := Sum(w, K + 1);
    ReciprocalUnique(total, c);
    DivAsMul(Dot(served, w, K + 1), total, c) by {
      OneOver(total);
    }
  }

  lemma OneOver(t: real)
    requires t != 0.0
    ensures Div(1.0, t) == 1.0 / t
  {
  }

  /** When larger batches are served at higher rates, throughput grows strictly with the arrival rate. */
  lemma ThroughputMonotone(rates: seq<real>, arrival: real, arrival': real, K: nat)
    requires ValidRates(rates) && Nondecreasing(rates)
    requires 0.0 < arrival <= arrival' && 1 <= K
    ensures Throughput(rates, arrival, K) <= Throughput(rates, arrival', K)
    ensures arrival < arrival' ==> Throughput(rates, arrival, K) < Throughput(rates, arrival', K)
  {
    hide Mul, Div, Throughput, Mean;
    var d := ServiceRates(rates, K);
    ThroughputIsMean(rates, arrival, K);
    ThroughputIsMean(rates, arrival', K);
    assert 0.0 < d[K] && Nondecreasing(d);
    MeanMonotone(rates, d, arrival, arrival');
  }

  // ---- The chain in figures: rates and probabilities only ----

  /** A probability vector that balances the flow between neighbouring states, the rate with `n + 1`
      customers being `rates[n]`, or the last rate once the batch is full. */
  ghost predicate Solves(rates: seq<real>, arrival: real, K: nat, p: seq<real>)
    requires |rates| >= 1
  {
    && |p| == K + 1
    && Sum(p, K + 1) == 1.0
    && forall n :: 0 <= n < K ==> arrival * p[n] == rates[Min(n, |rates| - 1)] * p[n + 1]
  }

  /** Balance and total determine the solution: there is one such vector, the computed one. */
  lemma BalanceDetermines(rates: seq<real>, arrival: real, K: nat, p: seq<real>)
    requires ValidRates(rates) && 0.0 <= arrival && |p| == K + 1
    ensures Solves(rates, arrival, K, p) <==> p == Distribution(rates, arrival, K)
  {
    hide Mul, Div, Distribution, Weight;
    var d, w := Distribution(rates, arrival, K), Weights(rates, arrival, K + 1);
    Stationary(rates, arrival, K);
    if p == d {
      forall n | 0 <= n < K ensures arrival * p[n] == rates[Min(n, |rates| - 1)] * p[n + 1] {
        assert Balanced(rates, arrival, p, n);
        AsProducts(arrival, p[n], RateAt(rates, n), p[n + 1]);
      }
    }
    if Solves(rates, arrival, K, p) {
      forall i | 0 <= i <= K ensures p[i] == Mul(p[0], w[i]) {
        BalanceUnrolls(rates, arrival, K, p, i);
      }
      SumScaled(w, p, p[0], K + 1);
      var c := DistributionScales(rates, arrival, K);
      WeightsSign(rates, arrival, K + 1);
      ReciprocalUnique(Total(rates, arrival, K), c);
      ReciprocalUnique(Total(rates, arrival, K), p[0]);
    }
  }

  lemma AsProducts(a: real, x: real, r: real, y: real)
    ensures Mul(a, x) == Mul(r, y) <==> a * x == r * y
  {
  }

  lemma {:induction false} BalanceUnrolls(rates: seq<real>, arrival: real, K: nat, p: seq<real>, i: nat)
    requires ValidRates(rates) && Solves(rates, arrival, K, p) && i <= K
    ensures p[i] == Mul(p[0], Weight(rates, arrival, i))
  {
    hide Mul, Div;
    if i == 0 {
      MulUnit(p[0]);
    } else {
      BalanceUnrolls(rates, arrival, K, p, i - 1);
      assert arrival * p[i - 1] == rates[Min(i - 1, |rates| - 1)] * p[i - 1 + 1];
      UnrollStep(arrival, RateAt(rates, i - 1), p[0], Weight(rates, arrival, i - 1), p[i - 1], p[i]);
    }
  }

  lemma UnrollStep(arrival: real, r: real, p0: real, w: real, x: real, y: real)
    requires r > 0.0 && x == Mul(p0, w) && arrival * x == r * y
    ensures y == Mul(p0, Div(Mul(w, arrival), r))
  {
    var q := Div(Mul(w, arrival), r);
    DivCancels(Mul(w, arrival), r);
    assert q * r == w * arrival;
    assert r * (p0 * q) == p0 * (w * arrival);
    assert arrival * (p0 * w) == p0 * (w * arrival);
    assert r * (y - p0 * q) == 0.0;
  }

  /** State `i` has `i` customers. */
  ghost predicate Counts(number: seq<real>, n: nat) {
    |number| == n && forall i :: 0 <= i < n ==> number[i] == i as real
  }

  /** State `i` has `i` customers in service, up to the batch. */
  ghost predicate CountsUpTo(busy: seq<real>, n: nat, batch: nat) {
    |busy| == n && forall i :: 0 <= i < n ==> busy[i] == if i < batch then i as real else batch as real
  }

  /** The statistics of the solution: throughput is what is not turned away, and by Little's law the
      time spent in the system and in service, times throughput, is the number there. */
  lemma StatisticsInFigures(rates: seq<real>, arrival: real, K: nat, p: seq<real>, number: seq<real>, busy: seq<real>)
    requires ValidRates(rates) && 0.0 < arrival && 1 <= K && |p| == K + 1 && Solves(rates, arrival, K, p)
    requires Counts(number, K + 1) && CountsUpTo(busy, K + 1, |rates|)
    ensures var x := Throughput(rates, arrival, K);
            && x == Mul(arrival, 1.0 - p[K])
            && AvgNumInSystem(rates, arrival, K) == Dot(number, p, K + 1)
            && AvgNumInServers(rates, arrival, K) == Dot(busy, p, K + 1)
            && Mul(AvgRespTime(rates, arrival, K), x) == Dot(number, p, K + 1)
            && Mul(AvgServTime(rates, arrival, K), x) == Dot(busy, p, K + 1)
            && AvgWaitTime(rates, arrival, K) == AvgRespTime(rates, arrival, K) - AvgServTime(rates, arrival, K)
  {
    hide Mul, Div, Distribution, Weight, Dot, Solves;
    BalanceDetermines(rates, arrival, K, p);
    assert number == Customers(K) && busy == InService(|rates|, K);
    ThroughputPositive(rates, arrival, K);
    DivCancels(Dot(number, p, K + 1), Throughput(rates, arrival, K));
    DivCancels(Dot(busy, p, K + 1), Throughput(rates, arrival, K));
  }
}
