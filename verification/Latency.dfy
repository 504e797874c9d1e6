/** The inference-server latency model: service rates built from prefill and decode parameters, and
    the two latency metrics as functions of the arrival rate.  The module proves what the sizing
    search takes for granted, that both metrics rise with the arrival rate, and exactly when they
    rise strictly. */
module Latency {
  import opened Basics
  import opened RealArithmetic
  import opened Sums
  import opened BirthDeath

  const RATE_EPSILON: real := 0.001

  function RealMin(a: real, b: real): real {
    if a < b then a else b
  }

  function RealMax(a: real, b: real): real {
    if a < b then b else a
  }

  /** Queue configuration, request processing parameters and request size. */
  datatype Setup = Setup(maxBatch: int, maxQueue: int,
                         gamma: real, delta: real, alpha: real, beta: real,
                         inTokens: int, outTokens: int)
  {
    /** The checks made when an analyzer is created. */
    predicate Checked() {
      maxBatch > 0 && maxQueue >= 0 && inTokens >= 0 && outTokens >= 1
    }

    /** The divisor in the effective concurrency. */
    function Slope(): real {
      Mul(delta, inTokens as real) + Mul(beta, (outTokens - 1) as real)
    }

    /** Non-negative parameters with positive batch times. */
    ghost predicate Timed() {
      && Checked()
      && 0.0 <= gamma && 0.0 <= delta && 0.0 <= alpha && 0.0 <= beta
      && 0.0 < TimeOf(1)
    }

    /** Besides, the effective concurrency is not zero over zero whatever the rate. */
    ghost predicate WellPosed() {
      Timed() && !(Slope() == 0.0 && TimeOf(1) == AssumedBase() && TimeOf(maxBatch) == AssumedBase())
    }

    /** Room in the system: the queue and the batch. */
    function K(): int {
      maxQueue + maxBatch
    }

    function PrefillTime(batch: real): real {
      if inTokens == 0 then 0.0 else gamma + Mul(Mul(delta, inTokens as real), batch)
    }

    function DecodeTime(batch: real): real {
      alpha + Mul(beta, batch)
    }

    /** One decode per output token except the first; one for a decode-only request of one token. */
    function NumDecodes(): int {
      if inTokens == 0 && outTokens == 1 then 1 else outTokens - 1
    }

    /** Time to serve a batch of the given size. */
    function BatchTime(batch: real): real {
      PrefillTime(batch) + Mul(NumDecodes() as real, DecodeTime(batch))
    }

    /** Time to serve a batch of `n` requests. */
    function TimeOf(n: int): real {
      BatchTime(n as real)
    }

    /** Base of the batch time. */
    function Base(): real {
      (if inTokens == 0 then 0.0 else gamma) + Mul(alpha, NumDecodes() as real)
    }

    /** Time per extra request in the batch. */
    function Growth(): real {
      Mul(delta, inTokens as real) + Mul(beta, NumDecodes() as real)
    }

    /** What the effective concurrency subtracts as base: the prefill constant even without
        input tokens, and no decode for a request of one output token. */
    function AssumedBase(): real {
      gamma + Mul(alpha, (outTokens - 1) as real)
    }

    /** The quotient, clamped to the batch limit.  A positive or negative number over zero is an
        infinity, which the clamp turns into the limit or nothing; zero over zero is read as nothing. */
    function EffectiveConcurrency(avgServTime: real): real {
      if Slope() == 0.0 then (if AssumedBase() < avgServTime then maxBatch as real else 0.0)
      else RealMin(RealMax(Div(avgServTime - AssumedBase(), Slope()), 0.0), maxBatch as real)
    }

    /** State-dependent service rates: n requests per batch time of n. */
    function Rates(): (r: seq<real>)
      requires Timed()
      ensures |r| == maxBatch
      ensures forall n :: 1 <= n <= maxBatch ==> TimeOf(n) > 0.0 && r[n - 1] == Div(n as real, TimeOf(n))
    {
      BatchTimesPositive(this);
      seq(maxBatch, i requires 0 <= i < maxBatch => Div((i + 1) as real, TimeOf(i + 1)))
    }

    /** Range of arrival rates (per msec) that the search covers. */
    function LambdaMin(): real
      requires Timed()
    {
      Mul(Rates()[0], RATE_EPSILON)
    }

    function LambdaMax(): real
      requires Timed()
    {
      Mul(Rates()[maxBatch - 1], 1.0 - RATE_EPSILON)
    }

    function ServTime(arrival: real): real
      requires Timed() && 0.0 < arrival
    {
      RatesValid(this);
      AvgServTime(Rates(), arrival, K())
    }

    function WaitTime(arrival: real): real
      requires Timed() && 0.0 < arrival
    {
      RatesValid(this);
      AvgWaitTime(Rates(), arrival, K())
    }

    /** Inter-token latency at an arrival rate. */
    function ITL(arrival: real): real
      requires WellPosed() && 0.0 < arrival
    {
      DecodeTime(EffectiveConcurrency(ServTime(arrival)))
    }

    /** Time to first token at an arrival rate: waiting plus prefill. */
    function TTFT(arrival: real): real
      requires WellPosed() && 0.0 < arrival
    {
      WaitTime(arrival) + PrefillTime(EffectiveConcurrency(ServTime(arrival)))
    }
  }

  // ---- The batch time is linear in the batch size ----

  lemma BatchTimeLinear(s: Setup, n: real)
    requires s.Checked()
    ensures s.BatchTime(n) == s.Base() + Mul(s.Growth(), n)
    ensures s.inTokens > 0 || s.outTokens > 1 ==> s.Growth() == s.Slope()
    ensures s.inTokens == 0 && s.outTokens == 1 ==> s.Slope() == 0.0 && s.Growth() == s.beta
  {
    hide Mul;
    var d := s.NumDecodes() as real;
    MulUnit(s.delta);
    MulUnit(s.beta);
    MulAdd(d, s.alpha, Mul(s.beta, n), s.DecodeTime(n));
    MulAdd(n, Mul(s.delta, s.inTokens as real), Mul(s.beta, d), s.Growth());
    MulAssoc(d, s.beta, n);
    MulComm(d, s.alpha);
    MulComm(d, s.beta);
    MulUnit(n);
  }

  lemma ParametersNonNegative(s: Setup)
    requires s.Timed()
    ensures 0.0 <= s.Slope() <= s.Growth() && 0.0 <= s.Base()
    ensures 0.0 < s.Slope() ==> s.Growth() == s.Slope() && s.AssumedBase() == s.Base() + (if s.inTokens == 0 then s.gamma else 0.0)
  {
    hide Mul, Setup.TimeOf;
    BatchTimeLinear(s, 1.0);
    MulNonNegative(s.delta, s.inTokens as real);
    MulNonNegative(s.beta, (s.outTokens - 1) as real);
    MulNonNegative(s.alpha, s.NumDecodes() as real);
  }

  lemma BatchTimeOrdered(s: Setup, m: real, n: real)
    requires s.Timed() && 1.0 <= m <= n
    ensures 0.0 < s.BatchTime(m) <= s.BatchTime(n)
    ensures s.BatchTime(m) < s.BatchTime(n) <==> m < n && 0.0 < s.Growth()
  {
    hide Mul, Setup.BatchTime, Setup.Growth, Setup.Slope, Setup.Base;
    ParametersNonNegative(s);
    BatchTimeLinear(s, 1.0);
    BatchTimeLinear(s, m);
    BatchTimeLinear(s, n);
    MulMono(s.Growth(), 1.0, m);
    MulMono(s.Growth(), m, n);
    MulUnit(m);
    MulUnit(n);
  }

  lemma BatchTimesPositive(s: Setup)
    requires s.Timed()
    ensures forall n :: 1 <= n <= s.maxBatch ==> 0.0 < s.TimeOf(n)
  {
    hide Mul, Setup.BatchTime;
    forall n | 1 <= n <= s.maxBatch ensures 0.0 < s.TimeOf(n) {
      BatchTimeOrdered(s, n as real, n as real);
    }
  }

  // ---- Rates built from batch times ----

  lemma RatesValid(s: Setup)
    requires s.Timed()
    ensures ValidRates(s.Rates()) && 1 <= |s.Rates()| <= s.K()
  {
    hide Mul, Div;
    var r := s.Rates();
    forall i | 0 <= i < |r| ensures 0.0 < r[i] {
      var n := i + 1;
      assert r[n - 1] == Div(n as real, s.TimeOf(n));
      DivDiv(n as real, s.BatchTime(n as real));
    }
  }

  /** With `j` customers found, the batch time is that of `min(j + 1, maxBatch)` requests. */
  lemma ServTimesAreBatchTimes(s: Setup, K: nat, j: nat)
    requires s.Timed() && j < K
    ensures ValidRates(s.Rates())
    ensures ServTimes(s.Rates(), K)[j] == s.BatchTime(Min(j + 1, s.maxBatch) as real)
  {
    hide Mul, Div;
    RatesValid(s);
    var r, n := s.Rates(), Min(j + 1, s.maxBatch);
    assert RateAt(r, j) == r[n - 1] == Div(n as real, s.TimeOf(n));
    DivDiv(n as real, s.BatchTime(n as real));
  }

  lemma RatesSlowDown(s: Setup)
    requires s.Timed()
    ensures ValidRates(s.Rates()) && BatchesSlowDown(s.Rates())
  {
    hide Mul, Div, Setup.BatchTime;
    RatesValid(s);
    var d := ServTimes(s.Rates(), s.maxBatch);
    forall i, j | 0 <= i <= j < |d| ensures d[i] <= d[j] {
      ServTimesAreBatchTimes(s, s.maxBatch, i);
      ServTimesAreBatchTimes(s, s.maxBatch, j);
      BatchTimeOrdered(s, (i + 1) as real, (j + 1) as real);
    }
  }

  /** Larger batches are served at higher rates. */
  lemma RatesSpeedUp(s: Setup)
    requires s.Timed()
    ensures ValidRates(s.Rates()) && Nondecreasing(s.Rates())
  {
    hide Mul, Div, Setup.BatchTime, Setup.Growth, Setup.Base;
    RatesValid(s);
    ParametersNonNegative(s);
    var r := s.Rates();
    forall i, j | 0 <= i <= j < |r| ensures r[i] <= r[j] {
      var m, n := (i + 1) as real, (j + 1) as real;
      assert r[(i + 1) - 1] == Div(m, s.TimeOf(i + 1)) && r[(j + 1) - 1] == Div(n, s.TimeOf(j + 1));
      BatchTimeLinear(s, m);
      BatchTimeLinear(s, n);
      LargerBatchFaster(s.Base(), s.Growth(), m, n, s.BatchTime(m), s.BatchTime(n));
    }
  }

  lemma LargerBatchFaster(base: real, growth: real, m: real, n: real, tm: real, tn: real)
    requires base >= 0.0 && growth >= 0.0 && 0.0 < m <= n
    requires tm == base + Mul(growth, m) && tn == base + Mul(growth, n) && tm > 0.0 && tn > 0.0
    ensures Div(m, tm) <= Div(n, tn)
  {
    MulMono(base, m, n);
    assert Mul(m, tn) == base * m + growth * m * n;
    assert Mul(n, tm) == base * n + growth * m * n;
    CrossOrdered(m, tm, n, tn);
  }

  /** The full batch has the highest rate, so the search range is never empty. */
  lemma RangeNotEmpty(s: Setup)
    requires s.Timed()
    ensures 0.0 < s.LambdaMin() < s.LambdaMax()
  {
    hide Mul, Div, Setup.BatchTime;
    RatesValid(s);
    var r, n := s.Rates(), s.maxBatch as real;
    var t1, tn := s.BatchTime(1.0), s.BatchTime(n);
    assert r[1 - 1] == Div(1 as real, s.TimeOf(1));
    assert r[s.maxBatch - 1] == Div(n, s.TimeOf(s.maxBatch));
    BatchTimeLinear(s, 1.0);
    BatchTimeLinear(s, n);
    BatchTimeOrdered(s, 1.0, n);
    ParametersNonNegative(s);
    LargerBatchFaster(s.Base(), s.Growth(), 1.0, n, t1, tn);
    RangeStep(r[0], r[s.maxBatch - 1]);
  }

  lemma RangeStep(first: real, last: real)
    requires 0.0 < first <= last
    ensures 0.0 < Mul(first, RATE_EPSILON) < Mul(last, 1.0 - RATE_EPSILON)
  {
  }

  // ---- Service time and effective concurrency ----

  lemma ServTimeWithin(s: Setup, arrival: real)
    requires s.Timed() && 0.0 < arrival
    ensures s.BatchTime(1.0) <= s.ServTime(arrival) <= s.BatchTime(s.maxBatch as real)
  {
    hide Mul, Div, Setup.BatchTime, AvgServTime;
    RatesSlowDown(s);
    RatesValid(s);
    var r, n := s.Rates(), s.maxBatch;
    ServTimeBounds(r, arrival, s.K());
    assert r[1 - 1] == Div(1 as real, s.TimeOf(1));
    assert r[n - 1] == Div(n as real, s.TimeOf(n));
    DivDiv(1.0, s.BatchTime(1.0));
    DivDiv(n as real, s.BatchTime(n as real));
  }

  /** The batch size whose batch time is the average service time. */
  function TrueConcurrency(s: Setup, arrival: real): (n: real)
    requires s.Timed() && 0.0 < s.Slope() && 0.0 < arrival
    ensures 1.0 <= n <= s.maxBatch as real && s.BatchTime(n) == s.ServTime(arrival)
  {
    ConcurrencyExists(s, arrival);
    Div(s.ServTime(arrival) - s.Base(), s.Slope())
  }

  lemma ConcurrencyExists(s: Setup, arrival: real)
    requires s.Timed() && 0.0 < s.Slope() && 0.0 < arrival
    ensures var n := Div(s.ServTime(arrival) - s.Base(), s.Slope());
            1.0 <= n <= s.maxBatch as real && s.BatchTime(n) == s.ServTime(arrival)
  {
    hide Mul, Div, Setup.BatchTime, Setup.ServTime, Setup.Slope, Setup.Base, Setup.Growth;
    ServTimeWithin(s, arrival);
    ParametersNonNegative(s);
    var top := s.maxBatch as real;
    BatchTimeLinear(s, 1.0);
    BatchTimeLinear(s, top);
    InverseWithin(s.Base(), s.Slope(), top, s.ServTime(arrival));
    BatchTimeLinear(s, Div(s.ServTime(arrival) - s.Base(), s.Slope()));
  }

  lemma InverseWithin(base: real, slope: real, top: real, t: real)
    requires slope > 0.0
    requires base + Mul(slope, 1.0) <= t <= base + Mul(slope, top)
    ensures var n := Div(t - base, slope); 1.0 <= n <= top && base + Mul(slope, n) == t
  {
    hide Mul, Div;
    var n := Div(t - base, slope);
    DivCancels(t - base, slope);
    MulComm(n, slope);
    MulComm(1.0, slope);
    MulComm(top, slope);
    CancelFactor(1.0, n, slope);
    CancelFactor(n, top, slope);
  }

  /** The computed concurrency falls short of the true one by the prefill constant that was not
      spent, and is clamped only from below. */
  lemma ConcurrencyIs(s: Setup, arrival: real)
    requires s.Timed() && 0.0 < s.Slope() && 0.0 < arrival
    ensures var short := if s.inTokens == 0 then Div(s.gamma, s.Slope()) else 0.0;
            && 0.0 <= short
            && (short == 0.0 <==> (s.inTokens > 0 || s.gamma == 0.0))
            && s.EffectiveConcurrency(s.ServTime(arrival)) == RealMax(TrueConcurrency(s, arrival) - short, 0.0)
  {
    hide Mul, Div, Setup.BatchTime, Setup.ServTime, Setup.Slope, Setup.Base, Setup.AssumedBase, Setup.Growth;
    var n := TrueConcurrency(s, arrival);
    ParametersNonNegative(s);
    BatchTimeLinear(s, n);
    DivCancelsLeft(s.Slope(), n, s.Base() - s.AssumedBase());
    DivSign(s.gamma, s.Slope());
    MulUnit(s.Slope());
    DivNegated(s.gamma, s.Slope());
  }

  /** With a non-zero prefill or no prefill constant, the computed concurrency is the true one, so it
      lies between one and the batch limit and the clamp has no effect; putting it back into the
      batch time returns the average service time.  Without input tokens and with a prefill constant
      it does not. */
  lemma ConcurrencyRoundTrip(s: Setup, arrival: real)
    requires s.Timed() && 0.0 < s.Slope() && 0.0 < arrival
    ensures s.BatchTime(s.EffectiveConcurrency(s.ServTime(arrival))) == s.ServTime(arrival)
       <==> (s.inTokens > 0 || s.gamma == 0.0)
    ensures s.inTokens > 0 || s.gamma == 0.0 ==>
              1.0 <= s.EffectiveConcurrency(s.ServTime(arrival)) <= s.maxBatch as real
    ensures 0.0 <= s.EffectiveConcurrency(s.ServTime(arrival)) <= s.maxBatch as real
  {
    hide Mul, Div, Setup.BatchTime, Setup.ServTime, Setup.Slope, Setup.EffectiveConcurrency, Setup.Growth, Setup.Base;
    ConcurrencyIs(s, arrival);
    var n, m := TrueConcurrency(s, arrival), s.EffectiveConcurrency(s.ServTime(arrival));
    ParametersNonNegative(s);
    BatchTimeLinear(s, n);
    BatchTimeLinear(s, m);
    if m < n {
      MulMono(s.Slope(), m, n);
    }
  }

  /** A concrete case where the round trip fails: a batch of up to two, no input tokens, two output
      tokens and a prefill constant of one. */
  lemma ConcurrencyRoundTripFails()
    ensures var s := Setup(2, 1, 1.0, 0.0, 1.0, 1.0, 0, 2);
            s.WellPosed() && s.BatchTime(s.EffectiveConcurrency(s.ServTime(1.0))) != s.ServTime(1.0)
  {
    var s := Setup(2, 1, 1.0, 0.0, 1.0, 1.0, 0, 2);
    assert s.Slope() == 1.0;
    ConcurrencyRoundTrip(s, 1.0);
  }

  // ---- Monotonicity of the metrics ----

  /** Where the effective concurrency divides by zero.  Apart from a decode-only request that is all
      base, it is the batch limit or nothing: for a decode-only request of one output token the limit
      as soon as the service time exceeds the prefill constant, and never in between. */
  lemma ConcurrencyWithoutSlope(s: Setup, arrival: real)
    requires s.WellPosed() && s.Slope() == 0.0 && 0.0 < arrival
    ensures s.inTokens == 0
    ensures s.outTokens > 1 ==> 0.0 < s.gamma && s.EffectiveConcurrency(s.ServTime(arrival)) == 0.0
    ensures s.outTokens == 1 && s.gamma < s.TimeOf(1) ==> s.EffectiveConcurrency(s.ServTime(arrival)) == s.maxBatch as real
    ensures s.outTokens == 1 && s.TimeOf(s.maxBatch) <= s.gamma ==> s.EffectiveConcurrency(s.ServTime(arrival)) == 0.0
  {
    hide Mul, Div, Setup.BatchTime, Setup.ServTime, Setup.Slope, Setup.Growth;
    ServTimeWithin(s, arrival);
    BatchTimeLinear(s, 1.0);
    BatchTimeLinear(s, s.maxBatch as real);
    MulUnit(1.0);
    MulUnit(s.maxBatch as real);
    MulUnit(s.alpha);
  }

  /** A concrete case: decode-only requests of one token in batches of up to two.  The batch takes
      longer with two requests, yet at every rate the inter-token latency is that of a full batch. */
  lemma SingleTokenAtLimit(arrival: real)
    requires 0.0 < arrival
    ensures var s := Setup(2, 20, 0.0, 1.0, 1.0, 1.0, 0, 1);
            s.WellPosed() && s.TimeOf(1) == 2.0 && s.TimeOf(2) == 3.0 && s.ITL(arrival) == 3.0
  {
    hide Setup.ServTime;
    var s := Setup(2, 20, 0.0, 1.0, 1.0, 1.0, 0, 1);
    assert s.Slope() == 0.0;
    ConcurrencyWithoutSlope(s, arrival);
  }

  /** A longer service time never means a smaller effective concurrency. */
  lemma ConcurrencyOrdered(s: Setup, t: real, t': real)
    requires s.Timed() && t <= t'
    ensures s.EffectiveConcurrency(t) <= s.EffectiveConcurrency(t')
    ensures 0.0 <= s.EffectiveConcurrency(t) <= s.maxBatch as real
    ensures 0.0 < s.EffectiveConcurrency(t) <==> s.AssumedBase() < t
  {
    hide Mul, Div, Setup.Slope, Setup.AssumedBase, Setup.Growth, Setup.TimeOf;
    ParametersNonNegative(s);
    var slope, base := s.Slope(), s.AssumedBase();
    if slope > 0.0 {
      MulMono(slope, t - base, t' - base);
      MulComm(slope, t - base);
      MulComm(slope, t' - base);
      CrossOrdered(t - base, slope, t' - base, slope);
      QuotientSign(t - base, slope);
    }
  }

  lemma QuotientSign(x: real, slope: real)
    requires 0.0 < slope
    ensures 0.0 < Div(x, slope) <==> 0.0 < x
  {
  }

  lemma ServTimeOrdered(s: Setup, arrival: real, arrival': real)
    requires s.Timed() && 0.0 < arrival <= arrival'
    ensures s.ServTime(arrival) <= s.ServTime(arrival')
    ensures s.ServTime(arrival) < s.ServTime(arrival') <==> arrival < arrival' && 2 <= s.maxBatch && 0.0 < s.Growth()
  {
    hide Mul, Div, AvgServTime, Setup.BatchTime, Setup.Growth;
    RatesSlowDown(s);
    RatesValid(s);
    var K := s.K();
    ServTimeMonotone(s.Rates(), arrival, arrival', K);
    ServTimesAreBatchTimes(s, K, 0);
    ServTimesAreBatchTimes(s, K, K - 1);
    BatchTimeOrdered(s, 1.0, s.maxBatch as real);
    ServTimeWithin(s, arrival);
    ServTimeWithin(s, arrival');
  }

  lemma ConcurrencyMonotone(s: Setup, arrival: real, arrival': real)
    requires s.Timed() && 0.0 < arrival <= arrival'
    ensures s.EffectiveConcurrency(s.ServTime(arrival)) <= s.EffectiveConcurrency(s.ServTime(arrival'))
    ensures arrival < arrival' && 2 <= s.maxBatch && 0.0 < s.Slope() && s.AssumedBase() < s.ServTime(arrival') ==>
              s.EffectiveConcurrency(s.ServTime(arrival)) < s.EffectiveConcurrency(s.ServTime(arrival'))
    ensures s.maxBatch == 1 ==> s.ServTime(arrival) == s.ServTime(arrival')
  {
    hide Mul, Div, Setup.ServTime, Setup.BatchTime, Setup.EffectiveConcurrency, Setup.Slope, Setup.AssumedBase, Setup.Growth;
    ServTimeOrdered(s, arrival, arrival');
    ConcurrencyOrdered(s, s.ServTime(arrival), s.ServTime(arrival'));
    ConcurrencyOrdered(s, s.ServTime(arrival'), s.ServTime(arrival'));
    if 0.0 < s.Slope() {
      ParametersNonNegative(s);
      ConcurrencyIs(s, arrival);
      ConcurrencyIs(s, arrival');
      var n, n' := TrueConcurrency(s, arrival), TrueConcurrency(s, arrival');
      if n' <= n {
        BatchTimeOrdered(s, n', n);
      }
    }
  }

  /** Both latency metrics rise with the arrival rate, for every queue and batch size: the condition
      the binary search needs. */
  lemma MetricsMonotone(s: Setup, arrival: real, arrival': real)
    requires s.WellPosed() && 0.0 < arrival <= arrival'
    ensures s.ITL(arrival) <= s.ITL(arrival')
    ensures s.TTFT(arrival) <= s.TTFT(arrival')
  {
    hide Mul, Div, AvgWaitTime, Setup.ServTime, Setup.EffectiveConcurrency, Setup.Slope;
    ConcurrencyMonotone(s, arrival, arrival');
    RatesValid(s);
    WaitTimeMonotone(s.Rates(), arrival, arrival', s.K());
    var m, m' := s.EffectiveConcurrency(s.ServTime(arrival)), s.EffectiveConcurrency(s.ServTime(arrival'));
    MulMono(s.beta, m, m');
    MulNonNegative(s.delta, s.inTokens as real);
    MulMono(Mul(s.delta, s.inTokens as real), m, m');
  }

  /** Exactly when the inter-token latency differs between two rates: the decode time depends on the
      batch, and the larger rate has a service time above the assumed base, which, with a slope, is
      enough for any batch of two, and without one must lie between the two service times. */
  lemma ITLStrict(s: Setup, arrival: real, arrival': real)
    requires s.WellPosed() && 0.0 < arrival < arrival'
    ensures s.ITL(arrival) < s.ITL(arrival')
       <==> && 0.0 < s.beta && s.AssumedBase() < s.ServTime(arrival')
            && if 0.0 < s.Slope() then 2 <= s.maxBatch else s.ServTime(arrival) <= s.AssumedBase()
  {
    hide Mul, Div, Setup.ServTime, Setup.EffectiveConcurrency, Setup.Slope, Setup.BatchTime, Setup.AssumedBase, Setup.Growth;
    ConcurrencyMonotone(s, arrival, arrival');
    var t, t' := s.ServTime(arrival), s.ServTime(arrival');
    ServTimeOrdered(s, arrival, arrival');
    ConcurrencyOrdered(s, t, t');
    ConcurrencyOrdered(s, t', t');
    ParametersNonNegative(s);
    var m, m' := s.EffectiveConcurrency(t), s.EffectiveConcurrency(t');
    if s.Slope() == 0.0 {
      AllOrNothing(s, t);
      AllOrNothing(s, t');
    }
    MulMono(s.beta, m, m');
    MulUnit(m);
    MulUnit(m');
  }

  lemma AllOrNothing(s: Setup, t: real)
    requires s.Slope() == 0.0 && s.Checked()
    ensures s.EffectiveConcurrency(t) == if s.AssumedBase() < t then s.maxBatch as real else 0.0
  {
  }

  /** When the service time exceeds the assumed base, in terms of the parameters. */
  lemma AboveAssumedBase(s: Setup, arrival: real, arrival': real)
    requires s.WellPosed() && 0.0 < arrival < arrival'
    ensures s.inTokens > 0 ==> 0.0 < s.Slope()
    ensures s.inTokens > 0 || s.gamma == 0.0 ==> s.AssumedBase() < s.ServTime(arrival')
    ensures 2 <= s.maxBatch && 0.0 < s.Slope() && s.gamma <= s.Slope() ==> s.AssumedBase() < s.ServTime(arrival')
    ensures s.inTokens == 0 && 0.0 < s.Slope() && Mul(s.Slope(), s.maxBatch as real) <= s.gamma ==>
              s.ServTime(arrival') <= s.AssumedBase()
  {
    hide Mul, Div, Setup.ServTime, Setup.Slope, Setup.BatchTime, Setup.Growth;
    ServTimeWithin(s, arrival);
    ServTimeWithin(s, arrival');
    ServTimeOrdered(s, arrival, arrival');
    ParametersNonNegative(s);
    BatchTimeLinear(s, 1.0);
    BatchTimeLinear(s, s.maxBatch as real);
    MulUnit(s.Growth());
    MulUnit(s.alpha);
    MulUnit(s.maxBatch as real);
    MulUnit(1.0);
  }

  /** Exactly when the time to first token differs between two rates: there is room to wait, or the
      prefill time depends on the batch. */
  lemma TTFTStrict(s: Setup, arrival: real, arrival': real)
    requires s.WellPosed() && 0.0 < arrival < arrival'
    ensures s.TTFT(arrival) < s.TTFT(arrival')
       <==> (1 <= s.maxQueue || (2 <= s.maxBatch && 0 < s.inTokens && 0.0 < s.delta))
  {
    hide Mul, Div, AvgWaitTime, Setup.ServTime, Setup.EffectiveConcurrency, Setup.Slope, Setup.BatchTime, Setup.AssumedBase, Setup.Growth;
    MetricsMonotone(s, arrival, arrival');
    ConcurrencyMonotone(s, arrival, arrival');
    AboveAssumedBase(s, arrival, arrival');
    RatesValid(s);
    WaitTimeMonotone(s.Rates(), arrival, arrival', s.K());
    WaitTimeMonotone(s.Rates(), arrival', arrival', s.K());
    var m, m' := s.EffectiveConcurrency(s.ServTime(arrival)), s.EffectiveConcurrency(s.ServTime(arrival'));
    var c := Mul(s.delta, s.inTokens as real);
    MulNonNegative(s.delta, s.inTokens as real);
    MulMono(c, m, m');
    MulUnit(s.inTokens as real);
    MulUnit(m);
    MulUnit(m');
    if s.inTokens > 0 && s.delta > 0.0 {
      MulSign(s.delta, s.inTokens as real);
    }
  }

  // ---- The latency model in figures: parameters only ----

  /** The time of a batch of `n`: a prefill, if there are input tokens, and one decode per output token
      after the first, or one for a decode-only request of a single token. */
  lemma BatchTimeInFigures(s: Setup, n: real)
    requires s.Checked()
    ensures s.BatchTime(n) ==
              if s.inTokens == 0 && s.outTokens == 1 then s.alpha + s.beta * n
              else if s.inTokens == 0 then (s.outTokens - 1) as real * (s.alpha + s.beta * n)
              else s.gamma + s.delta * s.inTokens as real * n + (s.outTokens - 1) as real * (s.alpha + s.beta * n)
  {
  }

  /** The rates and the ends of the search range, as batch sizes over batch times. */
  lemma RangeInFigures(s: Setup)
    requires s.Timed()
    ensures s.K() == s.maxQueue + s.maxBatch && |s.Rates()| == s.maxBatch
    ensures forall n :: 1 <= n <= s.maxBatch ==> Mul(s.Rates()[n - 1], s.TimeOf(n)) == n as real
    ensures 0.0 < s.TimeOf(1) && 0.0 < s.TimeOf(s.maxBatch)
    ensures s.LambdaMin() == 0.001 / s.TimeOf(1)
    ensures s.LambdaMax() == 0.999 * s.maxBatch as real / s.TimeOf(s.maxBatch)
  {
    hide Mul, Div, Setup.BatchTime, Setup.TimeOf;
    BatchTimesPositive(s);
    forall n | 1 <= n <= s.maxBatch ensures Mul(s.Rates()[n - 1], s.TimeOf(n)) == n as real {
      assert s.Rates()[n - 1] == Div(n as real, s.TimeOf(n));
      DivCancels(n as real, s.TimeOf(n));
    }
    var r := s.Rates();
    assert r[1 - 1] == Div(1 as real, s.TimeOf(1)) && r[s.maxBatch - 1] == Div(s.maxBatch as real, s.TimeOf(s.maxBatch));
    EndOfRange(1.0, s.TimeOf(1), 0.001);
    EndOfRange(s.maxBatch as real, s.TimeOf(s.maxBatch), 0.999);
  }

  lemma EndOfRange(n: real, t: real, share: real)
    requires 0.0 < t
    ensures Mul(Div(n, t), share) == share * n / t
  {
    var x := n / t;
    assert x * t == n;
    assert (share * x) * t == share * n;
  }

  /** The metrics at an arrival rate.  When `m` is the concurrency at which prefill and decodes, as the
      effective concurrency reckons them, take the average service time, the inter-token latency is the
      decode time of `m` and the time to first token the waiting time plus the prefill time of `m`. */
  lemma LatencyInFigures(s: Setup, arrival: real, m: real)
    requires s.WellPosed() && 0.0 < arrival
    requires 0.0 < s.delta * s.inTokens as real + s.beta * (s.outTokens - 1) as real
    requires s.gamma + s.delta * s.inTokens as real * m + (s.outTokens - 1) as real * (s.alpha + s.beta * m) == s.ServTime(arrival)
    ensures m <= s.maxBatch as real && (0 < s.inTokens ==> 1.0 <= m)
    ensures s.ITL(arrival) == s.alpha + s.beta * (if m < 0.0 then 0.0 else m)
    ensures s.TTFT(arrival) == s.WaitTime(arrival) + if s.inTokens == 0 then 0.0 else s.gamma + s.delta * s.inTokens as real * m
  {
    hide Mul, Div, Setup.BatchTime, Setup.ServTime, Setup.WaitTime, Setup.EffectiveConcurrency, Setup.TimeOf, Setup.Slope,
         Setup.AssumedBase, Setup.DecodeTime, Setup.PrefillTime, Setup.Growth;
    QuotientInFigures(s, m, s.ServTime(arrival));
    MetricsAt(s, arrival, m);
    PartsInFigures(s, m);
    PartsInFigures(s, 0.0);
  }

  lemma MetricsAt(s: Setup, arrival: real, m: real)
    requires s.WellPosed() && 0.0 < arrival && 0.0 < s.Slope() && m == Div(s.ServTime(arrival) - s.AssumedBase(), s.Slope())
    ensures m <= s.maxBatch as real && (0 < s.inTokens ==> 1.0 <= m)
    ensures s.ITL(arrival) == s.DecodeTime(if m < 0.0 then 0.0 else m)
    ensures s.TTFT(arrival) == s.WaitTime(arrival) + s.PrefillTime(if m < 0.0 then 0.0 else m)
  {
    hide Mul, Div, Setup.BatchTime, Setup.ServTime, Setup.WaitTime, Setup.TimeOf, Setup.Slope, Setup.Base, Setup.AssumedBase,
         Setup.DecodeTime, Setup.PrefillTime, Setup.Growth;
    ConcurrencyExists(s, arrival);
    ParametersNonNegative(s);
    QuotientOrdered(s.ServTime(arrival) - s.AssumedBase(), s.ServTime(arrival) - s.Base(), s.Slope());
  }

  lemma QuotientOrdered(x: real, y: real, slope: real)
    requires 0.0 < slope && x <= y
    ensures Div(x, slope) <= Div(y, slope)
  {
    hide Mul, Div;
    MulMono(slope, x, y);
    MulComm(slope, x);
    MulComm(slope, y);
    CrossOrdered(x, slope, y, slope);
  }

  lemma PartsInFigures(s: Setup, m: real)
    ensures s.DecodeTime(m) == s.alpha + s.beta * m
    ensures s.PrefillTime(m) == if s.inTokens == 0 then 0.0 else s.gamma + s.delta * s.inTokens as real * m
  {
  }

  /** The average times are those of the chain with room for the queue and a batch. */
  lemma TimesInFigures(s: Setup, arrival: real)
    requires s.Timed() && 0.0 < arrival
    ensures ValidRates(s.Rates()) && 1 <= s.maxQueue + s.maxBatch
    ensures s.ServTime(arrival) == AvgServTime(s.Rates(), arrival, s.maxQueue + s.maxBatch)
    ensures s.WaitTime(arrival) == AvgWaitTime(s.Rates(), arrival, s.maxQueue + s.maxBatch)
  {
    hide Mul, Div, AvgServTime, AvgWaitTime, Setup.BatchTime, Setup.TimeOf;
    RatesValid(s);
  }

  lemma QuotientInFigures(s: Setup, m: real, t: real)
    requires s.Checked() && 0.0 < s.delta * s.inTokens as real + s.beta * (s.outTokens - 1) as real
    requires s.gamma + s.delta * s.inTokens as real * m + (s.outTokens - 1) as real * (s.alpha + s.beta * m) == t
    ensures 0.0 < s.Slope() && m == Div(t - s.AssumedBase(), s.Slope())
  {
    var d, i := (s.outTokens - 1) as real, s.inTokens as real;
    var slope := s.delta * i + s.beta * d;
    assert t - (s.gamma + s.alpha * d) == slope * m;
    MulCancels(slope, m);
  }

  lemma MulCancels(slope: real, m: real)
    requires 0.0 < slope
    ensures Div(slope * m, slope) == m
  {
  }
}
