/** Analysis and sizing of one inference server: the queue analyzer object, its evaluation of the
    latency metrics by re-solving the shared model, and the search for the largest rate that meets
    the targets. */
module QueueAnalyzer {
  import opened Basics
  import opened RealArithmetic
  import opened Sums
  import opened BirthDeath
  import opened StateDependentModel
  import opened RateSearch
  import opened Latency

  const STABILITY_SAFETY_FRACTION: real := 0.1

  datatype AnalysisMetrics = AnalysisMetrics(
    throughput: real, avgRespTime: real, avgWaitTime: real, avgNumInServ: real,
    avgPrefillTime: real, avgTokenTime: real, maxRate: real, rho: real)

  datatype TargetPerf = TargetPerf(ttft: real, itl: real, tps: real) {
    predicate Checked() {
      0.0 <= ttft && 0.0 <= itl && 0.0 <= tps
    }
  }

  datatype TargetRate = TargetRate(ttft: real, itl: real, tps: real)

  datatype Sized = Sized(rates: TargetRate, metrics: AnalysisMetrics, achieved: TargetPerf)

  datatype Metric = TimeToFirstToken | InterTokenLatency

  /** A latency metric at an arrival rate (per msec). */
  function ValueAt(s: Setup, m: Metric, arrival: real): real
    requires s.WellPosed() && 0.0 < arrival
  {
    match m
    case TimeToFirstToken => s.TTFT(arrival)
    case InterTokenLatency => s.ITL(arrival)
  }

  /** The metric as the search sees it: an error when the model cannot be solved. */
  function Evaluator(s: Setup, m: Metric): real -> Option<real>
    requires s.WellPosed()
  {
    x => if 0.0 < x && 2 <= s.K() then Some(ValueAt(s, m, x)) else None
  }

  /** What the analyzer reports at an arrival rate (per msec). */
  ghost predicate ReportedAt(s: Setup, arrival: real, a: AnalysisMetrics)
    requires s.WellPosed() && 0.0 < arrival
    requires ValidRates(s.Rates())
  {
    && a.throughput == Mul(Throughput(s.Rates(), arrival, s.K()), 1000.0)
    && a.avgRespTime == AvgRespTime(s.Rates(), arrival, s.K())
    && a.avgWaitTime == s.WaitTime(arrival)
    && a.avgNumInServ == AvgNumInServers(s.Rates(), arrival, s.K())
    && a.avgPrefillTime == s.PrefillTime(s.EffectiveConcurrency(s.ServTime(arrival)))
    && a.avgTokenTime == s.ITL(arrival)
    && a.avgWaitTime + a.avgPrefillTime == s.TTFT(arrival)
    && a.rho == RealMin(RealMax(Div(a.avgNumInServ, s.maxBatch as real), 0.0), 1.0)
  }

  // ---- What a rate found by the search guarantees ----

  /** The metric rises between the ends of the search range. */
  ghost predicate Rises(s: Setup, m: Metric)
    requires s.WellPosed()
  {
    RangeNotEmpty(s);
    ValueAt(s, m, s.LambdaMin()) < ValueAt(s, m, s.LambdaMax())
  }

  /** Width of the last bracket of an exhausted search. */
  function Resolution(s: Setup): real
    requires s.Timed()
  {
    Div(s.LambdaMax() - s.LambdaMin(), Pow2(MAX_ITERATIONS))
  }

  /** `a` meets the target and is at most one final bracket below `arrival`. */
  ghost predicate MetNearby(s: Setup, m: Metric, target: real, arrival: real, a: real)
    requires s.WellPosed()
  {
    && s.LambdaMin() <= a && 0.0 < a
    && arrival - a <= Resolution(s)
    && ValueAt(s, m, a) <= target
  }

  /** The service-level objective at a rate: within relative tolerance, or indistinguishably close
      to a rate that meets it. */
  ghost predicate Meets(s: Setup, m: Metric, target: real, arrival: real)
    requires s.WellPosed() && 0.0 < arrival
  {
    || ValueAt(s, m, arrival) <= target + Mul(TOLERANCE, target)
    || exists a :: MetNearby(s, m, target, arrival, a)
  }

  /** The condition under which an active target is reported as out of reach. */
  ghost predicate Rejected(s: Setup, m: Metric, target: real)
    requires s.WellPosed()
  {
    RangeNotEmpty(s);
    var least := ValueAt(s, m, s.LambdaMin());
    && 0.0 < target
    && !WithinTolerance(least, target, TOLERANCE)
    && if Rises(s, m) then target < least else target > least
  }

  /** The metric never falls on the search range. */
  lemma ValueMonotone(s: Setup, m: Metric, arrival: real, arrival': real)
    requires s.WellPosed() && 0.0 < arrival <= arrival'
    ensures ValueAt(s, m, arrival) <= ValueAt(s, m, arrival')
  {
    hide Mul, Setup.ITL, Setup.TTFT;
    MetricsMonotone(s, arrival, arrival');
  }

  /** Which setups make a metric rise.  The time to first token: those with a queue or a prefill slope.
      The inter-token latency: with input tokens, those with two requests per batch and a decode slope;
      without, those whose service time besides exceeds the assumed base at the top of the range and,
      for a single output token, not yet at the bottom.  Two bounds on the prefill constant decide it
      without solving the model. */
  lemma RisesExactlyWhen(s: Setup)
    requires s.WellPosed()
    ensures 0.0 < s.LambdaMin() < s.LambdaMax()
    ensures Rises(s, TimeToFirstToken)
       <==> (1 <= s.maxQueue || (2 <= s.maxBatch && 0 < s.inTokens && 0.0 < s.delta))
    ensures Rises(s, InterTokenLatency)
       <==> && 0.0 < s.beta && s.AssumedBase() < s.ServTime(s.LambdaMax())
            && if 0.0 < s.Slope() then 2 <= s.maxBatch else s.ServTime(s.LambdaMin()) <= s.AssumedBase()
    ensures s.inTokens > 0 ==> (Rises(s, InterTokenLatency) <==> (2 <= s.maxBatch && 0.0 < s.beta))
    ensures s.inTokens == 0 && s.outTokens > 1 && s.gamma <= s.Slope() ==>
              (Rises(s, InterTokenLatency) <==> (2 <= s.maxBatch && 0.0 < s.beta))
    ensures s.inTokens == 0 && s.outTokens > 1 && Mul(s.Slope(), s.maxBatch as real) <= s.gamma ==>
              !Rises(s, InterTokenLatency)
    ensures s.inTokens == 0 && s.outTokens == 1 && (s.gamma < s.TimeOf(1) || s.TimeOf(s.maxBatch) <= s.gamma) ==>
              !Rises(s, InterTokenLatency)
  {
    hide Mul, Setup.ITL, Setup.TTFT, Setup.EffectiveConcurrency, Setup.ServTime, Setup.LambdaMin, Setup.LambdaMax,
         Setup.BatchTime, Setup.Growth, Setup.Slope;
    RangeNotEmpty(s);
    var lo, hi := s.LambdaMin(), s.LambdaMax();
    TTFTStrict(s, lo, hi);
    ITLStrict(s, lo, hi);
    AboveAssumedBase(s, lo, hi);
    ParametersNonNegative(s);
    ServTimeWithin(s, lo);
    ServTimeWithin(s, hi);
    BatchTimeLinear(s, 1.0);
    MulUnit(s.alpha);
    if s.outTokens > 1 {
      DecodeSlope(s);
    }
  }

  /** Decoding more than one token with a decode slope makes the service time depend on the batch. */
  lemma DecodeSlope(s: Setup)
    requires s.Timed() && s.outTokens > 1
    ensures 0.0 < s.beta ==> 0.0 < s.Slope()
  {
    MulNonNegative(s.delta, s.inTokens as real);
    if 0.0 < s.beta {
      MulSign(s.beta, (s.outTokens - 1) as real);
    }
  }

  /** Lowering the rate keeps a met objective met. */
  lemma MeetsDownward(s: Setup, m: Metric, target: real, arrival: real, arrival': real)
    requires s.WellPosed() && 0.0 < arrival <= arrival' && 0.0 < target
    requires Meets(s, m, target, arrival')
    ensures Meets(s, m, target, arrival)
  {
    hide Mul, ValueAt, Setup.LambdaMin, Resolution;
    ValueMonotone(s, m, arrival, arrival');
    if !(ValueAt(s, m, arrival') <= target + Mul(TOLERANCE, target)) {
      var a :| MetNearby(s, m, target, arrival', a);
      assert MetNearby(s, m, target, arrival, a);
    }
  }

  /** At rate `x` the target is missed, or at best met within tolerance. */
  ghost predicate Missed(s: Setup, m: Metric, target: real, x: real)
    requires s.WellPosed() && 0.0 < x
  {
    target - Mul(TOLERANCE, target) <= ValueAt(s, m, x)
  }

  /** No rate of the range above `rate`, by more than one search step, does better than miss the target. */
  ghost predicate LargestFor(s: Setup, m: Metric, target: real, rate: real)
    requires s.WellPosed() && 0.0 < rate
  {
    RangeNotEmpty(s);
    ResolutionPositive(s);
    if 0.0 < target
    then forall x :: rate + Resolution(s) < x <= s.LambdaMax() ==> Missed(s, m, target, x)
    else rate == s.LambdaMax()
  }

  lemma ResolutionPositive(s: Setup)
    requires s.Timed()
    ensures 0.0 < Resolution(s)
  {
    hide Div, Pow2, Setup.LambdaMin, Setup.LambdaMax;
    RangeNotEmpty(s);
    DivSign(s.LambdaMax() - s.LambdaMin(), Pow2(MAX_ITERATIONS));
  }

  lemma MissedUpward(s: Setup, m: Metric, target: real, x: real, x': real)
    requires s.WellPosed() && 0.0 < x <= x' && Missed(s, m, target, x)
    ensures Missed(s, m, target, x')
  {
    hide Mul, ValueAt;
    ValueMonotone(s, m, x, x');
  }

  /** From the search contract to the objective: what is found meets the target of a rising metric,
      and is the largest rate up to the resolution. */
  lemma SearchMeets(s: Setup, m: Metric, target: real, x: real)
    requires s.WellPosed() && 0.0 < target && s.LambdaMin() <= x <= s.LambdaMax() && 2 <= s.K()
    requires var f, lo, hi := Evaluator(s, m), s.LambdaMin(), s.LambdaMax();
             Search(f, lo, hi, target, MAX_ITERATIONS) == Found(x, 0) || Search(f, lo, hi, target, MAX_ITERATIONS) == Found(x, 1)
    ensures 0.0 < x
    ensures Honoured(s, m, target, x)
    ensures LargestFor(s, m, target, x)
  {
    hide Mul, Div, ValueAt, WithinTolerance, Pow2, Search, Setup.LambdaMin, Setup.LambdaMax, Rises, Meets, Bracketed, Missed;
    RangeNotEmpty(s);
    ResolutionPositive(s);
    var f, lo, hi := Evaluator(s, m), s.LambdaMin(), s.LambdaMax();
    SearchContract(f, lo, hi, target, MAX_ITERATIONS);
    assert f(lo) == Some(ValueAt(s, m, lo)) && f(hi) == Some(ValueAt(s, m, hi)) && f(x) == Some(ValueAt(s, m, x));
    assert Rises(s, m) <==> ValueAt(s, m, lo) < ValueAt(s, m, hi) by {
      RisesMeaning(s, m);
    }
    WithinToleranceMeaning(ValueAt(s, m, x), target, TOLERANCE);
    MulNonNegative(TOLERANCE, target);
    if WithinTolerance(ValueAt(s, m, x), target, TOLERANCE) {
      MeetsWithin(s, m, target, x);
      LargestFrom(s, m, target, x, x);
    } else if Search(f, lo, hi, target, MAX_ITERATIONS) == Found(x, 0) {
      BracketMeets(s, m, target, x);
    } else {
      assert x == hi;
      if Rises(s, m) {
        MeetsWithin(s, m, target, x);
      }
    }
  }

  lemma RisesMeaning(s: Setup, m: Metric)
    requires s.WellPosed()
    ensures 0.0 < s.LambdaMin() < s.LambdaMax()
    ensures Rises(s, m) <==> ValueAt(s, m, s.LambdaMin()) < ValueAt(s, m, s.LambdaMax())
  {
    RangeNotEmpty(s);
  }

  lemma MeetsWithin(s: Setup, m: Metric, target: real, x: real)
    requires s.WellPosed() && 0.0 < x && ValueAt(s, m, x) <= target + Mul(TOLERANCE, target)
    ensures Meets(s, m, target, x)
  {
  }

  /** A rate that is missed bounds the largest rate. */
  lemma LargestFrom(s: Setup, m: Metric, target: real, rate: real, b: real)
    requires s.WellPosed() && 0.0 < target && 0.0 < rate && 0.0 < b <= rate + Resolution(s)
    requires target - Mul(TOLERANCE, target) <= ValueAt(s, m, b)
    ensures LargestFor(s, m, target, rate)
  {
    hide Mul, ValueAt, Resolution, Setup.LambdaMin, Setup.LambdaMax;
    ResolutionPositive(s);
    RangeNotEmpty(s);
    assert Missed(s, m, target, b);
    forall x | rate + Resolution(s) < x <= s.LambdaMax() ensures Missed(s, m, target, x) {
      MissedUpward(s, m, target, b, x);
    }
  }

  /** The last bracket holds, on either side of the target, rates less than one step apart. */
  lemma BracketMeets(s: Setup, m: Metric, target: real, x: real)
    requires s.WellPosed() && 0.0 < target && 2 <= s.K() && 0.0 < x
    requires 0.0 < s.LambdaMin() < s.LambdaMax()
    requires Bracketed(Evaluator(s, m), s.LambdaMin(), s.LambdaMax(), target,
                       ValueAt(s, m, s.LambdaMin()) < ValueAt(s, m, s.LambdaMax()), MAX_ITERATIONS, x)
    ensures Honoured(s, m, target, x)
    ensures LargestFor(s, m, target, x)
  {
    hide Mul, Div, ValueAt, Pow2, Setup.LambdaMin, Setup.LambdaMax, Rises, Missed;
    var f, lo, hi := Evaluator(s, m), s.LambdaMin(), s.LambdaMax();
    var up := ValueAt(s, m, lo) < ValueAt(s, m, hi);
    RisesMeaning(s, m);
    var a, b :| LastBracket(f, lo, hi, target, up, MAX_ITERATIONS, x, a, b);
    assert f(a) == Some(ValueAt(s, m, a)) && f(b) == Some(ValueAt(s, m, b));
    MulNonNegative(TOLERANCE, target);
    if up {
      assert MetNearby(s, m, target, x, a);
      LargestFrom(s, m, target, x, b);
    } else {
      ValueMonotone(s, m, lo, a);
      ValueMonotone(s, m, a, b);
      ValueMonotone(s, m, b, hi);
      LargestFrom(s, m, target, x, a);
    }
  }

  /** A metric that does not rise has one value on the whole range, and the search is inverted: a
      target that every rate meets is rejected, and one that no rate meets is accepted. */
  lemma ConstantMetricInverted(s: Setup, m: Metric, target: real, x: real)
    requires s.WellPosed() && 0.0 < target && !Rises(s, m)
    requires s.LambdaMin() <= x <= s.LambdaMax()
    ensures 0.0 < x
    ensures Rejected(s, m, target) <==> ValueAt(s, m, x) < target - Mul(TOLERANCE, target)
  {
    hide Mul, ValueAt, Setup.LambdaMin, Setup.LambdaMax, WithinTolerance;
    RangeNotEmpty(s);
    ValueMonotone(s, m, s.LambdaMin(), x);
    ValueMonotone(s, m, x, s.LambdaMax());
    WithinToleranceMeaning(ValueAt(s, m, s.LambdaMin()), target, TOLERANCE);
    MulNonNegative(TOLERANCE, target);
  }

  /** The inversion on a concrete server that takes one request at a time, with an inter-token
      latency of 2 at every rate: a target of 5 is rejected and a target of 1 is accepted. */
  lemma ConstantMetricExample(x: real)
    ensures var s := Setup(1, 10, 0.0, 1.0, 1.0, 1.0, 1, 2);
            && s.WellPosed()
            && !Rises(s, InterTokenLatency)
            && Rejected(s, InterTokenLatency, 5.0)
            && !Rejected(s, InterTokenLatency, 1.0)
            && (0.0 < x ==> s.ITL(x) == 2.0)
  {
    hide Setup.ServTime, Setup.EffectiveConcurrency, Setup.LambdaMin, Setup.LambdaMax, WithinTolerance, Rises, Rejected;
    var s := Setup(1, 10, 0.0, 1.0, 1.0, 1.0, 1, 2);
    assert s.Slope() == 2.0;
    RisesExactlyWhen(s);
    RangeNotEmpty(s);
    if 0.0 < x {
      ConcurrencyRoundTrip(s, x);
    }
    ConcurrencyRoundTrip(s, s.LambdaMin());
    assert ValueAt(s, InterTokenLatency, s.LambdaMin()) == 2.0;
    ConstantMetricInverted(s, InterTokenLatency, 5.0, s.LambdaMin());
    ConstantMetricInverted(s, InterTokenLatency, 1.0, s.LambdaMin());
  }

  /** Rate `x` is out of the question: an active target is missed there, or it is above the margin
      that a throughput target keeps. */
  ghost predicate OutOfReach(s: Setup, target: TargetPerf, x: real)
    requires s.WellPosed() && 0.0 < x
  {
    || (0.0 < target.ttft && Missed(s, TimeToFirstToken, target.ttft, x))
    || (0.0 < target.itl && Missed(s, InterTokenLatency, target.itl, x))
    || (0.0 < target.tps && Mul(s.LambdaMax(), 1.0 - STABILITY_SAFETY_FRACTION) < x)
  }

  /** Every rate of the range above `rate`, by more than one search step, is out of the question. */
  ghost predicate LargestRate(s: Setup, target: TargetPerf, rate: real)
    requires s.WellPosed() && 0.0 < rate
  {
    ResolutionPositive(s);
    forall x :: rate + Resolution(s) < x <= s.LambdaMax() ==> OutOfReach(s, target, x)
  }

  lemma LargestOfAll(s: Setup, target: TargetPerf, ttft: real, itl: real, tps: real, rate: real)
    requires s.WellPosed() && 0.0 < ttft && 0.0 < itl && target.Checked()
    requires LargestFor(s, TimeToFirstToken, target.ttft, ttft) && LargestFor(s, InterTokenLatency, target.itl, itl)
    requires tps == if 0.0 < target.tps then Mul(s.LambdaMax(), 1.0 - STABILITY_SAFETY_FRACTION) else s.LambdaMax()
    requires rate == RealMin(RealMin(ttft, itl), tps) && 0.0 < rate
    ensures LargestRate(s, target, rate)
  {
    hide Mul, Missed, Resolution, Setup.LambdaMax, Setup.LambdaMin;
    ResolutionPositive(s);
    forall x | rate + Resolution(s) < x <= s.LambdaMax() ensures OutOfReach(s, target, x) {
      if rate == ttft {
        assert 0.0 < target.ttft ==> Missed(s, TimeToFirstToken, target.ttft, x);
      } else if rate == itl {
        assert 0.0 < target.itl ==> Missed(s, InterTokenLatency, target.itl, x);
      }
    }
  }

  // ---- Rates and targets in figures ----

  /** The largest rate in figures.  The range goes up to 0.999 of a full batch per batch time, and down
      to 0.001 of one request per its time.  Every rate in it that is above `rate` by more than 2^-100 of
      the range has a target missed, or met by less than a millionth, or is above nine tenths of the
      range under a throughput target. */
  ghost predicate LargestInFigures(s: Setup, target: TargetPerf, rate: real)
    requires s.WellPosed()
  {
    BatchTimesPositive(s);
    var top, bottom := 0.999 * s.maxBatch as real / s.TimeOf(s.maxBatch), 0.001 / s.TimeOf(1);
    forall x :: 0.0 < x <= top && top - bottom < (x - rate) * 1267650600228229401496703205376.0 ==>
      || (0.0 < target.ttft && 0.999999 * target.ttft <= s.TTFT(x))
      || (0.0 < target.itl && 0.999999 * target.itl <= s.ITL(x))
      || (0.0 < target.tps && 0.9 * top < x)
  }

  /** The rates that are not searched for, per second. */
  ghost predicate RatesInFigures(s: Setup, target: TargetPerf, rates: TargetRate)
    requires s.Timed()
  {
    BatchTimesPositive(s);
    var top := 999.0 * s.maxBatch as real / s.TimeOf(s.maxBatch);
    && (target.ttft == 0.0 ==> rates.ttft == top)
    && (target.itl == 0.0 ==> rates.itl == top)
    && rates.tps == if 0.0 < target.tps then 0.9 * top else top
  }

  lemma LargestRateInFigures(s: Setup, target: TargetPerf, rate: real)
    requires s.WellPosed() && 0.0 < rate && LargestRate(s, target, rate)
    ensures LargestInFigures(s, target, rate)
  {
    hide Mul, Setup.LambdaMin, Setup.LambdaMax, Setup.TTFT, Setup.ITL, Setup.TimeOf, Resolution;
    BatchTimesPositive(s);
    RangeInFigures(s);
    ResolutionInFigures(s);
    var top, bottom := 0.999 * s.maxBatch as real / s.TimeOf(s.maxBatch), 0.001 / s.TimeOf(1);
    forall x | 0.0 < x <= top && top - bottom < (x - rate) * 1267650600228229401496703205376.0
      ensures || (0.0 < target.ttft && 0.999999 * target.ttft <= s.TTFT(x))
              || (0.0 < target.itl && 0.999999 * target.itl <= s.ITL(x))
              || (0.0 < target.tps && 0.9 * top < x)
    {
      assert rate + Resolution(s) < x;
      assert OutOfReach(s, target, x);
      MissedInFigures(s, target, x);
      MarginInFigures(s.LambdaMax());
    }
  }

  lemma MissedInFigures(s: Setup, target: TargetPerf, x: real)
    requires s.WellPosed() && 0.0 < x
    ensures Missed(s, TimeToFirstToken, target.ttft, x) <==> 0.999999 * target.ttft <= s.TTFT(x)
    ensures Missed(s, InterTokenLatency, target.itl, x) <==> 0.999999 * target.itl <= s.ITL(x)
  {
    hide Setup.TTFT, Setup.ITL;
  }

  lemma MarginInFigures(top: real)
    ensures Mul(top, 1.0 - STABILITY_SAFETY_FRACTION) == 0.9 * top
  {
  }

  /** The resolution of the search, as a share of the range. */
  lemma ResolutionInFigures(s: Setup)
    requires s.Timed()
    ensures Resolution(s) * 1267650600228229401496703205376.0 == s.LambdaMax() - s.LambdaMin()
  {
    hide Setup.LambdaMin, Setup.LambdaMax, Pow2;
    SearchInFigures();
    DivCancels(s.LambdaMax() - s.LambdaMin(), Pow2(MAX_ITERATIONS));
  }

  /** Meeting a target in figures: within a millionth, or at most 2^-100 of the range above a rate that
      meets it. */
  ghost predicate MeetsInFigures(s: Setup, m: Metric, target: real, x: real)
    requires s.WellPosed() && 0.0 < x
  {
    BatchTimesPositive(s);
    var top, bottom := 0.999 * s.maxBatch as real / s.TimeOf(s.maxBatch), 0.001 / s.TimeOf(1);
    || ValueAt(s, m, x) <= 1.000001 * target
    || exists a :: 0.0 < a && ValueAt(s, m, a) <= target && (x - a) * 1267650600228229401496703205376.0 <= top - bottom
  }

  lemma MeetsFigures(s: Setup, m: Metric, target: real, x: real)
    requires s.WellPosed() && 0.0 < x && Meets(s, m, target, x)
    ensures MeetsInFigures(s, m, target, x)
  {
    hide Mul, Setup.LambdaMin, Setup.LambdaMax, ValueAt, Setup.TimeOf, Resolution;
    BatchTimesPositive(s);
    RangeInFigures(s);
    ResolutionInFigures(s);
    ToleranceInFigures(target);
    if !(ValueAt(s, m, x) <= target + Mul(TOLERANCE, target)) {
      var a :| MetNearby(s, m, target, x, a);
      assert 0.0 < a && ValueAt(s, m, a) <= target;
    }
  }

  lemma ToleranceInFigures(target: real)
    ensures target + Mul(TOLERANCE, target) == 1.000001 * target
  {
  }

  /** What is reported, from the solved probabilities: rates per second, numbers and times by Little's
      law, and the utilization as the share of the batch in use, which needs no clamp. */
  lemma ReportInFigures(s: Setup, arrival: real, a: AnalysisMetrics, p: seq<real>, number: seq<real>, busy: seq<real>)
    requires s.WellPosed() && 0.0 < arrival && ValidRates(s.Rates()) && ReportedAt(s, arrival, a)
    requires |p| == s.maxQueue + s.maxBatch + 1 && Solves(s.Rates(), arrival, s.maxQueue + s.maxBatch, p)
    requires Counts(number, |p|) && CountsUpTo(busy, |p|, s.maxBatch)
    ensures a.throughput == 1000.0 * Mul(arrival, 1.0 - p[|p| - 1])
    ensures Mul(a.avgRespTime, a.throughput / 1000.0) == Dot(number, p, |p|)
    ensures a.avgNumInServ == Dot(busy, p, |p|) == Mul(a.avgRespTime - a.avgWaitTime, a.throughput / 1000.0)
    ensures Mul(a.rho, s.maxBatch as real) == a.avgNumInServ
    ensures a.avgTokenTime == s.ITL(arrival) && a.avgWaitTime + a.avgPrefillTime == s.TTFT(arrival)
  {
    hide Mul, Div, Sum, Dot, Setup.Rates, Solves, Setup.ITL, Setup.TTFT, ReportedAt, ValidRates, Setup.TimeOf, Setup.K,
         Throughput, AvgRespTime, AvgServTime, AvgWaitTime, AvgNumInServers, AvgNumInSystem, Counts, CountsUpTo, AllNonNegative;
    var K := s.maxQueue + s.maxBatch;
    RatesValid(s);
    RangeInFigures(s);
    StatisticsInFigures(s.Rates(), arrival, K, p, number, busy);
    ReportedNumbers(s, arrival, a);
    SolvedIsDistribution(s.Rates(), arrival, K, p);
    ShareOfBatch(busy, p, K + 1, s.maxBatch);
  }

  lemma SolvedIsDistribution(rates: seq<real>, arrival: real, K: nat, p: seq<real>)
    requires ValidRates(rates) && 0.0 <= arrival && |p| == K + 1 && Solves(rates, arrival, K, p)
    ensures AllNonNegative(p) && Sum(p, K + 1) == 1.0
  {
    hide Mul, Div, Distribution, Solves, Sum;
    BalanceDetermines(rates, arrival, K, p);
    Stationary(rates, arrival, K);
  }

  lemma ReportedNumbers(s: Setup, arrival: real, a: AnalysisMetrics)
    requires s.WellPosed() && 0.0 < arrival && ValidRates(s.Rates()) && ReportedAt(s, arrival, a) && 1 <= s.maxQueue + s.maxBatch
    ensures var x, r, K := a.throughput / 1000.0, s.Rates(), s.maxQueue + s.maxBatch;
            && x == Throughput(r, arrival, K) && a.throughput == 1000.0 * x
            && a.avgRespTime == AvgRespTime(r, arrival, K)
            && a.avgRespTime - a.avgWaitTime == AvgServTime(r, arrival, K)
            && a.avgNumInServ == AvgNumInServers(r, arrival, K)
            && a.rho == RealMin(RealMax(Div(a.avgNumInServ, s.maxBatch as real), 0.0), 1.0)
            && a.avgTokenTime == s.ITL(arrival) && a.avgWaitTime + a.avgPrefillTime == s.TTFT(arrival)
  {
    hide Mul, Div, Setup.Rates, Setup.ITL, Setup.TTFT, Setup.EffectiveConcurrency, Setup.PrefillTime, ValidRates, Setup.TimeOf,
         Throughput, AvgRespTime, AvgServTime, AvgNumInServers, Setup.ServTime;
    ThousandTimes(Throughput(s.Rates(), arrival, s.K()));
  }

  lemma ThousandTimes(x: real)
    ensures Mul(x, 1000.0) == 1000.0 * x
  {
  }

  lemma ShareOfBatch(busy: seq<real>, p: seq<real>, n: nat, limit: nat)
    requires |p| == n && CountsUpTo(busy, n, limit) && AllNonNegative(p) && Sum(p, n) == 1.0 && 0 < limit
    ensures Mul(RealMin(RealMax(Div(Dot(busy, p, n), limit as real), 0.0), 1.0), limit as real) == Dot(busy, p, n)
  {
    hide Mul, Div, Dot;
    var batch := limit as real;
    DotBounds(busy, p, n, 0.0, batch);
    MulUnit(batch);
    MulUnit(1.0);
    var x := Dot(busy, p, n);
    DivCancels(x, batch);
    assert 0.0 <= x <= batch;
    QuotientBounds(x, batch);
  }

  lemma QuotientBounds(x: real, batch: real)
    requires 0.0 <= x <= batch && 0.0 < batch
    ensures 0.0 <= Div(x, batch) <= 1.0
  {
  }

  /** A sizing result: each rate is the largest for its target, the reported metrics are those of the
      smallest of them, and every active target whose metric rises is met there. */
  ghost predicate SizedFor(s: Setup, target: TargetPerf, z: Sized, arrival: real)
    requires s.WellPosed() && 0.0 < arrival
    requires ValidRates(s.Rates())
  {
    && arrival == RealMin(RealMin(z.rates.ttft, z.rates.itl), z.rates.tps) / 1000.0
    && arrival <= s.LambdaMax()
    && 0.0 < z.rates.ttft && LargestFor(s, TimeToFirstToken, target.ttft, z.rates.ttft / 1000.0)
    && 0.0 < z.rates.itl && LargestFor(s, InterTokenLatency, target.itl, z.rates.itl / 1000.0)
    && LargestRate(s, target, arrival)
    && ReportedAt(s, arrival, z.metrics)
    && z.achieved.ttft == s.TTFT(arrival)
    && z.achieved.itl == s.ITL(arrival)
    && z.achieved.tps == Mul(z.metrics.throughput, s.outTokens as real)
    && Honoured(s, TimeToFirstToken, target.ttft, arrival)
    && Honoured(s, InterTokenLatency, target.itl, arrival)
    && (0.0 < target.tps ==> arrival <= Mul(s.LambdaMax(), 1.0 - STABILITY_SAFETY_FRACTION))
    && RatesInFigures(s, target, z.rates) && LargestInFigures(s, target, arrival)
  }

  /** An active target whose metric rises is met. */
  ghost predicate Honoured(s: Setup, m: Metric, target: real, arrival: real)
    requires s.WellPosed() && 0.0 < arrival
  {
    0.0 < target && Rises(s, m) ==> Meets(s, m, target, arrival)
  }

  lemma HonouredDownward(s: Setup, m: Metric, target: real, arrival: real, arrival': real)
    requires s.WellPosed() && 0.0 < arrival <= arrival'
    requires Honoured(s, m, target, arrival')
    ensures Honoured(s, m, target, arrival)
  {
    hide Rises, Meets;
    if 0.0 < target && Rises(s, m) {
      MeetsDownward(s, m, target, arrival, arrival');
    }
  }

  class QueueAnalyzer {
    const setup: Setup
    const model: MM1ModelStateDependent
    const rateMin: real // requests/sec
    const rateMax: real

    ghost predicate Valid()
      reads this, model, model.p
    {
      && setup.Timed()
      && model.Valid()
      && model.K == setup.K()
      && model.servRate == setup.Rates()
      && rateMin == setup.LambdaMin() * 1000.0
      && rateMax == setup.LambdaMax() * 1000.0
    }

    /** Builds the queueing model with the arrival rate as a parameter. */
    constructor BuildModel(setup: Setup)
      requires setup.Timed()
      ensures Valid() && this.setup == setup && fresh(model) && fresh(model.p)
      ensures model.K == setup.maxQueue + setup.maxBatch && |model.servRate| == setup.maxBatch
      ensures forall n :: 1 <= n <= setup.maxBatch ==> Mul(model.servRate[n - 1], setup.TimeOf(n)) == n as real
      ensures 0.0 < setup.TimeOf(1) && 0.0 < setup.TimeOf(setup.maxBatch)
      ensures rateMin == 1.0 / setup.TimeOf(1)
      ensures rateMax == 999.0 * setup.maxBatch as real / setup.TimeOf(setup.maxBatch)
    {
      hide Mul, Div, Setup.BatchTime, Setup.Slope, Setup.AssumedBase, ValidRates;
      var servRate: seq<real> := [];
      ghost var r := setup.Rates();
      for n := 1 to setup.maxBatch + 1
        invariant |servRate| == n - 1
        invariant forall i :: 0 <= i < n - 1 ==> servRate[i] == r[i]
      {
        assert r[n - 1] == Div(n as real, setup.TimeOf(n));
        servRate := servRate + [Div(n as real, setup.BatchTime(n as real))];
      }
      assert servRate == r;
      RatesValid(setup);
      BuiltInFigures(setup);
      this.setup := setup;
      model := new MM1ModelStateDependent(setup.maxQueue + setup.maxBatch, servRate);
      rateMin := Mul(servRate[0], RATE_EPSILON) * 1000.0;
      rateMax := Mul(servRate[setup.maxBatch - 1], 1.0 - RATE_EPSILON) * 1000.0;
    }

    /** Metrics at a request rate (per second).  Fails exactly for a rate outside (0, max] or when
        there is no room for two requests. */
    method Analyze(requestRate: real) returns (r: Option<AnalysisMetrics>)
      requires Valid() && setup.WellPosed()
      modifies model, model.p
      ensures Valid()
      ensures 0.0 < setup.TimeOf(setup.maxBatch)
      ensures r.None? <==> || requestRate <= 0.0
                           || 999.0 * setup.maxBatch as real / setup.TimeOf(setup.maxBatch) < requestRate
                           || setup.maxQueue + setup.maxBatch < 2
      ensures rateMax == 999.0 * setup.maxBatch as real / setup.TimeOf(setup.maxBatch)
      ensures r.Some? ==>
                && ValidRates(setup.Rates())
                && ReportedAt(setup, requestRate / 1000.0, r.value)
                && r.value.maxRate == rateMax
    {
      hide Mul, Div, Setup.Rates, AvgWaitTime, AvgServTime, AvgRespTime, AvgNumInServers, Setup.EffectiveConcurrency,
           Setup.PrefillTime, Setup.DecodeTime, Throughput, Setup.Slope, Distribution, Setup.LambdaMin, Setup.LambdaMax;
      PerSecond(setup);
      if requestRate <= 0.0 {
        return None;
      }
      if requestRate > rateMax {
        return None;
      }
      model.Solve(requestRate / 1000.0, 1.0);
      if !model.isValid {
        return None;
      }
      RatesValid(setup);
      var avgNumInServ := model.avgNumInServers;
      var effConc := setup.EffectiveConcurrency(model.avgServTime);
      var prefillTime := setup.PrefillTime(effConc);
      var tokenTime := setup.DecodeTime(effConc);
      var rho := Div(avgNumInServ, setup.maxBatch as real);
      rho := RealMin(RealMax(rho, 0.0), 1.0);
      r := Some(AnalysisMetrics(Mul(model.throughput, 1000.0), model.avgRespTime, model.avgWaitTime,
                                avgNumInServ, prefillTime, tokenTime, rateMax, rho));
    }

    /** Evaluates the time to first token by re-solving the model. */
    method EvalTTFT(x: real) returns (r: Option<real>)
      requires Valid() && setup.WellPosed() && 0.0 < x
      modifies model, model.p
      ensures Valid()
      ensures r == Evaluator(setup, TimeToFirstToken)(x)
    {
      hide Mul, Div, Setup.Rates, AvgWaitTime, AvgServTime, Setup.EffectiveConcurrency,
           Setup.PrefillTime, Throughput, Setup.Slope, Distribution, Setup.LambdaMin, Setup.LambdaMax;
      model.Solve(x, 1.0);
      if !model.isValid {
        return None;
      }
      RatesValid(setup);
      var effConc := setup.EffectiveConcurrency(model.avgServTime);
      r := Some(model.avgWaitTime + setup.PrefillTime(effConc));
    }

    /** Evaluates the inter-token latency by re-solving the model. */
    method EvalITL(x: real) returns (r: Option<real>)
      requires Valid() && setup.WellPosed() && 0.0 < x
      modifies model, model.p
      ensures Valid()
      ensures r == Evaluator(setup, InterTokenLatency)(x)
    {
      hide Mul, Div, Setup.Rates, AvgWaitTime, AvgServTime, Setup.EffectiveConcurrency,
           Setup.DecodeTime, Throughput, Setup.Slope, Distribution, Setup.LambdaMin, Setup.LambdaMax;
      model.Solve(x, 1.0);
      if !model.isValid {
        return None;
      }
      RatesValid(setup);
      var effConc := setup.EffectiveConcurrency(model.avgServTime);
      r := Some(setup.DecodeTime(effConc));
    }

    /** Evaluates a metric by re-solving the model. */
    method Eval(m: Metric, x: real) returns (r: Option<real>)
      requires Valid() && setup.WellPosed() && 0.0 < x
      modifies model, model.p
      ensures Valid()
      ensures r == Evaluator(setup, m)(x)
    {
      hide ValueAt;
      match m
      case TimeToFirstToken => r := EvalTTFT(x);
      case InterTokenLatency => r := EvalITL(x);
    }

    /** The binary search.  Every evaluation re-solves the one shared model, and still the search
        computes what it would on a function of the rate. */
    method BinarySearch(xMin: real, xMax: real, yTarget: real, m: Metric, iterations: nat) returns (r: SearchResult)
      requires Valid() && setup.WellPosed() && 0.0 < xMin && 1 <= iterations
      modifies model, model.p
      ensures Valid()
      ensures r == Search(Evaluator(setup, m), xMin, xMax, yTarget, iterations)
    {
      hide WithinTolerance, ValueAt, Setup.Timed, Setup.TimeOf, Setup.Rates, Setup.LambdaMin, Setup.LambdaMax, Evaluator, Bisect;
      if xMin > xMax {
        return SearchError;
      }
      var y0 := Eval(m, xMin);
      if y0.None? {
        return SearchError;
      }
      if WithinTolerance(y0.value, yTarget, TOLERANCE) {
        return Found(xMin, 0);
      }
      var y1 := Eval(m, xMax);
      if y1.None? {
        return SearchError;
      }
      if WithinTolerance(y1.value, yTarget, TOLERANCE) {
        return Found(xMax, 0);
      }
      var increasing := y0.value < y1.value;
      if (increasing && yTarget < y0.value) || (!increasing && yTarget > y0.value) {
        return Found(xMin, -1);
      }
      if (increasing && yTarget > y1.value) || (!increasing && yTarget < y1.value) {
        return Found(xMax, 1);
      }
      r := Halve(xMin, xMax, yTarget, m, increasing, iterations);
    }

    /** The loop of the search. */
    method Halve(xMin: real, xMax: real, yTarget: real, m: Metric, increasing: bool, iterations: nat) returns (r: SearchResult)
      requires Valid() && setup.WellPosed() && 0.0 < xMin <= xMax && 1 <= iterations
      modifies model, model.p
      ensures Valid()
      ensures r == Bisect(Evaluator(setup, m), xMin, xMax, yTarget, increasing, iterations)
    {
      hide WithinTolerance, ValueAt, Setup.Timed, Setup.TimeOf, Setup.Rates, Setup.LambdaMin, Setup.LambdaMax, Evaluator;
      ghost var f := Evaluator(setup, m);
      ghost var goal := Bisect(f, xMin, xMax, yTarget, increasing, iterations);
      var lo, hi := xMin, xMax;
      var xStar := 0.0;
      for k := 0 to iterations
        invariant Valid()
        invariant 0.0 < lo <= hi
        invariant goal == if k < iterations then Bisect(f, lo, hi, yTarget, increasing, iterations - k) else Found(xStar, 0)
      {
        xStar := 0.5 * (lo + hi);
        var yStar := Eval(m, xStar);
        if yStar.None? {
          return SearchError;
        }
        if WithinTolerance(yStar.value, yTarget, TOLERANCE) {
          return Found(xStar, 0);
        }
        if (increasing && yTarget < yStar.value) || (!increasing && yTarget > yStar.value) {
          hi := xStar;
        } else {
          lo := xStar;
        }
      }
      return Found(xStar, 0);
    }

    /** Largest rate for one target, the top of the range when the target is not set. */
    method MaxRateFor(m: Metric, target: real) returns (r: Option<real>)
      requires Valid() && setup.WellPosed() && 0.0 <= target
      modifies model, model.p
      ensures Valid()
      ensures r.None? <==> 0.0 < target && (setup.K() < 2 || Rejected(setup, m, target))
      ensures r.Some? ==> setup.LambdaMin() <= r.value <= setup.LambdaMax() && 0.0 < r.value
      ensures r.Some? ==> Honoured(setup, m, target, r.value)
      ensures r.Some? ==> LargestFor(setup, m, target, r.value)
    {
      hide Mul, Div, ValueAt, Setup.LambdaMin, Setup.LambdaMax, WithinTolerance, Pow2, Setup.Rates, Search, Honoured,
           LargestFor, Rejected, Setup.WellPosed;
      RangeNotEmpty(setup);
      var lo, hi := rateMin / 1000.0, rateMax / 1000.0;
      if target == 0.0 {
        NoTarget(setup, m);
        return Some(hi);
      }
      SearchRejects(setup, m, target);
      var found := BinarySearch(lo, hi, target, m, MAX_ITERATIONS);
      if found.SearchError? || found.indicator < 0 {
        return None;
      }
      r := Some(found.x);
      SearchMeets(setup, m, target, found.x);
    }

    /** Sizes the server.  A result is refused exactly when a target is negative, there is no room
        for two requests, or an active target is rejected; every active target whose metric rises is
        met at the sized rate, and no larger rate of the range would do. */
    method Size(target: TargetPerf) returns (r: Option<Sized>)
      requires Valid() && setup.WellPosed()
      modifies model, model.p
      ensures Valid()
      ensures r.None? <==> || !target.Checked()
                           || setup.K() < 2
                           || Rejected(setup, TimeToFirstToken, target.ttft)
                           || Rejected(setup, InterTokenLatency, target.itl)
      ensures r.Some? ==>
                var arrival := RealMin(RealMin(r.value.rates.ttft, r.value.rates.itl), r.value.rates.tps) / 1000.0;
                0.0 < arrival && ValidRates(setup.Rates()) && SizedFor(setup, target, r.value, arrival)
    {
      hide Mul, Div, Setup.Rates, Honoured, Rises, ValueAt, WithinTolerance, Setup.LambdaMin, Setup.LambdaMax, Setup.ITL, Setup.TTFT,
           Setup.WaitTime, Setup.ServTime, Throughput, AvgRespTime, AvgNumInServers, Setup.PrefillTime, Setup.Slope,
           Setup.EffectiveConcurrency, ValidRates, LargestFor, LargestRate, Setup.WellPosed, LargestInFigures, RatesInFigures, Setup.TimeOf;
      if !target.Checked() {
        return None;
      }
      RangeNotEmpty(setup);
      var top := rateMax / 1000.0;
      var starTTFT := MaxRateFor(TimeToFirstToken, target.ttft);
      if starTTFT.None? {
        return None;
      }
      var starITL := MaxRateFor(InterTokenLatency, target.itl);
      if starITL.None? {
        return None;
      }
      var starTPS := top;
      if 0.0 < target.tps {
        starTPS := Mul(top, 1.0 - STABILITY_SAFETY_FRACTION);
        SafetyMargin(top);
      }
      var arrival := RealMin(RealMin(starTTFT.value, starITL.value), starTPS);
      var metrics := Analyze(arrival * 1000.0);
      if metrics.None? {
        return None;
      }
      var rates := TargetRate(starTTFT.value * 1000.0, starITL.value * 1000.0, starTPS * 1000.0);
      var achieved := TargetPerf(metrics.value.avgWaitTime + metrics.value.avgPrefillTime,
                                 metrics.value.avgTokenTime,
                                 Mul(metrics.value.throughput, setup.outTokens as real));
      r := Some(Sized(rates, metrics.value, achieved));
      LargestOfAll(setup, target, starTTFT.value, starITL.value, starTPS, arrival);
      LargestRateInFigures(setup, target, arrival);
      UnsearchedRates(setup, target, rates);
      HonouredDownward(setup, TimeToFirstToken, target.ttft, arrival, starTTFT.value);
      HonouredDownward(setup, InterTokenLatency, target.itl, arrival, starITL.value);
    }
  }

  /** The ends of the range, per second. */
  lemma PerSecond(s: Setup)
    requires s.Timed()
    ensures 0.0 < s.TimeOf(1) && 0.0 < s.TimeOf(s.maxBatch)
    ensures s.LambdaMin() * 1000.0 == 1.0 / s.TimeOf(1)
    ensures s.LambdaMax() * 1000.0 == 999.0 * s.maxBatch as real / s.TimeOf(s.maxBatch)
  {
    hide Setup.LambdaMin, Setup.LambdaMax, Setup.TimeOf, Setup.Rates;
    RangeInFigures(s);
    Thousandfold(0.001, s.TimeOf(1));
    Thousandfold(0.999 * s.maxBatch as real, s.TimeOf(s.maxBatch));
  }

  lemma BuiltInFigures(s: Setup)
    requires s.Timed()
    ensures |s.Rates()| == s.maxBatch && 0.0 < s.TimeOf(1) && 0.0 < s.TimeOf(s.maxBatch)
    ensures forall n :: 1 <= n <= s.maxBatch ==> Mul(s.Rates()[n - 1], s.TimeOf(n)) == n as real
    ensures Mul(s.Rates()[0], RATE_EPSILON) * 1000.0 == 1.0 / s.TimeOf(1)
    ensures Mul(s.Rates()[s.maxBatch - 1], 1.0 - RATE_EPSILON) * 1000.0 == 999.0 * s.maxBatch as real / s.TimeOf(s.maxBatch)
  {
    hide Mul, Setup.TimeOf, Setup.Rates;
    RangeInFigures(s);
    PerSecond(s);
  }

  lemma Thousandfold(x: real, t: real)
    requires t != 0.0
    ensures x / t * 1000.0 == x * 1000.0 / t
  {
    var q := x / t;
    assert q * t == x;
    assert (q * 1000.0) * t == x * 1000.0;
  }

  lemma UnsearchedRates(s: Setup, target: TargetPerf, rates: TargetRate)
    requires s.WellPosed() && target.Checked() && 0.0 < rates.ttft && 0.0 < rates.itl
    requires LargestFor(s, TimeToFirstToken, target.ttft, rates.ttft / 1000.0)
    requires LargestFor(s, InterTokenLatency, target.itl, rates.itl / 1000.0)
    requires rates.tps / 1000.0 == if 0.0 < target.tps then Mul(s.LambdaMax(), 1.0 - STABILITY_SAFETY_FRACTION) else s.LambdaMax()
    ensures RatesInFigures(s, target, rates)
  {
    hide Mul, Setup.LambdaMax, Setup.TimeOf, Missed, Resolution;
    PerSecond(s);
    MarginInFigures(s.LambdaMax());
  }

  lemma NoTarget(s: Setup, m: Metric)
    requires s.WellPosed()
    ensures 0.0 < s.LambdaMin() < s.LambdaMax()
    ensures !Rejected(s, m, 0.0) && Honoured(s, m, 0.0, s.LambdaMax()) && LargestFor(s, m, 0.0, s.LambdaMax())
  {
    hide Mul, ValueAt, Setup.LambdaMin, Setup.LambdaMax, WithinTolerance, Meets, Resolution;
    RangeNotEmpty(s);
  }

  /** When the search finds nothing. */
  lemma SearchRejects(s: Setup, m: Metric, target: real)
    requires s.WellPosed() && 0.0 < target
    ensures var r := Search(Evaluator(s, m), s.LambdaMin(), s.LambdaMax(), target, MAX_ITERATIONS);
            && (r.SearchError? || r.indicator < 0 <==> s.K() < 2 || Rejected(s, m, target))
            && (r.Found? ==>
                  && s.LambdaMin() <= r.x <= s.LambdaMax() && 0.0 < r.x && 2 <= s.K()
                  && (r.indicator == -1 || r.indicator == 0 || r.indicator == 1))
  {
    hide Mul, Div, ValueAt, WithinTolerance, Pow2, Search, Setup.LambdaMin, Setup.LambdaMax, Bracketed;
    RangeNotEmpty(s);
    var f, lo, hi := Evaluator(s, m), s.LambdaMin(), s.LambdaMax();
    SearchContract(f, lo, hi, target, MAX_ITERATIONS);
    if 2 <= s.K() {
      forall x | lo <= x <= hi ensures f(x).Some? {}
      assert f(lo) == Some(ValueAt(s, m, lo)) && f(hi) == Some(ValueAt(s, m, hi));
      ValueMonotone(s, m, lo, hi);
      EndsOrdered(ValueAt(s, m, lo), ValueAt(s, m, hi), target);
    } else {
      assert f(lo).None?;
    }
  }

  lemma SafetyMargin(top: real)
    requires 0.0 < top
    ensures 0.0 < Mul(top, 1.0 - STABILITY_SAFETY_FRACTION) < top
  {
  }

  /** If the lower end misses a smaller target, the upper end does too; if the two ends agree they
      miss together. */
  lemma EndsOrdered(y0: real, y1: real, target: real)
    requires 0.0 < target && y0 <= y1
    ensures target < y0 && !WithinTolerance(y0, target, TOLERANCE) ==> !WithinTolerance(y1, target, TOLERANCE)
  {
    hide Mul, WithinTolerance;
    WithinToleranceMeaning(y0, target, TOLERANCE);
    WithinToleranceMeaning(y1, target, TOLERANCE);
    MulNonNegative(TOLERANCE, target);
  }
}
