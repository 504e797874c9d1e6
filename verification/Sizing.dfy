/** Sizing an allocation for a server under load: how many replicas of an accelerator, at what cost
    and with what latency.  The end-to-end guarantee is proved here. */
module Sizing {
  import opened Basics
  import opened RealArithmetic
  import opened Sums
  import opened BirthDeath
  import opened RateSearch
  import opened Latency
  import opened QueueAnalyzer

  const MAX_QUEUE_TO_BATCH_RATIO: int := 10

  datatype PerfData = PerfData(maxBatchSize: int, atTokens: int, gamma: real, delta: real, alpha: real, beta: real)

  datatype Load = Load(arrivalRate: real, avgInTokens: int, avgOutTokens: int) // requests/min

  datatype ServerLimits = ServerLimits(minNumReplicas: int, maxBatchSize: int)

  datatype Allocation = Allocation(
    numReplicas: int, batchSize: int, cost: real, value: real,
    itl: real, ttft: real, rho: real, maxArrvRatePerReplica: real)
  {
    function MaxRPM(): real {
      maxArrvRatePerReplica * 1000.0 * 60.0
    }

    /** Whether a total rate (per minute) exceeds what the replicas were sized for. */
    predicate Saturated(totalRate: real) {
      totalRate > Mul(numReplicas as real, MaxRPM())
    }
  }

  function Ceil(x: real): int {
    0 - (0.0 - x).Floor
  }

  /** Configured batch size, or the profiled one rescaled to the request length.  A negative
      quotient gives one, whichever way the division rounds. */
  function BatchSize(server: ServerLimits, perf: PerfData, outTokens: int): (n: int)
    requires 1 <= outTokens
    ensures 1 <= n
  {
    if server.maxBatchSize > 0 then server.maxBatchSize
    else Max(perf.maxBatchSize * perf.atTokens / outTokens, 1)
  }

  function SetupFor(server: ServerLimits, perf: PerfData, load: Load): (s: Setup)
    requires 1 <= load.avgOutTokens
    ensures 11 <= s.K() && s.maxQueue >= 10
  {
    var n := BatchSize(server, perf, load.avgOutTokens);
    Setup(n, n * MAX_QUEUE_TO_BATCH_RATIO, perf.gamma, perf.delta, perf.alpha, perf.beta,
          load.avgInTokens, load.avgOutTokens)
  }

  /** Rate (per second) to be served: the arrivals, or what the throughput target asks for. */
  function TotalRate(load: Load, target: TargetPerf): real
    requires 1 <= load.avgOutTokens
  {
    if target.tps == 0.0 then load.arrivalRate / 60.0 else Div(target.tps, load.avgOutTokens as real)
  }

  /** `n` is the least replica count, at least one and at least the minimum, that carries `total`. */
  ghost predicate LeastReplicas(n: int, minimum: int, total: real, rate: real) {
    && 1 <= n && minimum <= n
    && total <= Mul(n as real, rate)
    && forall k: int :: 1 <= k < n && minimum <= k ==> Carries(k, rate) < total
  }

  function Carries(k: int, rate: real): real {
    Mul(k as real, rate)
  }

  /** The queue that a server is sized with: the configured batch, or the profiled one rescaled to the
      request length and rounded down to at least one; ten places to wait per place in the batch; the
      parameters of the profile and the request size of the load. */
  lemma SetupInFigures(server: ServerLimits, perf: PerfData, load: Load)
    requires 1 <= load.avgOutTokens
    ensures var s := SetupFor(server, perf, load);
            && (0 < server.maxBatchSize ==> s.maxBatch == server.maxBatchSize)
            && (server.maxBatchSize <= 0 ==>
                  && 1 <= s.maxBatch
                  && perf.maxBatchSize * perf.atTokens < (s.maxBatch + 1) * load.avgOutTokens
                  && (1 < s.maxBatch ==> s.maxBatch * load.avgOutTokens <= perf.maxBatchSize * perf.atTokens))
            && s.maxQueue == 10 * s.maxBatch
            && s.gamma == perf.gamma && s.delta == perf.delta && s.alpha == perf.alpha && s.beta == perf.beta
            && s.inTokens == load.avgInTokens && s.outTokens == load.avgOutTokens
  {
    var x, k := perf.maxBatchSize * perf.atTokens, load.avgOutTokens;
    QuotientInFigures(x, k);
  }

  lemma QuotientInFigures(x: int, k: int)
    requires 1 <= k
    ensures x < (Max(x / k, 1) + 1) * k
    ensures 1 < Max(x / k, 1) ==> Max(x / k, 1) * k <= x
  {
    var q := x / k;
    assert x == q * k + x % k;
    if q < 1 {
      assert q * k <= 0;
    }
  }

  /** `k` replicas at this rate each carry less than what is needed. */
  ghost predicate TooFew(k: int, rate: real, need: real) {
    Mul(rate, k as real) < need
  }

  /** The reported latencies are those at rate `x` (per msec). */
  ghost predicate ReportsAt(s: Setup, a: Allocation, x: real)
    requires s.WellPosed()
  {
    0.0 < x && a.itl == s.ITL(x) && a.ttft == s.TTFT(x)
  }

  /** `n` replicas at this rate each carry what is needed, and any smaller count that the minimum
      allows does not. */
  ghost predicate LeastFor(n: int, minimum: int, rate: real, need: real) {
    && need <= Mul(rate, n as real)
    && forall k :: 1 <= k < n && minimum <= k ==> TooFew(k, rate, need)
  }

  /** The count of replicas and the reported latencies in figures.  A replica carries its throughput per
      second at the sized rate: sixty times that in requests per minute, and the tokens of a request
      times that in tokens per second.  The count is least for the requests per minute, or the tokens per
      second, that are asked for, and the latencies are those of one replica's share, per msec. */
  ghost predicate CountInFigures(s: Setup, server: ServerLimits, load: Load, target: TargetPerf, a: Allocation)
    requires s.WellPosed() && 1 <= load.avgOutTokens && 1 <= a.numReplicas
  {
    var n, rate, tokens := a.numReplicas, a.maxArrvRatePerReplica * 1000.0, load.avgOutTokens as real;
    if target.tps == 0.0 then
      && LeastFor(n, server.minNumReplicas, 60.0 * rate, load.arrivalRate)
      && ReportsAt(s, a, Div(load.arrivalRate, 60000.0 * n as real))
    else
      && LeastFor(n, server.minNumReplicas, Mul(tokens, rate), target.tps)
      && ReportsAt(s, a, Div(Div(target.tps, tokens), 1000.0 * n as real))
  }

  lemma CountFigures(s: Setup, server: ServerLimits, load: Load, target: TargetPerf, a: Allocation)
    requires s.WellPosed() && 1 <= load.avgOutTokens && 1 <= a.numReplicas
    requires var total, rate := TotalRate(load, target), a.maxArrvRatePerReplica * 1000.0;
             && LeastReplicas(a.numReplicas, server.minNumReplicas, total, rate)
             && ReportsAt(s, a, Div(total, a.numReplicas as real) / 1000.0)
    ensures CountInFigures(s, server, load, target, a)
  {
    hide Mul, Div, Setup.WellPosed, LeastFor, ReportsAt, LeastReplicas;
    var n, rate, tokens := a.numReplicas, a.maxArrvRatePerReplica * 1000.0, load.avgOutTokens as real;
    var total := TotalRate(load, target);
    if target.tps == 0.0 {
      ShareInFigures(total, n as real);
      ShareInFigures60(load.arrivalRate, n as real);
      MulUnits(60.0, rate, total);
      FewerInFigures(n, server.minNumReplicas, total, rate, 60.0, load.arrivalRate);
      assert ReportsAt(s, a, Div(load.arrivalRate, 60000.0 * n as real));
      assert LeastFor(n, server.minNumReplicas, 60.0 * rate, load.arrivalRate);
    } else {
      ShareInFigures(total, n as real);
      DivCancels(target.tps, tokens);
      FewerInFigures(n, server.minNumReplicas, total, rate, tokens, target.tps);
    }
  }

  lemma MulUnits(factor: real, rate: real, total: real)
    ensures Mul(factor, rate) == factor * rate && Mul(total, factor) == total * factor
  {
  }

  lemma ShareInFigures(total: real, n: real)
    requires 0.0 < n
    ensures Div(total, n) / 1000.0 == Div(total, 1000.0 * n)
  {
    var q := total / n;
    assert q * n == total;
    assert (q / 1000.0) * (1000.0 * n) == total;
  }

  lemma ShareInFigures60(perMinute: real, n: real)
    requires 0.0 < n
    ensures Div(perMinute / 60.0, 1000.0 * n) == Div(perMinute, 60000.0 * n)
  {
    var q := perMinute / (60000.0 * n);
    assert q * (60000.0 * n) == perMinute;
    assert q * (1000.0 * n) == perMinute / 60.0;
  }

  lemma FewerInFigures(n: int, minimum: int, total: real, rate: real, factor: real, need: real)
    requires LeastReplicas(n, minimum, total, rate) && 0.0 < factor && Mul(total, factor) == need
    ensures LeastFor(n, minimum, Mul(factor, rate), need)
  {
    hide Mul, TooFew;
    InUnits(n as real, rate, total, factor);
    forall k | 1 <= k < n && minimum <= k ensures TooFew(k, Mul(factor, rate), need) {
      assert Carries(k, rate) < total;
      InUnits(k as real, rate, total, factor);
      FewFrom(k, Mul(factor, rate), need);
    }
  }

  lemma FewFrom(k: int, rate: real, need: real)
    requires Mul(rate, k as real) < need
    ensures TooFew(k, rate, need)
  {
  }

  lemma InUnits(k: real, rate: real, total: real, factor: real)
    requires 0.0 < factor
    ensures Mul(k, rate) < total ==> Mul(Mul(factor, rate), k) < Mul(total, factor)
    ensures total <= Mul(k, rate) ==> Mul(total, factor) <= Mul(Mul(factor, rate), k)
  {
    hide Mul;
    MulComm(total, factor);
    if Mul(k, rate) < total {
      MulMono(factor, Mul(k, rate), total);
    } else {
      MulMono(factor, total, Mul(k, rate));
    }
    MulAssoc(factor, k, rate);
    MulComm(k, Mul(factor, rate));
  }

  /** What a returned allocation promises, `arrival` being the sized rate per msec. */
  ghost predicate Guaranteed(s: Setup, server: ServerLimits, load: Load, target: TargetPerf,
                             unitCost: real, instances: int, a: Allocation, arrival: real)
    requires s.WellPosed() && ValidRates(s.Rates()) && 0.0 < arrival
    requires 1 <= load.avgOutTokens
  {
    var total := TotalRate(load, target);
    var rateStar := a.maxArrvRatePerReplica * 1000.0;
    && 0.0 < rateStar < arrival * 1000.0 && arrival <= s.LambdaMax()
    && rateStar == Mul(Throughput(s.Rates(), arrival, s.K()), 1000.0)
    && 1 <= a.numReplicas
    && LeastReplicas(a.numReplicas, server.minNumReplicas, total, rateStar)
    && var perReplica := Div(total, a.numReplicas as real) / 1000.0;
    && 0.0 < perReplica <= rateStar / 1000.0
    && a.batchSize == s.maxBatch
    && a.cost == a.value == Mul(unitCost, (instances * a.numReplicas) as real)
    && a.itl == s.ITL(perReplica)
    && a.ttft == s.TTFT(perReplica)
    && 0.0 <= a.rho <= 1.0
    && Honoured(s, TimeToFirstToken, target.ttft, perReplica)
    && Honoured(s, InterTokenLatency, target.itl, perReplica)
    && LargestRate(s, target, arrival)
    && LargestInFigures(s, target, arrival)
    && CountInFigures(s, server, load, target, a)
  }

  lemma CeilBounds(x: real)
    ensures x <= Ceil(x) as real < x + 1.0
  {
  }

  /** The ceiling of total over rate, raised to the minimum, is the least sufficient count. */
  lemma CeilIsLeast(total: real, rate: real, minimum: int)
    requires 0.0 < total && 0.0 < rate
    ensures LeastReplicas(Max(Ceil(Div(total, rate)), minimum), minimum, total, rate)
  {
    hide Mul, Div;
    var q := Div(total, rate);
    DivSign(total, rate);
    DivCancels(total, rate);
    CeilBounds(q);
    var n := Max(Ceil(q), minimum);
    MulMono(rate, q, n as real);
    MulComm(rate, q);
    MulComm(rate, n as real);
    forall k: int | 1 <= k < n && minimum <= k ensures Carries(k, rate) < total {
      MulMono(rate, k as real, q);
      MulComm(rate, k as real);
    }
  }

  lemma PerReplicaBounded(total: real, n: real, rate: real)
    requires 0.0 < total <= Mul(n, rate) && 0.0 < n
    ensures 0.0 < Div(total, n) <= rate
  {
    hide Mul, Div;
    DivSign(total, n);
    DivCancels(total, n);
    MulComm(n, rate);
    CancelFactor(Div(total, n), rate, n);
  }

  lemma RhoBounded(x: real)
    ensures 0.0 <= RealMin(RealMax(x, 0.0), 1.0) <= 1.0
  {
  }

  /** Sizes an allocation for a server with load.  Nothing is returned exactly when a target is
      negative or rejected; otherwise the allocation carries the load on the least number of
      replicas, and the latencies it reports honour the targets. */
  method CreateLoadedAllocation(server: ServerLimits, perf: PerfData, load: Load, target: TargetPerf,
                                unitCost: real, instances: int)
    returns (r: Option<Allocation>, ghost arrival: real)
    requires 0.0 < load.arrivalRate && 0 <= load.avgInTokens && 1 <= load.avgOutTokens
    requires SetupFor(server, perf, load).WellPosed()
    ensures var s := SetupFor(server, perf, load);
            r.None? <==> || !target.Checked()
                         || Rejected(s, TimeToFirstToken, target.ttft)
                         || Rejected(s, InterTokenLatency, target.itl)
    ensures r.Some? ==>
              var s := SetupFor(server, perf, load);
              && 0.0 < arrival && ValidRates(s.Rates())
              && Guaranteed(s, server, load, target, unitCost, instances, r.value, arrival)
  {
    hide Mul, Div, Setup.Rates, Honoured, Rises, ValueAt, WithinTolerance, Setup.LambdaMin, Setup.LambdaMax,
         Setup.ITL, Setup.TTFT, Setup.WaitTime, Setup.ServTime, Throughput, AvgRespTime, AvgNumInServers,
         Setup.PrefillTime, Setup.Slope, Setup.EffectiveConcurrency, ValidRates, Rejected, RealMin, RealMax,
         LeastReplicas, Setup.Timed, Setup.TimeOf, LargestRate, LargestFor,
         LargestInFigures, RatesInFigures, CountInFigures;
    var setup := SetupFor(server, perf, load);
    arrival := 0.0;
    var qa := new QueueAnalyzer.BuildModel(setup);
    var sized := qa.Size(target);
    if sized.None? {
      return None, arrival;
    }
    arrival := RealMin(RealMin(sized.value.rates.ttft, sized.value.rates.itl), sized.value.rates.tps) / 1000.0;
    var rateStar := sized.value.metrics.throughput;
    RatesValid(setup);
    StarBounds(setup, arrival, rateStar);
    var totalRate := TotalRate(load, target);
    TotalRatePositive(load, target);
    var numReplicas := Ceil(Div(totalRate, rateStar));
    numReplicas := Max(numReplicas, server.minNumReplicas);
    CeilIsLeast(totalRate, rateStar, server.minNumReplicas);
    LeastIsEnough(numReplicas, server.minNumReplicas, totalRate, rateStar);
    var totalNumInstances := instances * numReplicas;
    var cost := Mul(unitCost, totalNumInstances as real);
    var rate := Div(totalRate, numReplicas as real);
    PerReplicaBounded(totalRate, numReplicas as real, rateStar);
    var metrics := qa.Analyze(rate);
    if metrics.None? {
      assert false;
      return None, arrival;
    }
    RhoBounded(Div(metrics.value.avgNumInServ, setup.maxBatch as real));
    HonouredDownward(setup, TimeToFirstToken, target.ttft, rate / 1000.0, arrival);
    HonouredDownward(setup, InterTokenLatency, target.itl, rate / 1000.0, arrival);
    r := Some(Allocation(numReplicas, setup.maxBatch, cost, cost, metrics.value.avgTokenTime,
                         metrics.value.avgWaitTime + metrics.value.avgPrefillTime, metrics.value.rho,
                         rateStar / 1000.0));
    assert ReportsAt(setup, r.value, rate / 1000.0);
    CountFigures(setup, server, load, target, r.value);
  }

  lemma StarBounds(s: Setup, arrival: real, rateStar: real)
    requires s.WellPosed() && ValidRates(s.Rates()) && 0.0 < arrival
    requires rateStar == Mul(Throughput(s.Rates(), arrival, s.K()), 1000.0)
    ensures 0.0 < rateStar < arrival * 1000.0
  {
    hide Throughput, Setup.Rates;
    ThroughputPositive(s.Rates(), arrival, s.K());
  }

  lemma TotalRatePositive(load: Load, target: TargetPerf)
    requires 0.0 < load.arrivalRate && 1 <= load.avgOutTokens && target.Checked()
    ensures 0.0 < TotalRate(load, target)
  {
    hide Div;
    if target.tps != 0.0 {
      DivSign(target.tps, load.avgOutTokens as real);
    }
  }

  lemma LeastIsEnough(n: int, minimum: int, total: real, rate: real)
    requires LeastReplicas(n, minimum, total, rate)
    ensures 1 <= n && total <= Mul(n as real, rate)
  {
  }

  /** The service-level guarantee in terms of the server's own parameters.  The queue of a loaded
      server is never empty-sized, so a time-to-first-token target is always honoured; an inter-token
      target is honoured when the batch holds two requests, decoding slows with the batch, and there is
      a prefill or its constant is no more than what one request adds to the batch time. */
  lemma ServiceLevelGuarantee(server: ServerLimits, perf: PerfData, load: Load, target: TargetPerf,
                              unitCost: real, instances: int, a: Allocation, arrival: real)
    requires 1 <= load.avgOutTokens && 0.0 < arrival
    requires var s := SetupFor(server, perf, load);
             && s.WellPosed() && ValidRates(s.Rates())
             && Guaranteed(s, server, load, target, unitCost, instances, a, arrival)
    ensures var s := SetupFor(server, perf, load);
            var perReplica := Div(TotalRate(load, target), a.numReplicas as real) / 1000.0;
            && 0.0 < perReplica < arrival
            && (0.0 < target.ttft ==> MeetsInFigures(s, TimeToFirstToken, target.ttft, perReplica))
            && (0.0 < target.itl && 2 <= s.maxBatch && 0.0 < perf.beta
                && (0 < load.avgInTokens || (1 < load.avgOutTokens && perf.gamma <= s.Slope())) ==>
                  MeetsInFigures(s, InterTokenLatency, target.itl, perReplica))
            && (0.0 < target.itl && Rises(s, InterTokenLatency) ==> MeetsInFigures(s, InterTokenLatency, target.itl, perReplica))
  {
    hide Mul, Div, Setup.Rates, Rises, Meets, Setup.LambdaMax, Setup.ITL, Setup.TTFT, Throughput, ValidRates,
         LeastReplicas, Setup.BatchTime, LargestRate, Setup.ServTime, Setup.Slope, LargestInFigures, CountInFigures, MeetsInFigures;
    var s := SetupFor(server, perf, load);
    RisesExactlyWhen(s);
    var perReplica := Div(TotalRate(load, target), a.numReplicas as real) / 1000.0;
    if Meets(s, TimeToFirstToken, target.ttft, perReplica) {
      MeetsFigures(s, TimeToFirstToken, target.ttft, perReplica);
    }
    if Meets(s, InterTokenLatency, target.itl, perReplica) {
      MeetsFigures(s, InterTokenLatency, target.itl, perReplica);
    }
  }

  /** Sized on its own arrivals, an allocation is not saturated by them; sized on a throughput target,
      it is not saturated as long as the arrivals ask for no more tokens than the target. */
  lemma NotSaturated(s: Setup, server: ServerLimits, load: Load, target: TargetPerf,
                     unitCost: real, instances: int, a: Allocation, arrival: real)
    requires s.WellPosed() && ValidRates(s.Rates()) && 0.0 < arrival
    requires 1 <= load.avgOutTokens
    requires Guaranteed(s, server, load, target, unitCost, instances, a, arrival)
    requires target.tps == 0.0 || Mul(load.arrivalRate, load.avgOutTokens as real) <= target.tps * 60.0
    ensures !a.Saturated(load.arrivalRate)
    ensures load.arrivalRate <= 60000.0 * a.maxArrvRatePerReplica * a.numReplicas as real
  {
    hide Mul, Div, Setup.Rates, Honoured, Setup.LambdaMax, Setup.ITL, Setup.TTFT, Throughput, ValidRates, LargestRate,
         LargestInFigures, CountInFigures;
    var n, star := a.numReplicas as real, a.maxArrvRatePerReplica * 1000.0;
    var total := TotalRate(load, target);
    ScaleBy60(n, star);
    SaturatedInFigures(a, load.arrivalRate);
    if target.tps != 0.0 {
      PerMinute(load.arrivalRate, load.avgOutTokens as real, target.tps);
    }
  }

  /** Fewer replicas would not do.  If `k` replicas, fewer than the allocation has, carry the load at
      some rate `x` of the range, that rate is above the sized one, and if by more than a search step,
      a target is missed there. */
  lemma FewerReplicasFail(s: Setup, server: ServerLimits, load: Load, target: TargetPerf,
                          unitCost: real, instances: int, a: Allocation, arrival: real, k: int, x: real)
    requires s.WellPosed() && ValidRates(s.Rates()) && 0.0 < arrival && 1 <= load.avgOutTokens
    requires Guaranteed(s, server, load, target, unitCost, instances, a, arrival)
    requires 1 <= k < a.numReplicas && server.minNumReplicas <= k
    requires 0.0 < x <= s.LambdaMax()
    requires TotalRate(load, target) <= Carries(k, Mul(Throughput(s.Rates(), x, s.K()), 1000.0))
    ensures arrival < x
    ensures arrival + Resolution(s) < x ==> OutOfReach(s, target, x)
  {
    hide Mul, Div, Setup.Rates, Honoured, Setup.LambdaMax, Setup.ITL, Setup.TTFT, Throughput, ValidRates, OutOfReach, Setup.Timed, Setup.TimeOf,
         LargestInFigures, CountInFigures;
    var r, K := s.Rates(), s.K();
    var star := a.maxArrvRatePerReplica * 1000.0;
    assert Carries(k, star) < TotalRate(load, target);
    RatesSpeedUp(s);
    RatesValid(s);
    if x <= arrival {
      ThroughputMonotone(r, x, arrival, K);
      MulMono(1000.0, Throughput(r, x, K), Throughput(r, arrival, K));
      MulComm(1000.0, Throughput(r, x, K));
      MulComm(1000.0, Throughput(r, arrival, K));
      MulMono(k as real, Mul(Throughput(r, x, K), 1000.0), star);
    }
  }

  /** What the replicas deliver falls short of the rate they were sized for by exactly the share of
      requests that find a full queue, which is never zero.  A throughput target is therefore missed,
      by that share. */
  lemma DeliveredShort(s: Setup, server: ServerLimits, load: Load, target: TargetPerf,
                       unitCost: real, instances: int, a: Allocation, arrival: real)
    requires s.WellPosed() && ValidRates(s.Rates()) && 0.0 < arrival && 1 <= load.avgOutTokens
    requires Guaranteed(s, server, load, target, unitCost, instances, a, arrival)
    ensures var total, n := TotalRate(load, target), a.numReplicas as real;
            var perReplica := Div(total, n) / 1000.0;
            var blocked := Distribution(s.Rates(), perReplica, s.K())[s.K()];
            var delivered := Mul(n, Mul(Throughput(s.Rates(), perReplica, s.K()), 1000.0));
            && 0.0 < blocked < 1.0
            && delivered == Mul(total, 1.0 - blocked)
            && 0.0 < delivered < total
            && (0.0 < target.tps ==>
                  && Mul(delivered, load.avgOutTokens as real) == Mul(target.tps, 1.0 - blocked)
                  && Mul(delivered, load.avgOutTokens as real) < target.tps)
  {
    hide Mul, Div, Setup.Rates, Honoured, Setup.LambdaMax, Setup.ITL, Setup.TTFT, LargestRate, LeastReplicas,
         Setup.Timed, Setup.TimeOf, Distribution, LargestInFigures, CountInFigures;
    RatesValid(s);
    var total, n, K := TotalRate(load, target), a.numReplicas as real, s.K();
    var perReplica := Div(total, n) / 1000.0;
    var p := Distribution(s.Rates(), perReplica, K);
    Stationary(s.Rates(), perReplica, K);
    LastIsPartial(p, K);
    ShareDelivered(total, n, perReplica, p[K]);
    if 0.0 < target.tps {
      TokensDelivered(target.tps, load.avgOutTokens as real, total, 1.0 - p[K]);
    }
  }

  lemma LastIsPartial(p: seq<real>, K: nat)
    requires |p| == K + 1 && 1 <= K && AllPositive(p) && Sum(p, K + 1) == 1.0
    ensures 0.0 < p[K] < 1.0
  {
    SumPositive(p, K);
    assert Sum(p, K + 1) == Sum(p, K) + p[K];
  }

  lemma ShareDelivered(total: real, n: real, perReplica: real, blocked: real)
    requires 0.0 < n && 0.0 < perReplica && perReplica == Div(total, n) / 1000.0 && 0.0 < blocked < 1.0
    ensures Mul(n, Mul(Mul(perReplica, 1.0 - blocked), 1000.0)) == Mul(total, 1.0 - blocked)
    ensures 0.0 < Mul(total, 1.0 - blocked) < total
  {
    DivCancels(total, n);
    var q, x := Div(total, n), 1.0 - blocked;
    assert q * n == total;
    MulSign(q, n);
    assert (perReplica * x) * 1000.0 == q * x;
    assert n * (q * x) == (q * n) * x;
    MulMono(total, x, 1.0);
    MulSign(total, x);
  }

  lemma TokensDelivered(tps: real, tokens: real, total: real, share: real)
    requires 0.0 < tps && 1.0 <= tokens && total == Div(tps, tokens) && 0.0 < share < 1.0
    ensures Mul(Mul(total, share), tokens) == Mul(tps, share)
    ensures Mul(tps, share) < tps
  {
    DivCancels(tps, tokens);
    assert total * tokens == tps;
    assert (total * share) * tokens == (total * tokens) * share;
    MulMono(tps, share, 1.0);
  }

  /** Saturation in figures: requests per minute against a rate per msec and replica. */
  lemma SaturatedInFigures(a: Allocation, totalRate: real)
    ensures a.Saturated(totalRate) <==> 60000.0 * a.maxArrvRatePerReplica * a.numReplicas as real < totalRate
  {
  }

  lemma ScaleBy60(n: real, star: real)
    ensures Mul(n, star * 60.0) == Mul(n, star) * 60.0
  {
  }

  lemma PerMinute(arrivals: real, tokens: real, tps: real)
    requires 1.0 <= tokens && Mul(arrivals, tokens) <= tps * 60.0
    ensures arrivals <= Div(tps, tokens) * 60.0
  {
    hide Mul, Div;
    DivCancels(tps, tokens);
    var x := Div(tps, tokens) * 60.0;
    ScaleBy60(tokens, Div(tps, tokens));
    MulComm(tokens, x);
    MulComm(tokens, Div(tps, tokens));
    CancelFactor(arrivals, x, tokens);
  }
}
