/** Capacity analysis of one model across its variants: saturation, spare capacity, the scale-up
    trigger and the simulated scale-down.  The grouped computation is proved to equal the flat one,
    and the two recommendations are proved to exclude each other and not to flap. */
module CapacityAnalysis {
  import opened Basics
  import opened RealArithmetic
  import opened Sums

  const MIN_NON_SATURATED_FOR_SCALE_DOWN: int := 2

  datatype ReplicaMetrics = ReplicaMetrics(
    pod: Name, kvCacheUsage: real, queueLength: int, variant: Name, accelerator: Name, cost: real)

  datatype ScalingConfig = ScalingConfig(
    kvCacheThreshold: real, queueLengthThreshold: real, kvSpareTrigger: real, queueSpareTrigger: real)

  datatype VariantAnalysis = VariantAnalysis(
    variant: Name, accelerator: Name, cost: real, replicaCount: nat, nonSaturatedCount: nat,
    maxKvCacheUsage: real, maxQueueLength: int, avgSpareKv: real, avgSpareQueue: real, saturated: seq<Name>)

  datatype ModelAnalysis = ModelAnalysis(
    totalReplicas: nat, nonSaturatedCount: nat, avgSpareKv: real, avgSpareQueue: real,
    shouldScaleUp: bool, shouldScaleDown: bool, scaleDownSafe: bool, variants: seq<VariantAnalysis>)

  predicate Saturated(m: ReplicaMetrics, cfg: ScalingConfig) {
    m.kvCacheUsage >= cfg.kvCacheThreshold || m.queueLength as real >= cfg.queueLengthThreshold
  }

  // ---- The flat view: load of the non-saturated replicas ----

  /** Number of non-saturated replicas and their total load. */
  datatype Load = Load(count: nat, kv: real, queue: int) {
    function Plus(other: Load): Load {
      Load(count + other.count, kv + other.kv, queue + other.queue)
    }
  }

  function LoadOf(m: ReplicaMetrics, cfg: ScalingConfig): Load {
    if Saturated(m, cfg) then Load(0, 0.0, 0) else Load(1, m.kvCacheUsage, m.queueLength)
  }

  function TotalLoad(ms: seq<ReplicaMetrics>, cfg: ScalingConfig): Load {
    if ms == [] then Load(0, 0.0, 0)
    else TotalLoad(ms[..|ms| - 1], cfg).Plus(LoadOf(ms[|ms| - 1], cfg))
  }

  /** Spare capacity summed over the non-saturated replicas. */
  function SpareKv(l: Load, cfg: ScalingConfig): real {
    Mul(l.count as real, cfg.kvCacheThreshold) - l.kv
  }

  function SpareQueue(l: Load, cfg: ScalingConfig): real {
    Mul(l.count as real, cfg.queueLengthThreshold) - l.queue as real
  }

  /** Average over the non-saturated replicas, zero without any. */
  function Average(total: real, count: nat): real {
    if count == 0 then 0.0 else Div(total, count as real)
  }

  predicate ShouldScaleUp(avgSpareKv: real, avgSpareQueue: real, cfg: ScalingConfig) {
    avgSpareKv < cfg.kvSpareTrigger || avgSpareQueue < cfg.queueSpareTrigger
  }

  /** Scale-up is triggered by the flat averages of the load. */
  predicate Pressed(l: Load, cfg: ScalingConfig) {
    ShouldScaleUp(Average(SpareKv(l, cfg), l.count), Average(SpareQueue(l, cfg), l.count), cfg)
  }

  /** The same load on one replica less still leaves the spare capacity above both triggers. */
  predicate RemovalSafe(l: Load, cfg: ScalingConfig) {
    && l.count >= MIN_NON_SATURATED_FOR_SCALE_DOWN
    && cfg.kvCacheThreshold - Div(l.kv, (l.count - 1) as real) >= cfg.kvSpareTrigger
    && cfg.queueLengthThreshold - Div(l.queue as real, (l.count - 1) as real) >= cfg.queueSpareTrigger
  }

  // ---- Grouping by variant ----

  /** The replicas of the given variants, in order. */
  function Of(ms: seq<ReplicaMetrics>, names: set<Name>): seq<ReplicaMetrics> {
    if ms == [] then []
    else
      var init, last := Of(ms[..|ms| - 1], names), ms[|ms| - 1];
      if last.variant in names then init + [last] else init
  }

  function VariantsOf(ms: seq<ReplicaMetrics>): set<Name> {
    set i | 0 <= i < |ms| :: ms[i].variant
  }

  lemma {:induction false} OfEverything(ms: seq<ReplicaMetrics>, names: set<Name>)
    requires VariantsOf(ms) <= names
    ensures Of(ms, names) == ms
  {
    if ms != [] {
      var init := ms[..|ms| - 1];
      assert ms[|ms| - 1].variant in VariantsOf(ms);
      assert forall i :: 0 <= i < |init| ==> init[i] == ms[i] && ms[i].variant in VariantsOf(ms);
      OfEverything(init, names);
      assert init + [ms[|ms| - 1]] == ms;
    }
  }

  lemma TotalLoadAppend(ms: seq<ReplicaMetrics>, m: ReplicaMetrics, cfg: ScalingConfig)
    ensures TotalLoad(ms + [m], cfg) == TotalLoad(ms, cfg).Plus(LoadOf(m, cfg))
  {
    assert (ms + [m])[..|ms|] == ms;
  }

  /** Regrouping: the load of some variants plus that of one more is the load of them together. */
  lemma {:induction false} LoadRegroups(ms: seq<ReplicaMetrics>, names: set<Name>, v: Name, cfg: ScalingConfig)
    requires v !in names
    ensures TotalLoad(Of(ms, names + {v}), cfg) == TotalLoad(Of(ms, names), cfg).Plus(TotalLoad(Of(ms, {v}), cfg))
    ensures |Of(ms, names + {v})| == |Of(ms, names)| + |Of(ms, {v})|
  {
    hide LoadOf, TotalLoad;
    if ms == [] {
      NoLoad(cfg);
    } else {
      var init, last := ms[..|ms| - 1], ms[|ms| - 1];
      LoadRegroups(init, names, v, cfg);
      var all, some, one := Of(init, names + {v}), Of(init, names), Of(init, {v});
      if last.variant == v {
        assert Of(ms, names + {v}) == all + [last] && Of(ms, names) == some && Of(ms, {v}) == one + [last];
        TotalLoadAppend(all, last, cfg);
        TotalLoadAppend(one, last, cfg);
      } else if last.variant in names {
        assert Of(ms, names + {v}) == all + [last] && Of(ms, names) == some + [last] && Of(ms, {v}) == one;
        TotalLoadAppend(all, last, cfg);
        TotalLoadAppend(some, last, cfg);
      } else {
        assert Of(ms, names + {v}) == all && Of(ms, names) == some && Of(ms, {v}) == one;
      }
    }
  }

  lemma NoLoad(cfg: ScalingConfig)
    ensures TotalLoad([], cfg) == Load(0, 0.0, 0)
  {
  }

  lemma {:induction false} OfMember(ms: seq<ReplicaMetrics>, v: Name)
    ensures v in VariantsOf(ms) <==> |Of(ms, {v})| > 0
    ensures forall i :: 0 <= i < |Of(ms, {v})| ==> Of(ms, {v})[i].variant == v
  {
    if ms != [] {
      var init := ms[..|ms| - 1];
      OfMember(init, v);
      assert forall i :: 0 <= i < |init| ==> init[i] == ms[i];
      assert ms[|ms| - 1].variant in VariantsOf(ms);
      if v in VariantsOf(ms) && v != ms[|ms| - 1].variant {
        var i :| 0 <= i < |ms| && ms[i].variant == v;
        assert init[i].variant == v;
      }
    }
  }

  // ---- One variant ----

  function MaxKv(ms: seq<ReplicaMetrics>): real {
    if ms == [] then 0.0
    else
      var rest, x := MaxKv(ms[..|ms| - 1]), ms[|ms| - 1].kvCacheUsage;
      if x > rest then x else rest
  }

  function MaxQueue(ms: seq<ReplicaMetrics>): int {
    if ms == [] then 0
    else
      var rest, x := MaxQueue(ms[..|ms| - 1]), ms[|ms| - 1].queueLength;
      if x > rest then x else rest
  }

  function SaturatedPods(ms: seq<ReplicaMetrics>, cfg: ScalingConfig): seq<Name> {
    if ms == [] then []
    else
      var init, last := SaturatedPods(ms[..|ms| - 1], cfg), ms[|ms| - 1];
      if Saturated(last, cfg) then init + [last.pod] else init
  }

  /** Every replica is either saturated, and listed by its pod, or counted in the load. */
  lemma {:induction false} SaturatedOrCounted(ms: seq<ReplicaMetrics>, cfg: ScalingConfig)
    ensures |SaturatedPods(ms, cfg)| + TotalLoad(ms, cfg).count == |ms|
  {
    if ms != [] {
      SaturatedOrCounted(ms[..|ms| - 1], cfg);
    }
  }

  /** The analysis of a variant says what its replicas say. */
  ghost predicate Describes(va: VariantAnalysis, v: Name, ms: seq<ReplicaMetrics>, cfg: ScalingConfig) {
    var l := TotalLoad(ms, cfg);
    && va.variant == v
    && va.replicaCount == |ms|
    && (ms != [] ==> va.accelerator == ms[0].accelerator && va.cost == ms[0].cost)
    && va.nonSaturatedCount == l.count
    && va.avgSpareKv == Average(SpareKv(l, cfg), l.count)
    && va.avgSpareQueue == Average(SpareQueue(l, cfg), l.count)
    && va.maxKvCacheUsage == MaxKv(ms) && va.maxQueueLength == MaxQueue(ms)
    && va.saturated == SaturatedPods(ms, cfg)
  }

  lemma SpareStep(l: Load, m: ReplicaMetrics, cfg: ScalingConfig)
    requires !Saturated(m, cfg)
    ensures SpareKv(l.Plus(LoadOf(m, cfg)), cfg) == SpareKv(l, cfg) + (cfg.kvCacheThreshold - m.kvCacheUsage)
    ensures SpareQueue(l.Plus(LoadOf(m, cfg)), cfg) == SpareQueue(l, cfg) + (cfg.queueLengthThreshold - m.queueLength as real)
  {
    hide Mul;
    var n, n' := l.count as real, (l.count + 1) as real;
    MulAdd(cfg.kvCacheThreshold, n, 1.0, n');
    MulAdd(cfg.queueLengthThreshold, n, 1.0, n');
    MulUnit(cfg.kvCacheThreshold);
    MulUnit(cfg.queueLengthThreshold);
    MulComm(1.0, cfg.kvCacheThreshold);
    MulComm(1.0, cfg.queueLengthThreshold);
  }

  lemma NoSpare(cfg: ScalingConfig)
    ensures SpareKv(Load(0, 0.0, 0), cfg) == 0.0 && SpareQueue(Load(0, 0.0, 0), cfg) == 0.0
  {
  }

  /** What one more replica changes. */
  lemma PrefixStep(ms: seq<ReplicaMetrics>, i: nat, cfg: ScalingConfig)
    requires i < |ms|
    ensures TotalLoad(ms[..i + 1], cfg) == TotalLoad(ms[..i], cfg).Plus(LoadOf(ms[i], cfg))
    ensures Saturated(ms[i], cfg) ==> TotalLoad(ms[..i + 1], cfg) == TotalLoad(ms[..i], cfg)
    ensures !Saturated(ms[i], cfg) ==> TotalLoad(ms[..i + 1], cfg).count == TotalLoad(ms[..i], cfg).count + 1
    ensures MaxKv(ms[..i + 1]) == if ms[i].kvCacheUsage > MaxKv(ms[..i]) then ms[i].kvCacheUsage else MaxKv(ms[..i])
    ensures MaxQueue(ms[..i + 1]) == if ms[i].queueLength > MaxQueue(ms[..i]) then ms[i].queueLength else MaxQueue(ms[..i])
    ensures SaturatedPods(ms[..i + 1], cfg)
         == if Saturated(ms[i], cfg) then SaturatedPods(ms[..i], cfg) + [ms[i].pod] else SaturatedPods(ms[..i], cfg)
  {
    hide Saturated;
    assert ms[..i + 1][..i] == ms[..i] && ms[..i + 1][i] == ms[i];
  }

  lemma EmptyPrefix(ms: seq<ReplicaMetrics>, cfg: ScalingConfig)
    ensures ms[..0] == [] && ms[..|ms|] == ms
    ensures TotalLoad([], cfg) == Load(0, 0.0, 0) && MaxKv([]) == 0.0 && MaxQueue([]) == 0 && SaturatedPods([], cfg) == []
  {
  }

  method AnalyzeVariant(v: Name, ms: seq<ReplicaMetrics>, cfg: ScalingConfig) returns (va: VariantAnalysis)
    ensures Describes(va, v, ms, cfg)
  {
    hide Mul, Div, Saturated, TotalLoad, MaxKv, MaxQueue, SaturatedPods, SpareKv, SpareQueue, LoadOf;
    var accelerator, cost := 0, 0.0;
    if |ms| > 0 {
      accelerator, cost := ms[0].accelerator, ms[0].cost;
    }
    var totalSpareKv, totalSpareQueue, nonSaturatedCount := 0.0, 0.0, 0;
    var maxKv, maxQueue := 0.0, 0;
    var saturated := [];
    NoSpare(cfg);
    EmptyPrefix(ms, cfg);
    for i := 0 to |ms|
      invariant nonSaturatedCount == TotalLoad(ms[..i], cfg).count
      invariant totalSpareKv == SpareKv(TotalLoad(ms[..i], cfg), cfg)
      invariant totalSpareQueue == SpareQueue(TotalLoad(ms[..i], cfg), cfg)
      invariant maxKv == MaxKv(ms[..i]) && maxQueue == MaxQueue(ms[..i])
      invariant saturated == SaturatedPods(ms[..i], cfg)
    {
      var m := ms[i];
      PrefixStep(ms, i, cfg);
      if Saturated(m, cfg) {
        saturated := saturated + [m.pod];
      } else {
        SpareStep(TotalLoad(ms[..i], cfg), m, cfg);
        totalSpareKv := totalSpareKv + (cfg.kvCacheThreshold - m.kvCacheUsage);
        totalSpareQueue := totalSpareQueue + (cfg.queueLengthThreshold - m.queueLength as real);
        nonSaturatedCount := nonSaturatedCount + 1;
      }
      if m.kvCacheUsage > maxKv {
        maxKv := m.kvCacheUsage;
      }
      if m.queueLength > maxQueue {
        maxQueue := m.queueLength;
      }
    }
    var avgSpareKv, avgSpareQueue := 0.0, 0.0;
    if nonSaturatedCount > 0 {
      avgSpareKv := Div(totalSpareKv, nonSaturatedCount as real);
      avgSpareQueue := Div(totalSpareQueue, nonSaturatedCount as real);
    }
    va := VariantAnalysis(v, accelerator, cost, |ms|, nonSaturatedCount, maxKv, maxQueue, avgSpareKv, avgSpareQueue, saturated);
  }

  // ---- The simulated removal ----

  /** Redistributes the load of the non-saturated replicas over one replica less. */
  method IsScaleDownSafe(ms: seq<ReplicaMetrics>, cfg: ScalingConfig) returns (shouldScaleDown: bool, isSafe: bool)
    ensures !shouldScaleDown
    ensures isSafe <==> RemovalSafe(TotalLoad(ms, cfg), cfg)
  {
    hide Div, Saturated;
    var nonSaturated: seq<ReplicaMetrics> := [];
    for i := 0 to |ms|
      invariant nonSaturated == Unsaturated(ms[..i], cfg)
    {
      assert ms[..i + 1][..i] == ms[..i];
      if !Saturated(ms[i], cfg) {
        nonSaturated := nonSaturated + [ms[i]];
      }
    }
    assert ms[..|ms|] == ms;
    UnsaturatedLoad(ms, cfg);
    var count := |nonSaturated|;
    if count < MIN_NON_SATURATED_FOR_SCALE_DOWN {
      return false, false;
    }
    var totalKv, totalQueue := 0.0, 0;
    for i := 0 to |nonSaturated|
      invariant totalKv == SumKv(nonSaturated[..i]) && totalQueue == SumQueue(nonSaturated[..i])
    {
      assert nonSaturated[..i + 1][..i] == nonSaturated[..i];
      totalKv := totalKv + nonSaturated[i].kvCacheUsage;
      totalQueue := totalQueue + nonSaturated[i].queueLength;
    }
    assert nonSaturated[..|nonSaturated|] == nonSaturated;
    var remaining := count - 1;
    var spareKv := cfg.kvCacheThreshold - Div(totalKv, remaining as real);
    var spareQueue := cfg.queueLengthThreshold - Div(totalQueue as real, remaining as real);
    return false, spareKv >= cfg.kvSpareTrigger && spareQueue >= cfg.queueSpareTrigger;
  }

  function Unsaturated(ms: seq<ReplicaMetrics>, cfg: ScalingConfig): seq<ReplicaMetrics> {
    if ms == [] then []
    else
      var init, last := Unsaturated(ms[..|ms| - 1], cfg), ms[|ms| - 1];
      if Saturated(last, cfg) then init else init + [last]
  }

  function SumKv(ms: seq<ReplicaMetrics>): real {
    if ms == [] then 0.0 else SumKv(ms[..|ms| - 1]) + ms[|ms| - 1].kvCacheUsage
  }

  function SumQueue(ms: seq<ReplicaMetrics>): int {
    if ms == [] then 0 else SumQueue(ms[..|ms| - 1]) + ms[|ms| - 1].queueLength
  }

  lemma {:induction false} UnsaturatedLoad(ms: seq<ReplicaMetrics>, cfg: ScalingConfig)
    ensures var us, l := Unsaturated(ms, cfg), TotalLoad(ms, cfg);
            |us| == l.count && SumKv(us) == l.kv && SumQueue(us) == l.queue
  {
    hide Saturated;
    if ms != [] {
      var init := ms[..|ms| - 1];
      UnsaturatedLoad(init, cfg);
      assert (Unsaturated(init, cfg) + [ms[|ms| - 1]])[..|Unsaturated(init, cfg)|] == Unsaturated(init, cfg);
    }
  }

  // ---- The whole model ----

  ghost predicate DistinctVariants(vas: seq<VariantAnalysis>) {
    forall i, j :: 0 <= i < j < |vas| ==> vas[i].variant != vas[j].variant
  }

  /** The analysis of a model: one description per variant, and recommendations from the flat load. */
  ghost predicate ModelDescribed(a: ModelAnalysis, ms: seq<ReplicaMetrics>, cfg: ScalingConfig) {
    var l := TotalLoad(ms, cfg);
    && a.totalReplicas == |ms|
    && a.nonSaturatedCount == l.count
    && a.avgSpareKv == Average(SpareKv(l, cfg), l.count)
    && a.avgSpareQueue == Average(SpareQueue(l, cfg), l.count)
    && a.shouldScaleUp == (ms != [] && Pressed(l, cfg))
    && !a.shouldScaleDown
    && a.scaleDownSafe == RemovalSafe(l, cfg)
    && Covered(a.variants, VariantsOf(ms), ms, cfg)
  }

  /** Exactly one description for each of the named variants. */
  ghost predicate Covered(vas: seq<VariantAnalysis>, names: set<Name>, ms: seq<ReplicaMetrics>, cfg: ScalingConfig) {
    && DistinctVariants(vas)
    && (forall v :: v in names ==> exists i :: 0 <= i < |vas| && vas[i].variant == v)
    && (forall i :: 0 <= i < |vas| ==>
          vas[i].variant in names && Describes(vas[i], vas[i].variant, Of(ms, {vas[i].variant}), cfg))
  }

  /** Average times count is the total again. */
  lemma AverageTimesCount(total: real, count: nat)
    requires count == 0 ==> total == 0.0
    ensures Mul(Average(total, count), count as real) == total
  {
    hide Mul, Div;
    if count == 0 {
      MulUnit(0.0);
    } else {
      DivCancels(total, count as real);
    }
  }

  lemma {:induction false} EmptyLoad(ms: seq<ReplicaMetrics>, cfg: ScalingConfig)
    ensures TotalLoad(ms, cfg).count == 0 ==> TotalLoad(ms, cfg) == Load(0, 0.0, 0)
  {
    hide TotalLoad, LoadOf;
    if ms == [] {
      NoLoad(cfg);
    } else {
      var init, last := ms[..|ms| - 1], ms[|ms| - 1];
      EmptyLoad(init, cfg);
      assert ms == init + [last];
      TotalLoadAppend(init, last, cfg);
      NotCounted(last, cfg);
    }
  }

  lemma NotCounted(m: ReplicaMetrics, cfg: ScalingConfig)
    ensures LoadOf(m, cfg).count == 0 ==> LoadOf(m, cfg) == Load(0, 0.0, 0)
  {
  }

  lemma SparePlus(a: Load, b: Load, cfg: ScalingConfig)
    ensures SpareKv(a.Plus(b), cfg) == SpareKv(a, cfg) + SpareKv(b, cfg)
    ensures SpareQueue(a.Plus(b), cfg) == SpareQueue(a, cfg) + SpareQueue(b, cfg)
  {
    hide Mul;
    MulAdd(cfg.kvCacheThreshold, a.count as real, b.count as real, (a.count + b.count) as real);
    MulAdd(cfg.queueLengthThreshold, a.count as real, b.count as real, (a.count + b.count) as real);
  }

  /** Adding one variant's averages, weighed by its count, adds its load. */
  lemma VariantAdds(ms: seq<ReplicaMetrics>, done: set<Name>, v: Name, va: VariantAnalysis, cfg: ScalingConfig)
    requires v !in done && Describes(va, v, Of(ms, {v}), cfg)
    ensures var l, l' := TotalLoad(Of(ms, done), cfg), TotalLoad(Of(ms, done + {v}), cfg);
            && l'.count == l.count + va.nonSaturatedCount
            && SpareKv(l', cfg) == SpareKv(l, cfg) + Mul(va.avgSpareKv, va.nonSaturatedCount as real)
            && SpareQueue(l', cfg) == SpareQueue(l, cfg) + Mul(va.avgSpareQueue, va.nonSaturatedCount as real)
  {
    hide Mul, Div, Saturated, SpareKv, SpareQueue, Average;
    LoadRegroups(ms, done, v, cfg);
    var l, x := TotalLoad(Of(ms, done), cfg), TotalLoad(Of(ms, {v}), cfg);
    SparePlus(l, x, cfg);
    EmptyLoad(Of(ms, {v}), cfg);
    NoSpare(cfg);
    AverageTimesCount(SpareKv(x, cfg), x.count);
    AverageTimesCount(SpareQueue(x, cfg), x.count);
  }

  method AnalyzeModelCapacity(ms: seq<ReplicaMetrics>, cfg: ScalingConfig) returns (a: ModelAnalysis)
    ensures ModelDescribed(a, ms, cfg)
  {
    hide Mul, Div, Saturated, SpareKv, SpareQueue, Describes, Covered, TotalLoad, Of, VariantsOf;
    NoSpare(cfg);
    NoLoad(cfg);
    NoneCovered(ms, cfg);
    NoVariants();
    if |ms| == 0 {
      return ModelAnalysis(0, 0, 0.0, 0.0, false, false, false, []);
    }
    var variantMap := GroupByVariant(ms);
    var totalSpareKv, totalSpareQueue, nonSaturatedCount := 0.0, 0.0, 0;
    var variants: seq<VariantAnalysis> := [];
    var todo := variantMap.Keys;
    ghost var done: set<Name> := {};
    OfNothing(ms);
    while todo != {}
      invariant todo <= variantMap.Keys && done == variantMap.Keys - todo
      invariant nonSaturatedCount == TotalLoad(Of(ms, done), cfg).count
      invariant totalSpareKv == SpareKv(TotalLoad(Of(ms, done), cfg), cfg)
      invariant totalSpareQueue == SpareQueue(TotalLoad(Of(ms, done), cfg), cfg)
      invariant Covered(variants, done, ms, cfg)
      decreases |todo|
    {
      var v :| v in todo;
      todo := todo - {v};
      var va := AnalyzeVariant(v, variantMap[v], cfg);
      VariantAdds(ms, done, v, va, cfg);
      VariantJoins(variants, va, done, v, ms, cfg);
      variants := variants + [va];
      nonSaturatedCount := nonSaturatedCount + va.nonSaturatedCount;
      totalSpareKv := totalSpareKv + Mul(va.avgSpareKv, va.nonSaturatedCount as real);
      totalSpareQueue := totalSpareQueue + Mul(va.avgSpareQueue, va.nonSaturatedCount as real);
      done := done + {v};
    }
    assert done == VariantsOf(ms);
    OfEverything(ms, done);
    var avgSpareKv, avgSpareQueue := 0.0, 0.0;
    if nonSaturatedCount > 0 {
      avgSpareKv := Div(totalSpareKv, nonSaturatedCount as real);
      avgSpareQueue := Div(totalSpareQueue, nonSaturatedCount as real);
    }
    var up := ShouldScaleUp(avgSpareKv, avgSpareQueue, cfg);
    var down, safe := IsScaleDownSafe(ms, cfg);
    a := ModelAnalysis(|ms|, nonSaturatedCount, avgSpareKv, avgSpareQueue, up, down, safe, variants);
  }

  lemma NoVariants()
    ensures VariantsOf([]) == {}
  {
  }

  lemma OfNothing(ms: seq<ReplicaMetrics>)
    ensures Of(ms, {}) == []
  {
  }

  lemma VariantJoins(vas: seq<VariantAnalysis>, va: VariantAnalysis, done: set<Name>, v: Name,
                     ms: seq<ReplicaMetrics>, cfg: ScalingConfig)
    requires Covered(vas, done, ms, cfg) && v !in done
    requires Describes(va, v, Of(ms, {v}), cfg)
    ensures Covered(vas + [va], done + {v}, ms, cfg)
  {
    hide Of, TotalLoad, MaxKv, MaxQueue, SaturatedPods, Mul, Div;
    var all := vas + [va];
    forall x | x in done + {v} ensures exists i :: 0 <= i < |all| && all[i].variant == x {
      if x == v {
        assert all[|vas|].variant == x;
      } else {
        var i :| 0 <= i < |vas| && vas[i].variant == x;
        assert all[i].variant == x;
      }
    }
  }

  lemma NoneCovered(ms: seq<ReplicaMetrics>, cfg: ScalingConfig)
    ensures Covered([], {}, ms, cfg)
  {
  }

  /** Metrics of each variant, in their original order. */
  method GroupByVariant(ms: seq<ReplicaMetrics>) returns (groups: map<Name, seq<ReplicaMetrics>>)
    ensures groups.Keys == VariantsOf(ms)
    ensures forall v :: v in groups ==> groups[v] == Of(ms, {v})
  {
    groups := map[];
    for i := 0 to |ms|
      invariant groups.Keys == VariantsOf(ms[..i])
      invariant forall v :: v in groups ==> groups[v] == Of(ms[..i], {v})
    {
      var m := ms[i];
      assert ms[..i + 1][..i] == ms[..i];
      OfMember(ms[..i], m.variant);
      var before := if m.variant in groups then groups[m.variant] else [];
      groups := groups[m.variant := before + [m]];
      VariantsGrow(ms, i);
    }
    assert ms[..|ms|] == ms;
  }

  lemma VariantsGrow(ms: seq<ReplicaMetrics>, i: nat)
    requires i < |ms|
    ensures VariantsOf(ms[..i + 1]) == VariantsOf(ms[..i]) + {ms[i].variant}
  {
    var a, b := ms[..i], ms[..i + 1];
    forall v | v in VariantsOf(b) ensures v in VariantsOf(a) + {ms[i].variant} {
      var j :| 0 <= j < |b| && b[j].variant == v;
      assert j < i ==> a[j].variant == v;
    }
    forall v | v in VariantsOf(a) ensures v in VariantsOf(b) {
      var j :| 0 <= j < |a| && a[j].variant == v;
      assert b[j].variant == v;
    }
    assert b[i].variant in VariantsOf(b);
  }

  // ---- Safety of the recommendations ----

  ghost predicate NonNegativeLoads(ms: seq<ReplicaMetrics>) {
    forall i :: 0 <= i < |ms| ==> 0.0 <= ms[i].kvCacheUsage && 0 <= ms[i].queueLength
  }

  lemma {:induction false} LoadNonNegative(ms: seq<ReplicaMetrics>, cfg: ScalingConfig)
    requires NonNegativeLoads(ms)
    ensures 0.0 <= TotalLoad(ms, cfg).kv && 0 <= TotalLoad(ms, cfg).queue
  {
    if ms != [] {
      LoadNonNegative(ms[..|ms| - 1], cfg);
    }
  }

  /** Average spare capacity is the threshold minus the average load. */
  lemma AverageSpare(l: Load, cfg: ScalingConfig)
    requires l.count > 0
    ensures Average(SpareKv(l, cfg), l.count) == cfg.kvCacheThreshold - Div(l.kv, l.count as real)
    ensures Average(SpareQueue(l, cfg), l.count) == cfg.queueLengthThreshold - Div(l.queue as real, l.count as real)
  {
    hide Mul, Div;
    ThresholdMinus(cfg.kvCacheThreshold, l.kv, l.count as real);
    ThresholdMinus(cfg.queueLengthThreshold, l.queue as real, l.count as real);
  }

  lemma ThresholdMinus(t: real, x: real, n: real)
    requires n > 0.0
    ensures Div(Mul(n, t) - x, n) == t - Div(x, n)
  {
    hide Mul, Div;
    DivDifference(Mul(n, t), x, n);
    DivCancelsLeft(n, t, 0.0);
    MulUnit(n);
  }

  lemma FewerShares(x: real, n: real)
    requires 0.0 <= x && n > 1.0
    ensures Div(x, n) <= Div(x, n - 1.0)
  {
    hide Mul, Div;
    MulMono(x, n - 1.0, n);
    CrossOrdered(x, n, x, n - 1.0);
  }

  /** A safe removal rules out scale-up: the two recommendations are never given together. */
  lemma SafeExcludesScaleUp(ms: seq<ReplicaMetrics>, cfg: ScalingConfig)
    requires NonNegativeLoads(ms)
    requires RemovalSafe(TotalLoad(ms, cfg), cfg)
    ensures !Pressed(TotalLoad(ms, cfg), cfg)
  {
    hide Mul, Div, Average, SpareKv, SpareQueue, TotalLoad;
    var l := TotalLoad(ms, cfg);
    LoadNonNegative(ms, cfg);
    AverageSpare(l, cfg);
    FewerShares(l.kv, l.count as real);
    FewerShares(l.queue as real, l.count as real);
  }

  /** No flapping: however the same load is spread over one non-saturated replica less, scale-up is
      triggered exactly when the simulation had called the removal unsafe. */
  lemma RemovalDoesNotFlap(ms: seq<ReplicaMetrics>, ms': seq<ReplicaMetrics>, cfg: ScalingConfig)
    requires var l, l' := TotalLoad(ms, cfg), TotalLoad(ms', cfg);
             l.count >= 2 && l'.count == l.count - 1 && l'.kv == l.kv && l'.queue == l.queue
    ensures Pressed(TotalLoad(ms', cfg), cfg) <==> !RemovalSafe(TotalLoad(ms, cfg), cfg)
  {
    hide Mul, Div, Average, SpareKv, SpareQueue, TotalLoad;
    AverageSpare(TotalLoad(ms', cfg), cfg);
  }

  // ---- The analysis in figures: replicas and thresholds only ----

  /** Every index of `idx` is in range and they are in order. */
  ghost predicate Increasing(idx: seq<nat>, n: nat) {
    && (forall k :: 0 <= k < |idx| ==> idx[k] < n)
    && (forall j, k :: 0 <= j < k < |idx| ==> idx[j] < idx[k])
  }

  /** `idx` lists the replicas strictly below both thresholds. */
  ghost predicate ListsBelow(idx: seq<nat>, ms: seq<ReplicaMetrics>, cfg: ScalingConfig) {
    && Increasing(idx, |ms|)
    && forall i :: 0 <= i < |ms| ==>
         (i in idx <==> ms[i].kvCacheUsage < cfg.kvCacheThreshold && ms[i].queueLength as real < cfg.queueLengthThreshold)
  }

  /** `idx` lists the replicas that reach a threshold. */
  ghost predicate ListsReaching(idx: seq<nat>, ms: seq<ReplicaMetrics>, cfg: ScalingConfig) {
    && Increasing(idx, |ms|)
    && forall i :: 0 <= i < |ms| ==>
         (i in idx <==> ms[i].kvCacheUsage >= cfg.kvCacheThreshold || ms[i].queueLength as real >= cfg.queueLengthThreshold)
  }

  ghost function KvAt(ms: seq<ReplicaMetrics>, idx: seq<nat>): (s: seq<real>)
    requires Increasing(idx, |ms|)
    ensures |s| == |idx| && forall k :: 0 <= k < |idx| ==> s[k] == ms[idx[k]].kvCacheUsage
  {
    seq(|idx|, k requires 0 <= k < |idx| => ms[idx[k]].kvCacheUsage)
  }

  ghost function QueueAt(ms: seq<ReplicaMetrics>, idx: seq<nat>): (s: seq<real>)
    requires Increasing(idx, |ms|)
    ensures |s| == |idx| && forall k :: 0 <= k < |idx| ==> s[k] == ms[idx[k]].queueLength as real
  {
    seq(|idx|, k requires 0 <= k < |idx| => ms[idx[k]].queueLength as real)
  }

  ghost function PodsAt(ms: seq<ReplicaMetrics>, idx: seq<nat>): (s: seq<Name>)
    requires Increasing(idx, |ms|)
    ensures |s| == |idx| && forall k :: 0 <= k < |idx| ==> s[k] == ms[idx[k]].pod
  {
    seq(|idx|, k requires 0 <= k < |idx| => ms[idx[k]].pod)
  }

  /** An ordered list of indices either ends with the last one or does without it. */
  lemma IndexStep(idx: seq<nat>, n: nat)
    requires Increasing(idx, n + 1)
    ensures n in idx <==> idx != [] && idx[|idx| - 1] == n
    ensures n in idx ==> Increasing(idx[..|idx| - 1], n) && forall i :: 0 <= i < n ==> (i in idx[..|idx| - 1] <==> i in idx)
    ensures n !in idx ==> Increasing(idx, n)
  {
    if n in idx {
      var k :| 0 <= k < |idx| && idx[k] == n;
      assert k == |idx| - 1;
      var init := idx[..|idx| - 1];
      forall i | 0 <= i < n ensures i in init <==> i in idx {
        if i in idx {
          var j :| 0 <= j < |idx| && idx[j] == i;
          assert init[j] == i;
        }
      }
    }
  }

  function Shorter(idx: seq<nat>, n: nat): seq<nat> {
    if idx != [] && idx[|idx| - 1] == n then idx[..|idx| - 1] else idx
  }

  lemma BelowStep(ms: seq<ReplicaMetrics>, cfg: ScalingConfig, idx: seq<nat>)
    requires ms != [] && ListsBelow(idx, ms, cfg)
    ensures var n := |ms| - 1;
            && ListsBelow(Shorter(idx, n), ms[..n], cfg)
            && (idx != [] && idx[|idx| - 1] == n <==>
                  ms[n].kvCacheUsage < cfg.kvCacheThreshold && ms[n].queueLength as real < cfg.queueLengthThreshold)
  {
    IndexStep(idx, |ms| - 1);
  }

  lemma ReachingStep(ms: seq<ReplicaMetrics>, cfg: ScalingConfig, idx: seq<nat>)
    requires ms != [] && ListsReaching(idx, ms, cfg)
    ensures var n := |ms| - 1;
            && ListsReaching(Shorter(idx, n), ms[..n], cfg)
            && (idx != [] && idx[|idx| - 1] == n <==>
                  ms[n].kvCacheUsage >= cfg.kvCacheThreshold || ms[n].queueLength as real >= cfg.queueLengthThreshold)
  {
    IndexStep(idx, |ms| - 1);
  }

  lemma LoadOfInFigures(m: ReplicaMetrics, cfg: ScalingConfig)
    ensures LoadOf(m, cfg) == if m.kvCacheUsage < cfg.kvCacheThreshold && m.queueLength as real < cfg.queueLengthThreshold
                              then Load(1, m.kvCacheUsage, m.queueLength) else Load(0, 0.0, 0)
  {
  }

  /** A sum over indices, with or without one more at the end. */
  lemma SumStep(w: seq<real>, w': seq<real>)
    requires |w'| <= |w| <= |w'| + 1 && forall k :: 0 <= k < |w'| ==> w[k] == w'[k]
    ensures Sum(w, |w|) == Sum(w', |w'|) + if |w| > |w'| then w[|w'|] else 0.0
  {
    SumPrefix(w', w, |w'|);
  }

  /** The load is counted and summed over exactly the replicas below both thresholds. */
  lemma {:induction false} LoadInFigures(ms: seq<ReplicaMetrics>, cfg: ScalingConfig, idx: seq<nat>)
    requires ListsBelow(idx, ms, cfg)
    ensures var l := TotalLoad(ms, cfg);
            && l.count == |idx|
            && l.kv == Sum(KvAt(ms, idx), |idx|)
            && l.queue as real == Sum(QueueAt(ms, idx), |idx|)
  {
    hide TotalLoad, LoadOf, Sum, ListsBelow, Increasing, KvAt, QueueAt, Load.Plus;
    ListsInOrder(idx, ms, cfg);
    if ms == [] {
      NothingListed(idx, ms);
      NoLoad(cfg);
    } else {
      var n := |ms| - 1;
      var init, last := ms[..n], ms[n];
      BelowStep(ms, cfg, idx);
      var idx' := Shorter(idx, n);
      ListsInOrder(idx', init, cfg);
      LoadInFigures(init, cfg, idx');
      assert ms == init + [last];
      TotalLoadAppend(init, last, cfg);
      LoadOfInFigures(last, cfg);
      SumsStep(ms, idx);
      PlusInFigures(TotalLoad(init, cfg), LoadOf(last, cfg));
    }
  }

  lemma NothingListed(idx: seq<nat>, ms: seq<ReplicaMetrics>)
    requires Increasing(idx, |ms|) && ms == []
    ensures idx == [] && Sum(KvAt(ms, idx), 0) == 0.0 && Sum(QueueAt(ms, idx), 0) == 0.0
  {
    hide Increasing;
    if idx != [] {
      SomethingListed(idx, |ms|);
    }
  }

  lemma SomethingListed(idx: seq<nat>, n: nat)
    requires Increasing(idx, n) && idx != []
    ensures 0 < n
  {
    assert idx[0] < n;
  }

  lemma PlusInFigures(a: Load, b: Load)
    ensures a.Plus(b).count == a.count + b.count && a.Plus(b).kv == a.kv + b.kv
    ensures a.Plus(b).queue as real == a.queue as real + b.queue as real
  {
  }

  /** Both sums with one replica more. */
  lemma SumsStep(ms: seq<ReplicaMetrics>, idx: seq<nat>)
    requires ms != [] && Increasing(idx, |ms|) && Increasing(Shorter(idx, |ms| - 1), |ms| - 1)
    ensures var n := |ms| - 1;
            var init, idx' := ms[..n], Shorter(idx, n);
            && |idx| == |idx'| + (if idx != [] && idx[|idx| - 1] == n then 1 else 0)
            && Sum(KvAt(ms, idx), |idx|)
               == Sum(KvAt(init, idx'), |idx'|) + (if idx != [] && idx[|idx| - 1] == n then ms[n].kvCacheUsage else 0.0)
            && Sum(QueueAt(ms, idx), |idx|)
               == Sum(QueueAt(init, idx'), |idx'|) + (if idx != [] && idx[|idx| - 1] == n then ms[n].queueLength as real else 0.0)
  {
    hide Sum, KvAt, QueueAt;
    var n := |ms| - 1;
    var init, idx' := ms[..n], Shorter(idx, n);
    SumStep(KvAt(ms, idx), KvAt(init, idx'));
    SumStep(QueueAt(ms, idx), QueueAt(init, idx'));
  }

  lemma ListsInOrder(idx: seq<nat>, ms: seq<ReplicaMetrics>, cfg: ScalingConfig)
    requires ListsBelow(idx, ms, cfg) || ListsReaching(idx, ms, cfg)
    ensures Increasing(idx, |ms|)
  {
  }

  lemma PodsStep(init: seq<ReplicaMetrics>, last: ReplicaMetrics, cfg: ScalingConfig)
    ensures SaturatedPods(init + [last], cfg)
         == SaturatedPods(init, cfg)
            + if last.kvCacheUsage >= cfg.kvCacheThreshold || last.queueLength as real >= cfg.queueLengthThreshold then [last.pod] else []
  {
    assert (init + [last])[..|init|] == init;
  }

  /** The pods listed as saturated are exactly those of the replicas that reach a threshold. */
  lemma {:induction false} SaturatedInFigures(ms: seq<ReplicaMetrics>, cfg: ScalingConfig, idx: seq<nat>)
    requires ListsReaching(idx, ms, cfg)
    ensures SaturatedPods(ms, cfg) == PodsAt(ms, idx)
  {
    if ms == [] {
      assert idx == [];
    } else {
      hide SaturatedPods, ListsReaching;
      var n := |ms| - 1;
      var init, last := ms[..n], ms[n];
      ReachingStep(ms, cfg, idx);
      var idx' := Shorter(idx, n);
      ListsInOrder(idx, ms, cfg);
      ListsInOrder(idx', init, cfg);
      SaturatedInFigures(init, cfg, idx');
      assert ms == init + [last];
      PodsStep(init, last, cfg);
      assert PodsAt(ms, idx) == PodsAt(init, idx') + if |idx| > |idx'| then [last.pod] else [];
    }
  }

  /** `idx` lists the replicas of a variant. */
  ghost predicate ListsVariant(idx: seq<nat>, ms: seq<ReplicaMetrics>, v: Name) {
    Increasing(idx, |ms|) && forall i :: 0 <= i < |ms| ==> (i in idx <==> ms[i].variant == v)
  }

  ghost function ReplicasAt(ms: seq<ReplicaMetrics>, idx: seq<nat>): (s: seq<ReplicaMetrics>)
    requires Increasing(idx, |ms|)
    ensures |s| == |idx| && forall k :: 0 <= k < |idx| ==> s[k] == ms[idx[k]]
  {
    seq(|idx|, k requires 0 <= k < |idx| => ms[idx[k]])
  }

  /** The replicas of a variant are exactly those with its name, in order. */
  lemma {:induction false} VariantReplicas(ms: seq<ReplicaMetrics>, v: Name, idx: seq<nat>)
    requires ListsVariant(idx, ms, v)
    ensures Of(ms, {v}) == ReplicasAt(ms, idx)
  {
    if ms == [] {
      NothingListed(idx, ms);
    } else {
      hide Of, ListsVariant;
      var n := |ms| - 1;
      var init, last := ms[..n], ms[n];
      VariantStep(ms, v, idx);
      var idx' := Shorter(idx, n);
      VariantInOrder(idx, ms, v);
      VariantInOrder(idx', init, v);
      VariantReplicas(init, v, idx');
      assert ms == init + [last];
      OfStep(init, last, v);
      assert ReplicasAt(ms, idx) == ReplicasAt(init, idx') + if |idx| > |idx'| then [last] else [];
    }
  }

  lemma VariantInOrder(idx: seq<nat>, ms: seq<ReplicaMetrics>, v: Name)
    requires ListsVariant(idx, ms, v)
    ensures Increasing(idx, |ms|)
  {
  }

  lemma OfStep(init: seq<ReplicaMetrics>, last: ReplicaMetrics, v: Name)
    ensures Of(init + [last], {v}) == Of(init, {v}) + if last.variant == v then [last] else []
  {
    assert (init + [last])[..|init|] == init;
  }

  lemma VariantStep(ms: seq<ReplicaMetrics>, v: Name, idx: seq<nat>)
    requires ms != [] && ListsVariant(idx, ms, v)
    ensures var n := |ms| - 1;
            && ListsVariant(Shorter(idx, n), ms[..n], v)
            && (idx != [] && idx[|idx| - 1] == n <==> ms[n].variant == v)
  {
    IndexStep(idx, |ms| - 1);
  }

  /** The maxima: no replica exceeds them, and they are zero or some replica's. */
  lemma {:induction false} MaximaInFigures(ms: seq<ReplicaMetrics>)
    ensures 0.0 <= MaxKv(ms) && 0 <= MaxQueue(ms)
    ensures forall i :: 0 <= i < |ms| ==> ms[i].kvCacheUsage <= MaxKv(ms) && ms[i].queueLength <= MaxQueue(ms)
    ensures MaxKv(ms) == 0.0 || exists i :: 0 <= i < |ms| && ms[i].kvCacheUsage == MaxKv(ms)
    ensures MaxQueue(ms) == 0 || exists i :: 0 <= i < |ms| && ms[i].queueLength == MaxQueue(ms)
  {
    if ms != [] {
      var init := ms[..|ms| - 1];
      MaximaInFigures(init);
      assert forall i :: 0 <= i < |init| ==> init[i] == ms[i];
      if MaxKv(init) != 0.0 && MaxKv(ms) == MaxKv(init) {
        var i :| 0 <= i < |init| && init[i].kvCacheUsage == MaxKv(init);
        assert ms[i].kvCacheUsage == MaxKv(ms);
      }
      if MaxQueue(init) != 0 && MaxQueue(ms) == MaxQueue(init) {
        var i :| 0 <= i < |init| && init[i].queueLength == MaxQueue(init);
        assert ms[i].queueLength == MaxQueue(ms);
      }
    }
  }

  /** The analysis of a variant, from its replicas and the thresholds alone. */
  lemma VariantInFigures(va: VariantAnalysis, v: Name, ms: seq<ReplicaMetrics>, cfg: ScalingConfig, below: seq<nat>, reaching: seq<nat>)
    requires Describes(va, v, ms, cfg) && ListsBelow(below, ms, cfg) && ListsReaching(reaching, ms, cfg)
    ensures va.replicaCount == |ms| && va.nonSaturatedCount == |below|
    ensures va.saturated == PodsAt(ms, reaching)
    ensures below == [] ==> va.avgSpareKv == 0.0 && va.avgSpareQueue == 0.0
    ensures below != [] ==>
              && va.avgSpareKv == cfg.kvCacheThreshold - Sum(KvAt(ms, below), |below|) / |below| as real
              && va.avgSpareQueue == cfg.queueLengthThreshold - Sum(QueueAt(ms, below), |below|) / |below| as real
    ensures forall i :: 0 <= i < |ms| ==> ms[i].kvCacheUsage <= va.maxKvCacheUsage && ms[i].queueLength <= va.maxQueueLength
  {
    hide TotalLoad, SaturatedPods, MaxKv, MaxQueue, Sum;
    LoadInFigures(ms, cfg, below);
    SaturatedInFigures(ms, cfg, reaching);
    MaximaInFigures(ms);
    SpareInFigures(TotalLoad(ms, cfg), cfg);
  }

  lemma SpareInFigures(l: Load, cfg: ScalingConfig)
    ensures l.count == 0 ==> Average(SpareKv(l, cfg), l.count) == 0.0 && Average(SpareQueue(l, cfg), l.count) == 0.0
    ensures l.count > 0 ==>
              && Average(SpareKv(l, cfg), l.count) == cfg.kvCacheThreshold - l.kv / l.count as real
              && Average(SpareQueue(l, cfg), l.count) == cfg.queueLengthThreshold - l.queue as real / l.count as real
  {
    hide Average, SpareKv, SpareQueue;
    NoneAveraged(SpareKv(l, cfg));
    NoneAveraged(SpareQueue(l, cfg));
    if l.count > 0 {
      AverageSpare(l, cfg);
    }
  }

  lemma NoneAveraged(total: real)
    ensures Average(total, 0) == 0.0
  {
  }

  /** The analysis of a model, from its replicas, thresholds and triggers alone.  With every replica
      saturated the averages are zero, so positive triggers ask for scale-up. */
  lemma AnalysisInFigures(a: ModelAnalysis, ms: seq<ReplicaMetrics>, cfg: ScalingConfig, below: seq<nat>)
    requires ModelDescribed(a, ms, cfg) && ListsBelow(below, ms, cfg)
    ensures a.totalReplicas == |ms| && a.nonSaturatedCount == |below|
    ensures below == [] ==> a.avgSpareKv == 0.0 && a.avgSpareQueue == 0.0
    ensures below != [] ==>
              && a.avgSpareKv == cfg.kvCacheThreshold - Sum(KvAt(ms, below), |below|) / |below| as real
              && a.avgSpareQueue == cfg.queueLengthThreshold - Sum(QueueAt(ms, below), |below|) / |below| as real
    ensures a.shouldScaleUp <==> ms != [] && (a.avgSpareKv < cfg.kvSpareTrigger || a.avgSpareQueue < cfg.queueSpareTrigger)
    ensures !a.shouldScaleDown
    ensures a.scaleDownSafe <==>
              && 2 <= |below|
              && cfg.kvSpareTrigger <= cfg.kvCacheThreshold - Sum(KvAt(ms, below), |below|) / (|below| - 1) as real
              && cfg.queueSpareTrigger <= cfg.queueLengthThreshold - Sum(QueueAt(ms, below), |below|) / (|below| - 1) as real
  {
    hide TotalLoad, Average, SpareKv, SpareQueue, Covered, Sum;
    LoadInFigures(ms, cfg, below);
    SpareInFigures(TotalLoad(ms, cfg), cfg);
  }

  /** A case: the second of two replicas has a long queue.  It is saturated, the other has spare
      capacity, and no scale-up is asked for. */
  lemma QueueSaturates(a: ModelAnalysis)
    requires ModelDescribed(a, [ReplicaMetrics(1, 0.2, 0, 1, 1, 1.0), ReplicaMetrics(2, 0.2, 9, 1, 1, 1.0)],
                            ScalingConfig(0.8, 5.0, 0.1, 3.0))
    ensures a.nonSaturatedCount == 1 && a.avgSpareQueue == 5.0 && !a.shouldScaleUp
  {
    hide TotalLoad, Covered, ModelDescribed, Sum;
    var ms := [ReplicaMetrics(1, 0.2, 0, 1, 1, 1.0), ReplicaMetrics(2, 0.2, 9, 1, 1, 1.0)];
    var cfg := ScalingConfig(0.8, 5.0, 0.1, 3.0);
    var idx: seq<nat> := [0];
    assert ListsBelow(idx, ms, cfg);
    AnalysisInFigures(a, ms, cfg, idx);
    SumOfOne(KvAt(ms, idx));
    SumOfOne(QueueAt(ms, idx));
  }

  lemma SumOfOne(w: seq<real>)
    requires |w| == 1
    ensures Sum(w, 1) == w[0]
  {
    assert Sum(w, 1) == Sum(w, 0) + w[0];
  }
}
