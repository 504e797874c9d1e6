/** The capacity-only control loop: every pass observes replicas, analyzes capacity, computes targets,
    turns them into decisions and writes desired counts into the status of the variants.  What holds
    over every sequence of passes is proved here. */
module ControlLoop {
  import opened Basics
  import opened CapacityAnalysis
  import opened CapacityTargets

  /** What a pass sees: ready replicas with metrics, current replica counts, and the variants whose
      status can be written this time. */
  datatype Observation = Observation(
    metrics: seq<ReplicaMetrics>, cfg: ScalingConfig, current: map<Name, int>, writable: set<Name>)

  /** The state of a variant as the pass builds it. */
  function SeenState(vas: seq<Name>, desired: map<Name, int>, obs: Observation, v: Name): VariantState {
    if v in vas then VariantState(v, CountIn(obs.current, v), CountIn(desired, v)) else VariantState(v, 0, 0)
  }

  /** The decision for one target. */
  function DecisionFor(v: Name, target: int, state: VariantState, va: Option<VariantAnalysis>): Decision {
    Decision(v, if va.Some? then va.value.accelerator else 0, if va.Some? then va.value.cost else 0.0,
             ActionFor(target, state.current), state.current, target, state.desired, true, false, false, true)
  }

  /** Exactly one decision for each of the named targets. */
  ghost predicate DecisionsFor(ds: seq<Decision>, names: set<Name>, targets: map<Name, int>,
                               states: seq<VariantState>, vas: seq<VariantAnalysis>) {
    && (forall i, j :: 0 <= i < j < |ds| ==> ds[i].variant != ds[j].variant)
    && (forall v :: v in names ==> exists i :: 0 <= i < |ds| && ds[i].variant == v)
    && (forall i :: 0 <= i < |ds| ==>
          && ds[i].variant in names && ds[i].variant in targets
          && ds[i] == DecisionFor(ds[i].variant, targets[ds[i].variant],
                                  StateOf(states, ds[i].variant), AnalysisOf(vas, ds[i].variant)))
  }

  /** Converts targets to decisions, visiting them in any order. */
  method ConvertTargets(targets: map<Name, int>, analysis: ModelAnalysis, states: seq<VariantState>)
    returns (decisions: seq<Decision>)
    ensures DecisionsFor(decisions, targets.Keys, targets, states, analysis.variants)
    ensures forall i :: 0 <= i < |decisions| ==> Directed(decisions[i], targets, states)
  {
    hide StateOf, AnalysisOf, DecisionsFor, DecisionFor;
    NoDecisions(targets, states, analysis.variants);
    var vaMap := BuildAnalysisMap(analysis.variants);
    var stateMap := BuildStateMap(states);
    decisions := [];
    var todo := targets.Keys;
    ghost var done: set<Name> := {};
    while todo != {}
      invariant todo <= targets.Keys && done == targets.Keys - todo
      invariant DecisionsFor(decisions, done, targets, states, analysis.variants)
      decreases |todo|
    {
      var v :| v in todo;
      var state := if v in stateMap then stateMap[v] else VariantState(v, 0, 0);
      var va := if v in vaMap then Some(vaMap[v]) else None;
      DecisionJoins(decisions, done, targets, states, analysis.variants, v);
      decisions := decisions + [DecisionFor(v, targets[v], state, va)];
      todo := todo - {v};
      done := done + {v};
    }
    assert done == targets.Keys;
    DecisionsDirected(decisions, targets, states, analysis.variants);
  }

  /** A decision carries its target and the counts it was made on, and its action tells which of the
      target and the current count is larger. */
  ghost predicate Directed(d: Decision, targets: map<Name, int>, states: seq<VariantState>) {
    && d.variant in targets && d.target == targets[d.variant]
    && d.current == StateOf(states, d.variant).current && d.desired == StateOf(states, d.variant).desired
    && (d.action == ScaleUp <==> d.target > d.current)
    && (d.action == ScaleDown <==> d.target < d.current)
    && (d.action == NoChange <==> d.target == d.current)
    && d.capacityBased && d.capacityOnly && !d.modelBased && !d.safetyOverride
  }

  lemma DecisionsDirected(ds: seq<Decision>, targets: map<Name, int>, states: seq<VariantState>, vas: seq<VariantAnalysis>)
    requires DecisionsFor(ds, targets.Keys, targets, states, vas)
    ensures forall i :: 0 <= i < |ds| ==> Directed(ds[i], targets, states)
  {
    hide StateOf, AnalysisOf;
  }

  lemma DecisionJoins(ds: seq<Decision>, done: set<Name>, targets: map<Name, int>,
                      states: seq<VariantState>, vas: seq<VariantAnalysis>, v: Name)
    requires DecisionsFor(ds, done, targets, states, vas) && v !in done && v in targets
    ensures DecisionsFor(ds + [DecisionFor(v, targets[v], StateOf(states, v), AnalysisOf(vas, v))], done + {v}, targets, states, vas)
  {
    hide StateOf, AnalysisOf;
    var all := ds + [DecisionFor(v, targets[v], StateOf(states, v), AnalysisOf(vas, v))];
    forall x | x in done + {v} ensures exists i :: 0 <= i < |all| && all[i].variant == x {
      if x == v {
        assert all[|ds|].variant == x;
      } else {
        var i :| 0 <= i < |ds| && ds[i].variant == x;
        assert all[i].variant == x;
      }
    }
  }

  lemma NoDecisions(targets: map<Name, int>, states: seq<VariantState>, vas: seq<VariantAnalysis>)
    ensures DecisionsFor([], {}, targets, states, vas)
  {
  }

  /** What a pass writes: the target of every variant that has one and can be written. */
  ghost predicate Writes(vas: seq<Name>, targets: map<Name, int>, writable: set<Name>,
                         before: map<Name, int>, after: map<Name, int>) {
    forall v :: CountIn(after, v) == if v in targets && v in vas && v in writable then targets[v] else CountIn(before, v)
  }

  /** One pass with its analysis and targets.  Without metrics it does nothing. */
  datatype Pass = Pass(obs: Observation, analysis: ModelAnalysis, states: seq<VariantState>, targets: map<Name, int>)

  ghost predicate PassOk(vas: seq<Name>, before: map<Name, int>, p: Pass, after: map<Name, int>) {
    if p.obs.metrics == [] then after == before
    else
      && ModelDescribed(p.analysis, p.obs.metrics, p.obs.cfg)
      && (forall v :: StateOf(p.states, v) == SeenState(vas, before, p.obs, v))
      && TargetsMeet(p.targets, p.analysis, p.states)
      && Writes(vas, p.targets, p.obs.writable, before, after)
  }

  class Controller {
    const vas: seq<Name>         // the variants of the model
    var desired: map<Name, int>  // desired replicas in their status, missing when never set

    constructor (vas: seq<Name>, desired: map<Name, int>)
      ensures this.vas == vas && this.desired == desired
    {
      this.vas := vas;
      this.desired := desired;
    }

    /** Current and desired counts of every variant. */
    method BuildVariantStates(obs: Observation) returns (states: seq<VariantState>)
      ensures forall v :: StateOf(states, v) == SeenState(vas, desired, obs, v)
    {
      states := [];
      for i := 0 to |vas|
        invariant forall v :: StateOf(states, v) == SeenState(vas[..i], desired, obs, v)
      {
        var s := VariantState(vas[i], CountIn(obs.current, vas[i]), CountIn(desired, vas[i]));
        ghost var before := states;
        states := states + [s];
        assert states[..|before|] == before;
        assert vas[..i + 1] == vas[..i] + [vas[i]];
      }
      assert vas[..|vas|] == vas;
    }

    /** Writes the targets of the decisions into the status of the variants that can be written. */
    method ApplyDecisions(decisions: seq<Decision>, writable: set<Name>, ghost targets: map<Name, int>,
                          ghost states: seq<VariantState>, ghost analyses: seq<VariantAnalysis>)
      requires DecisionsFor(decisions, targets.Keys, targets, states, analyses)
      modifies this`desired
      ensures Writes(vas, targets, writable, old(desired), desired)
    {
      hide StateOf, AnalysisOf;
      for i := 0 to |decisions|
        invariant forall v :: CountIn(desired, v) ==
                    if v in targets && v in vas && v in writable && exists j :: 0 <= j < i && decisions[j].variant == v
                    then targets[v] else CountIn(old(desired), v)
      {
        var d := decisions[i];
        if d.variant in vas && d.variant in writable {
          desired := desired[d.variant := d.target];
        }
      }
    }

    /** One pass in capacity-only mode. */
    method Reconcile(obs: Observation) returns (ghost p: Pass)
      modifies this`desired
      ensures p.obs == obs
      ensures PassOk(vas, old(desired), p, desired)
    {
      hide ModelDescribed, TargetsMeet, Writes, DecisionsFor, StateOf;
      p := Pass(obs, ModelAnalysis(0, 0, 0.0, 0.0, false, false, false, []), [], map[]);
      if |obs.metrics| == 0 {
        return;
      }
      var analysis := AnalyzeModelCapacity(obs.metrics, obs.cfg);
      AnalyzedVariants(analysis, obs.metrics, obs.cfg);
      var states := BuildVariantStates(obs);
      var targets := CalculateCapacityTargets(Some(analysis), states);
      var decisions := ConvertTargets(targets, analysis, states);
      ApplyDecisions(decisions, obs.writable, targets, states, analysis.variants);
      p := Pass(obs, analysis, states, targets);
    }
  }

  /** With metrics there is a variant, and every analyzed variant has a ready replica. */
  lemma AnalyzedVariants(a: ModelAnalysis, ms: seq<ReplicaMetrics>, cfg: ScalingConfig)
    requires ModelDescribed(a, ms, cfg)
    ensures DistinctVariants(a.variants)
    ensures ms != [] ==> a.variants != []
    ensures forall i :: 0 <= i < |a.variants| ==> 1 <= a.variants[i].replicaCount
  {
    hide TotalLoad, Of, MaxKv, MaxQueue, SaturatedPods, Pressed, RemovalSafe, Average;
    if ms != [] {
      assert ms[0].variant in VariantsOf(ms);
    }
    forall i | 0 <= i < |a.variants| ensures 1 <= a.variants[i].replicaCount {
      var v := a.variants[i].variant;
      assert Describes(a.variants[i], v, Of(ms, {v}), cfg);
      OfMember(ms, v);
    }
  }

  // ---- Over every sequence of passes ----

  /** Desired counts are positive or not set. */
  ghost predicate PositiveOrUnset(desired: map<Name, int>) {
    forall v :: CountIn(desired, v) == 0 || 1 <= CountIn(desired, v)
  }

  /** Statuses before, between and after the passes. */
  ghost predicate ValidRun(vas: seq<Name>, statuses: seq<map<Name, int>>, passes: seq<Pass>) {
    && |statuses| == |passes| + 1
    && forall i :: 0 <= i < |passes| ==> PassOk(vas, statuses[i], passes[i], statuses[i + 1])
  }

  /** Every target of a pass is at least one. */
  lemma TargetsPositive(vas: seq<Name>, before: map<Name, int>, p: Pass, after: map<Name, int>)
    requires PositiveOrUnset(before) && PassOk(vas, before, p, after)
    ensures p.obs.metrics != [] ==> forall v :: v in p.targets ==> 1 <= p.targets[v]
    ensures PositiveOrUnset(after)
  {
    hide ModelDescribed, ChosenToGrow, ChosenToShrink, StateOf;
    if p.obs.metrics != [] {
      AnalyzedVariants(p.analysis, p.obs.metrics, p.obs.cfg);
      forall v | v in p.targets ensures 1 <= p.targets[v] {
        var i :| 0 <= i < |p.analysis.variants| && p.analysis.variants[i].variant == v;
        TargetPositive(p.analysis.variants[i], p.analysis, p.states) by {
          assert StateOf(p.states, v) == SeenState(vas, before, p.obs, v);
        }
      }
    }
  }

  lemma TargetPositive(va: VariantAnalysis, a: ModelAnalysis, states: seq<VariantState>)
    requires 1 <= va.replicaCount
    requires StateOf(states, va.variant).desired == 0 || 1 <= StateOf(states, va.variant).desired
    ensures 1 <= TargetOf(va, a, states)
  {
  }

  /** Over every run from a status that is positive or unset, every target written is at least one:
      the loop never scales a variant to zero. */
  lemma {:induction false} RunStaysPositive(vas: seq<Name>, statuses: seq<map<Name, int>>, passes: seq<Pass>, n: nat)
    requires ValidRun(vas, statuses, passes) && PositiveOrUnset(statuses[0]) && n <= |passes|
    ensures PositiveOrUnset(statuses[n])
    ensures n < |passes| && passes[n].obs.metrics != [] ==> forall v :: v in passes[n].targets ==> 1 <= passes[n].targets[v]
  {
    hide PositiveOrUnset, PassOk;
    if n > 0 {
      RunStaysPositive(vas, statuses, passes, n - 1);
      assert PassOk(vas, statuses[n - 1], passes[n - 1], statuses[n - 1 + 1]);
      TargetsPositive(vas, statuses[n - 1], passes[n - 1], statuses[n]);
    }
    if n < |passes| {
      assert PassOk(vas, statuses[n], passes[n], statuses[n + 1]);
      TargetsPositive(vas, statuses[n], passes[n], statuses[n + 1]);
    }
  }

  /** A decision in flight survives a pass. */
  lemma PassHolds(vas: seq<Name>, before: map<Name, int>, p: Pass, after: map<Name, int>, v: Name)
    requires PassOk(vas, before, p, after) && v in vas
    requires CountIn(before, v) != 0 && CountIn(p.obs.current, v) != CountIn(before, v)
    ensures CountIn(after, v) == CountIn(before, v)
  {
    hide ModelDescribed, ChosenToGrow, ChosenToShrink, StateOf;
    if p.obs.metrics != [] && v in p.targets {
      var i :| 0 <= i < |p.analysis.variants| && p.analysis.variants[i].variant == v;
      assert StateOf(p.states, v) == SeenState(vas, before, p.obs, v);
      assert p.targets[v] == TargetOf(p.analysis.variants[i], p.analysis, p.states);
    }
  }

  /** Over every run, a desired count stays as it is until the current replicas have caught up with
      it, whatever the load does in between. */
  lemma {:induction false} RunHoldsInFlight(vas: seq<Name>, statuses: seq<map<Name, int>>, passes: seq<Pass>, v: Name, n: nat)
    requires ValidRun(vas, statuses, passes) && v in vas && n <= |passes|
    requires CountIn(statuses[0], v) != 0
    requires forall i :: 0 <= i < n ==> CountIn(passes[i].obs.current, v) != CountIn(statuses[0], v)
    ensures CountIn(statuses[n], v) == CountIn(statuses[0], v)
  {
    hide PassOk;
    if n > 0 {
      RunHoldsInFlight(vas, statuses, passes, v, n - 1);
      assert PassOk(vas, statuses[n - 1], passes[n - 1], statuses[n - 1 + 1]);
      PassHolds(vas, statuses[n - 1], passes[n - 1], statuses[n], v);
    }
  }

  /** A settled loop is quiet: when every variant has caught up, all its replicas are ready, and the
      load neither presses nor allows a removal, a pass changes no desired count. */
  lemma SettledIsQuiet(vas: seq<Name>, before: map<Name, int>, p: Pass, after: map<Name, int>, v: Name)
    requires PassOk(vas, before, p, after) && p.obs.metrics != [] && v in vas
    requires CountIn(p.obs.current, v) == CountIn(before, v) == |Of(p.obs.metrics, {v})|
    requires var l := TotalLoad(p.obs.metrics, p.obs.cfg);
             !Pressed(l, p.obs.cfg) && !RemovalSafe(l, p.obs.cfg)
    ensures CountIn(after, v) == CountIn(before, v)
  {
    hide ChosenToGrow, ChosenToShrink, StateOf, TotalLoad, Of, Pressed, RemovalSafe, MaxKv, MaxQueue, SaturatedPods, Average;
    if v in p.targets {
      var i :| 0 <= i < |p.analysis.variants| && p.analysis.variants[i].variant == v;
      assert StateOf(p.states, v) == SeenState(vas, before, p.obs, v);
      assert Describes(p.analysis.variants[i], v, Of(p.obs.metrics, {v}), p.obs.cfg);
      assert p.targets[v] == TargetOf(p.analysis.variants[i], p.analysis, p.states);
    }
  }

  /** What a pass aims at for one variant: its ready replicas or the decision in flight, one more
      only under pressure, one less only when that is safe. */
  lemma PassTarget(vas: seq<Name>, before: map<Name, int>, p: Pass, after: map<Name, int>, v: Name)
    requires PassOk(vas, before, p, after) && p.obs.metrics != [] && v in p.targets
    ensures var s, ready := SeenState(vas, before, p.obs, v), |Of(p.obs.metrics, {v})|;
            if s.desired != 0 && s.desired != s.current then p.targets[v] == s.desired
            else
              && ready - 1 <= p.targets[v] <= ready + 1
              && (p.targets[v] == ready + 1 ==> p.analysis.shouldScaleUp)
              && (p.targets[v] == ready - 1 ==> !p.analysis.shouldScaleUp && p.analysis.scaleDownSafe)
  {
    hide ChosenToGrow, ChosenToShrink, StateOf, TotalLoad, Of, Pressed, RemovalSafe, MaxKv, MaxQueue, SaturatedPods, Average;
    var i :| 0 <= i < |p.analysis.variants| && p.analysis.variants[i].variant == v;
    assert StateOf(p.states, v) == SeenState(vas, before, p.obs, v);
    assert Describes(p.analysis.variants[i], v, Of(p.obs.metrics, {v}), p.obs.cfg);
    assert p.targets[v] == TargetOf(p.analysis.variants[i], p.analysis, p.states);
  }

  /** The load that one pass saw, spread over one non-saturated replica less. */
  ghost predicate OneReplicaLess(p: Pass, q: Pass) {
    var l, l' := TotalLoad(p.obs.metrics, p.obs.cfg), TotalLoad(q.obs.metrics, q.obs.cfg);
    && p.obs.cfg == q.obs.cfg && p.obs.metrics != [] && q.obs.metrics != []
    && l.count >= 2 && l'.count == l.count - 1 && l'.kv == l.kv && l'.queue == l.queue
  }

  /** A run does not flap.  Of two passes of which the later sees the load of the earlier on one replica
      less, the later is pressed exactly when the earlier called the removal unsafe; so if the earlier
      took a replica from some variant, the later adds one to none. */
  lemma RunDoesNotFlap(vas: seq<Name>, statuses: seq<map<Name, int>>, passes: seq<Pass>, i: nat, j: nat, v: Name, w: Name)
    requires ValidRun(vas, statuses, passes) && i < j < |passes| && OneReplicaLess(passes[i], passes[j])
    ensures passes[j].analysis.shouldScaleUp <==> !passes[i].analysis.scaleDownSafe
    ensures && v in passes[i].targets && Free(SeenState(vas, statuses[i], passes[i].obs, v))
            && passes[i].targets[v] < |Of(passes[i].obs.metrics, {v})|
            && w in passes[j].targets && Free(SeenState(vas, statuses[j], passes[j].obs, w)) ==>
              passes[j].targets[w] <= |Of(passes[j].obs.metrics, {w})|
  {
    hide TargetsMeet, Writes, TotalLoad, Of, Pressed, RemovalSafe, Covered, Average, StateOf, SeenState;
    var p, q := passes[i], passes[j];
    assert PassOk(vas, statuses[i], p, statuses[i + 1]) && PassOk(vas, statuses[j], q, statuses[j + 1]);
    RemovalDoesNotFlap(p.obs.metrics, q.obs.metrics, p.obs.cfg);
    if v in p.targets {
      PassTarget(vas, statuses[i], p, statuses[i + 1], v);
    }
    if w in q.targets {
      PassTarget(vas, statuses[j], q, statuses[j + 1], w);
    }
  }
}
