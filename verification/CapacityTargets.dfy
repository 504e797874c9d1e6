/** From capacity analysis to replica targets, and arbitration with a model-based optimizer. */
module CapacityTargets {
  import opened Basics
  import opened CapacityAnalysis

  datatype VariantState = VariantState(variant: Name, current: int, desired: int)

  // ---- Targets ----

  /** The last state given for a variant; zero counts when there is none. */
  function StateOf(states: seq<VariantState>, v: Name): VariantState {
    if states == [] then VariantState(v, 0, 0)
    else if states[|states| - 1].variant == v then states[|states| - 1]
    else StateOf(states[..|states| - 1], v)
  }

  /** An earlier decision is still on its way: it is set and the replicas have not caught up. */
  predicate InFlight(s: VariantState) {
    s.desired != 0 && s.desired != s.current
  }

  /** Cheaper first, ties by name. */
  predicate CheaperThan(a: VariantAnalysis, b: VariantAnalysis) {
    a.cost < b.cost || (a.cost == b.cost && a.variant < b.variant)
  }

  /** Dearer first, ties by name, the later one first. */
  predicate DearerThan(a: VariantAnalysis, b: VariantAnalysis) {
    a.cost > b.cost || (a.cost == b.cost && a.variant > b.variant)
  }

  predicate CanGrow(va: VariantAnalysis, states: seq<VariantState>) {
    !InFlight(StateOf(states, va.variant))
  }

  predicate CanShrink(va: VariantAnalysis, states: seq<VariantState>) {
    !InFlight(StateOf(states, va.variant)) && va.replicaCount > 1
  }

  ghost predicate ChosenToGrow(va: VariantAnalysis, vas: seq<VariantAnalysis>, states: seq<VariantState>) {
    && va in vas && CanGrow(va, states)
    && forall b :: b in vas && CanGrow(b, states) && b.variant != va.variant ==> CheaperThan(va, b)
  }

  ghost predicate ChosenToShrink(va: VariantAnalysis, vas: seq<VariantAnalysis>, states: seq<VariantState>) {
    && va in vas && CanShrink(va, states)
    && forall b :: b in vas && CanShrink(b, states) && b.variant != va.variant ==> DearerThan(va, b)
  }

  /** The target of one variant. */
  ghost function TargetOf(va: VariantAnalysis, a: ModelAnalysis, states: seq<VariantState>): int {
    var s := StateOf(states, va.variant);
    if InFlight(s) then s.desired
    else if a.shouldScaleUp then
      if ChosenToGrow(va, a.variants, states) then va.replicaCount + 1 else va.replicaCount
    else if a.scaleDownSafe then
      if ChosenToShrink(va, a.variants, states) then va.replicaCount - 1 else va.replicaCount
    else va.replicaCount
  }

  ghost predicate Named(vas: seq<VariantAnalysis>, v: Name) {
    exists i :: 0 <= i < |vas| && vas[i].variant == v
  }

  /** A target for every analyzed variant and no other. */
  ghost predicate TargetsMeet(targets: map<Name, int>, a: ModelAnalysis, states: seq<VariantState>) {
    && (forall v :: v in targets <==> Named(a.variants, v))
    && (forall i :: 0 <= i < |a.variants| ==>
          a.variants[i].variant in targets && targets[a.variants[i].variant] == TargetOf(a.variants[i], a, states))
  }

  /** No decision on its way: nothing is desired, or what is desired is there. */
  ghost predicate Free(s: VariantState) {
    s.desired == 0 || s.desired == s.current
  }

  /** Index of the variant to grow, the number of variants if there is none. */
  method FindCheapest(vas: seq<VariantAnalysis>, states: seq<VariantState>) returns (best: nat)
    requires DistinctVariants(vas)
    ensures best <= |vas|
    ensures best < |vas| ==>
              && Free(StateOf(states, vas[best].variant))
              && forall j :: 0 <= j < |vas| && j != best && Free(StateOf(states, vas[j].variant)) ==>
                   vas[best].cost < vas[j].cost || (vas[best].cost == vas[j].cost && vas[best].variant < vas[j].variant)
    ensures best < |vas| ==> ChosenToGrow(vas[best], vas, states)
    ensures best == |vas| ==> forall i :: 0 <= i < |vas| ==> !CanGrow(vas[i], states)
  {
    best := |vas|;
    for i := 0 to |vas|
      invariant best < i || best == |vas|
      invariant best < |vas| ==> CanGrow(vas[best], states)
      invariant best < |vas| ==> forall j :: 0 <= j < i && j != best && CanGrow(vas[j], states) ==> CheaperThan(vas[best], vas[j])
      invariant best == |vas| ==> forall j :: 0 <= j < i ==> !CanGrow(vas[j], states)
    {
      if CanGrow(vas[i], states) && (best == |vas| || CheaperThan(vas[i], vas[best])) {
        best := i;
      }
    }
  }

  /** Index of the variant to shrink, the number of variants if there is none. */
  method FindDearest(vas: seq<VariantAnalysis>, states: seq<VariantState>) returns (best: nat)
    requires DistinctVariants(vas)
    ensures best <= |vas|
    ensures best < |vas| ==>
              && Free(StateOf(states, vas[best].variant)) && 2 <= vas[best].replicaCount
              && forall j :: 0 <= j < |vas| && j != best && Free(StateOf(states, vas[j].variant)) && 2 <= vas[j].replicaCount ==>
                   vas[best].cost > vas[j].cost || (vas[best].cost == vas[j].cost && vas[best].variant > vas[j].variant)
    ensures best < |vas| ==> ChosenToShrink(vas[best], vas, states)
    ensures best == |vas| ==> forall i :: 0 <= i < |vas| ==> !CanShrink(vas[i], states)
  {
    best := |vas|;
    for i := 0 to |vas|
      invariant best < i || best == |vas|
      invariant best < |vas| ==> CanShrink(vas[best], states)
      invariant best < |vas| ==> forall j :: 0 <= j < i && j != best && CanShrink(vas[j], states) ==> DearerThan(vas[best], vas[j])
      invariant best == |vas| ==> forall j :: 0 <= j < i ==> !CanShrink(vas[j], states)
    {
      if CanShrink(vas[i], states) && (best == |vas| || DearerThan(vas[i], vas[best])) {
        best := i;
      }
    }
  }

  /** Last state per variant. */
  method BuildStateMap(states: seq<VariantState>) returns (m: map<Name, VariantState>)
    ensures forall v :: v in m <==> exists i :: 0 <= i < |states| && states[i].variant == v
    ensures forall v :: (if v in m then m[v] else VariantState(v, 0, 0)) == StateOf(states, v)
  {
    m := map[];
    for i := 0 to |states|
      invariant forall v :: v in m <==> exists j :: 0 <= j < i && states[j].variant == v
      invariant forall v :: (if v in m then m[v] else VariantState(v, 0, 0)) == StateOf(states[..i], v)
    {
      assert states[..i + 1][..i] == states[..i];
      m := m[states[i].variant := states[i]];
    }
    assert states[..|states|] == states;
  }

  /** At most one variant is chosen. */
  lemma ChosenOnce(a: VariantAnalysis, b: VariantAnalysis, vas: seq<VariantAnalysis>, states: seq<VariantState>)
    requires DistinctVariants(vas)
    ensures ChosenToGrow(a, vas, states) && ChosenToGrow(b, vas, states) ==> a == b
    ensures ChosenToShrink(a, vas, states) && ChosenToShrink(b, vas, states) ==> a == b
  {
    if a in vas && b in vas {
      var i :| 0 <= i < |vas| && vas[i] == a;
      var j :| 0 <= j < |vas| && vas[j] == b;
      assert i != j ==> a.variant != b.variant;
    }
  }

  /** The target before any capacity action: the decision in flight, or the ready replicas. */
  function Standing(va: VariantAnalysis, states: seq<VariantState>): int {
    var s := StateOf(states, va.variant);
    if InFlight(s) then s.desired else va.replicaCount
  }

  /** Ready replicas first, then the decisions in flight. */
  method StandingTargets(vas: seq<VariantAnalysis>, states: seq<VariantState>, stateMap: map<Name, VariantState>)
    returns (targets: map<Name, int>)
    requires DistinctVariants(vas)
    requires forall v :: (if v in stateMap then stateMap[v] else VariantState(v, 0, 0)) == StateOf(states, v)
    ensures forall v :: v in targets <==> Named(vas, v)
    ensures forall i :: 0 <= i < |vas| ==> vas[i].variant in targets && targets[vas[i].variant] == Standing(vas[i], states)
  {
    hide StateOf, Named;
    targets := map[];
    NoneNamed();
    assert vas[..0] == [];
    for i := 0 to |vas|
      invariant forall v :: v in targets <==> Named(vas[..i], v)
      invariant forall j :: 0 <= j < i ==> vas[j].variant in targets && targets[vas[j].variant] == vas[j].replicaCount
    {
      NamedStep(vas, i);
      ghost var before := targets;
      targets := targets[vas[i].variant := vas[i].replicaCount];
      forall v ensures v in targets <==> Named(vas[..i + 1], v) {
        assert v in before <==> Named(vas[..i], v);
      }
    }
    assert vas[..|vas|] == vas;
    for i := 0 to |vas|
      invariant forall v :: v in targets <==> Named(vas, v)
      invariant forall j :: 0 <= j < |vas| ==> vas[j].variant in targets
      invariant forall j :: 0 <= j < i ==> targets[vas[j].variant] == Standing(vas[j], states)
      invariant forall j :: i <= j < |vas| ==> targets[vas[j].variant] == vas[j].replicaCount
    {
      var state := if vas[i].variant in stateMap then stateMap[vas[i].variant] else VariantState(vas[i].variant, 0, 0);
      if InFlight(state) {
        targets := targets[vas[i].variant := state.desired];
      }
    }
  }

  lemma NoneNamed()
    ensures forall v :: !Named([], v)
  {
  }

  /** Targets from ready replicas, with decisions in flight preserved and at most one variant moved.
      Without any analyzed variant every target is the current count. */
  method CalculateCapacityTargets(analysis: Option<ModelAnalysis>, states: seq<VariantState>) returns (targets: map<Name, int>)
    requires analysis.Some? ==> DistinctVariants(analysis.value.variants)
    ensures analysis.None? || analysis.value.variants == [] ==>
              && (forall v :: v in targets <==> exists i :: 0 <= i < |states| && states[i].variant == v)
              && (forall v :: v in targets ==> targets[v] == StateOf(states, v).current)
    ensures analysis.Some? && analysis.value.variants != [] ==> TargetsMeet(targets, analysis.value, states)
  {
    hide StateOf, Named, CanGrow, CanShrink, ChosenToGrow, ChosenToShrink;
    var stateMap := BuildStateMap(states);
    if analysis.None? || |analysis.value.variants| == 0 {
      targets := map v | v in stateMap :: stateMap[v].current;
      return;
    }
    var a, vas := analysis.value, analysis.value.variants;
    targets := StandingTargets(vas, states, stateMap);
    ghost var standing := targets;
    if a.shouldScaleUp {
      var best := FindCheapest(vas, states);
      if best < |vas| {
        targets := targets[vas[best].variant := vas[best].replicaCount + 1];
      }
      forall i | 0 <= i < |vas| ensures targets[vas[i].variant] == TargetOf(vas[i], a, states) {
        GrowTarget(a, states, best, i);
      }
      MovedNamed(vas, best, standing, targets);
    } else if a.scaleDownSafe {
      var best := FindDearest(vas, states);
      if best < |vas| {
        targets := targets[vas[best].variant := vas[best].replicaCount - 1];
      }
      forall i | 0 <= i < |vas| ensures targets[vas[i].variant] == TargetOf(vas[i], a, states) {
        ShrinkTarget(a, states, best, i);
      }
      MovedNamed(vas, best, standing, targets);
    }
  }

  lemma MovedNamed(vas: seq<VariantAnalysis>, best: nat, before: map<Name, int>, after: map<Name, int>)
    requires forall v :: v in before <==> Named(vas, v)
    requires best < |vas| ==> after.Keys == before.Keys + {vas[best].variant}
    requires best >= |vas| ==> after == before
    ensures forall v :: v in after <==> Named(vas, v)
  {
    if best < |vas| {
      assert Named(vas, vas[best].variant);
    }
  }

  lemma NamedStep(vas: seq<VariantAnalysis>, i: nat)
    requires i < |vas|
    ensures forall v :: Named(vas[..i + 1], v) <==> Named(vas[..i], v) || v == vas[i].variant
  {
    var a, b := vas[..i], vas[..i + 1];
    forall v | Named(b, v) && v != vas[i].variant ensures Named(a, v) {
      var j :| 0 <= j < |b| && b[j].variant == v;
      assert a[j].variant == v;
    }
    forall v | Named(a, v) ensures Named(b, v) {
      var j :| 0 <= j < |a| && a[j].variant == v;
      assert b[j].variant == v;
    }
    assert b[i].variant == vas[i].variant;
  }

  lemma GrowTarget(a: ModelAnalysis, states: seq<VariantState>, best: nat, i: nat)
    requires a.shouldScaleUp && DistinctVariants(a.variants) && i < |a.variants| && best <= |a.variants|
    requires best < |a.variants| ==> ChosenToGrow(a.variants[best], a.variants, states)
    requires best == |a.variants| ==> forall j :: 0 <= j < |a.variants| ==> !CanGrow(a.variants[j], states)
    ensures var va := a.variants[i];
            TargetOf(va, a, states) == if InFlight(StateOf(states, va.variant)) then StateOf(states, va.variant).desired
                                       else if i == best then va.replicaCount + 1 else va.replicaCount
    ensures best < |a.variants| ==> !InFlight(StateOf(states, a.variants[best].variant))
  {
    var va := a.variants[i];
    if best < |a.variants| {
      ChosenOnce(va, a.variants[best], a.variants, states);
    }
  }

  lemma ShrinkTarget(a: ModelAnalysis, states: seq<VariantState>, best: nat, i: nat)
    requires !a.shouldScaleUp && a.scaleDownSafe && DistinctVariants(a.variants) && i < |a.variants| && best <= |a.variants|
    requires best < |a.variants| ==> ChosenToShrink(a.variants[best], a.variants, states)
    requires best == |a.variants| ==> forall j :: 0 <= j < |a.variants| ==> !CanShrink(a.variants[j], states)
    ensures var va := a.variants[i];
            TargetOf(va, a, states) == if InFlight(StateOf(states, va.variant)) then StateOf(states, va.variant).desired
                                       else if i == best then va.replicaCount - 1 else va.replicaCount
    ensures best < |a.variants| ==> !InFlight(StateOf(states, a.variants[best].variant))
  {
    var va := a.variants[i];
    if best < |a.variants| {
      ChosenOnce(va, a.variants[best], a.variants, states);
    }
  }

  /** The targets do not depend on the order of the variant analyses. */
  lemma TargetsIgnoreOrder(t: map<Name, int>, t': map<Name, int>, a: ModelAnalysis, a': ModelAnalysis, states: seq<VariantState>)
    requires TargetsMeet(t, a, states) && TargetsMeet(t', a', states)
    requires a.shouldScaleUp == a'.shouldScaleUp && a.scaleDownSafe == a'.scaleDownSafe
    requires forall va :: va in a.variants <==> va in a'.variants
    ensures t == t'
  {
    forall va | va in a.variants
      ensures va.variant in t && va.variant in t' && t[va.variant] == t'[va.variant]
    {
      var i :| 0 <= i < |a.variants| && a.variants[i] == va;
      var j :| 0 <= j < |a'.variants| && a'.variants[j] == va;
      assert ChosenToGrow(va, a.variants, states) == ChosenToGrow(va, a'.variants, states);
      assert ChosenToShrink(va, a.variants, states) == ChosenToShrink(va, a'.variants, states);
    }
    forall v | v in t ensures v in t' && t[v] == t'[v] {
      var i :| 0 <= i < |a.variants| && a.variants[i].variant == v;
      assert a.variants[i] in a.variants;
    }
    forall v | v in t' ensures v in t {
      var i :| 0 <= i < |a'.variants| && a'.variants[i].variant == v;
      assert a'.variants[i] in a.variants;
    }
  }

  /** Apart from decisions in flight at most one variant moves away from its ready replicas, by
      exactly one: up under pressure, down only when that is safe. */
  lemma AtMostOneMoves(a: ModelAnalysis, states: seq<VariantState>, x: VariantAnalysis, y: VariantAnalysis)
    requires DistinctVariants(a.variants) && x in a.variants && y in a.variants
    requires !InFlight(StateOf(states, x.variant)) && TargetOf(x, a, states) != x.replicaCount
    ensures TargetOf(x, a, states) == x.replicaCount + (if a.shouldScaleUp then 1 else -1)
    ensures !a.shouldScaleUp ==> a.scaleDownSafe && x.replicaCount >= 2
    ensures !InFlight(StateOf(states, y.variant)) && TargetOf(y, a, states) != y.replicaCount ==> x == y
  {
    ChosenOnce(x, y, a.variants, states);
  }

  /** The state of a variant is the last one given for it. */
  lemma {:induction false} StateInFigures(states: seq<VariantState>, v: Name, i: nat)
    requires i <= |states| && (forall j :: i <= j < |states| ==> states[j].variant != v)
    requires i > 0 ==> states[i - 1].variant == v
    ensures StateOf(states, v) == if i == 0 then VariantState(v, 0, 0) else states[i - 1]
  {
    if i < |states| {
      StateInFigures(states[..|states| - 1], v, i);
    }
  }

  /** The variant that grows: nothing on its way, and cheaper than every other such variant, or as
      cheap with an earlier name. */
  ghost predicate CheapestFree(vas: seq<VariantAnalysis>, states: seq<VariantState>, i: nat)
    requires i < |vas|
  {
    && Free(StateOf(states, vas[i].variant))
    && forall j :: 0 <= j < |vas| && j != i && Free(StateOf(states, vas[j].variant)) ==>
         vas[i].cost < vas[j].cost || (vas[i].cost == vas[j].cost && vas[i].variant < vas[j].variant)
  }

  /** The variant that shrinks: nothing on its way, two ready replicas, and dearer than every other
      such variant, or as dear with a later name. */
  ghost predicate DearestFree(vas: seq<VariantAnalysis>, states: seq<VariantState>, i: nat)
    requires i < |vas|
  {
    && Free(StateOf(states, vas[i].variant)) && 2 <= vas[i].replicaCount
    && forall j :: 0 <= j < |vas| && j != i && Free(StateOf(states, vas[j].variant)) && 2 <= vas[j].replicaCount ==>
         vas[i].cost > vas[j].cost || (vas[i].cost == vas[j].cost && vas[i].variant > vas[j].variant)
  }

  /** Every target, from costs, names, ready counts and states alone. */
  lemma TargetsInFigures(targets: map<Name, int>, a: ModelAnalysis, states: seq<VariantState>, i: nat)
    requires DistinctVariants(a.variants) && TargetsMeet(targets, a, states) && i < |a.variants|
    ensures var va, s := a.variants[i], StateOf(states, a.variants[i].variant);
            && va.variant in targets
            && targets[va.variant] ==
                 if !Free(s) then s.desired
                 else if a.shouldScaleUp then va.replicaCount + (if CheapestFree(a.variants, states, i) then 1 else 0)
                 else if a.scaleDownSafe then va.replicaCount - (if DearestFree(a.variants, states, i) then 1 else 0)
                 else va.replicaCount
  {
    hide StateOf, Named;
    var vas := a.variants;
    var va := vas[i];
    assert targets[va.variant] == TargetOf(va, a, states);
    forall j | 0 <= j < |vas| && j != i ensures vas[j].variant != va.variant {
    }
    assert ChosenToGrow(va, vas, states) <==> CheapestFree(vas, states, i) by {
      forall b | b in vas && b.variant != va.variant ensures exists j :: 0 <= j < |vas| && j != i && vas[j] == b {
        var j :| 0 <= j < |vas| && vas[j] == b;
      }
    }
    assert ChosenToShrink(va, vas, states) <==> DearestFree(vas, states, i) by {
      forall b | b in vas && b.variant != va.variant ensures exists j :: 0 <= j < |vas| && j != i && vas[j] == b {
        var j :| 0 <= j < |vas| && vas[j] == b;
      }
    }
  }

  /** A case: two settled variants of two ready replicas each, at costs 5 and 20.  Under pressure the
      cheap one grows. */
  lemma CheapGrows(targets: map<Name, int>, a: ModelAnalysis)
    requires |a.variants| == 2 && a.shouldScaleUp
    requires a.variants[0].variant == 1 && a.variants[0].cost == 5.0 && a.variants[0].replicaCount == 2
    requires a.variants[1].variant == 2 && a.variants[1].cost == 20.0 && a.variants[1].replicaCount == 2
    requires TargetsMeet(targets, a, [])
    ensures 1 in targets && targets[1] == 3 && 2 in targets && targets[2] == 2
  {
    hide TargetsMeet;
    TargetsInFigures(targets, a, [], 0);
    TargetsInFigures(targets, a, [], 1);
    assert Free(StateOf([], a.variants[0].variant));
    assert !CheapestFree(a.variants, [], 1);
  }

  /** Exactly when a variant is asked to have fewer replicas than it has now.  Targets start from the
      ready replicas, so apart from a decision in flight it takes no safe removal: replicas that are
      not ready are enough. */
  lemma AsksForFewer(va: VariantAnalysis, a: ModelAnalysis, states: seq<VariantState>)
    ensures var s := StateOf(states, va.variant);
            var grows := a.shouldScaleUp && ChosenToGrow(va, a.variants, states);
            var shrinks := !a.shouldScaleUp && a.scaleDownSafe && ChosenToShrink(va, a.variants, states);
            TargetOf(va, a, states) < s.current <==>
              if InFlight(s) then s.desired < s.current
              else if grows then va.replicaCount + 1 < s.current
              else if shrinks then va.replicaCount <= s.current
              else va.replicaCount < s.current
  {
  }

  /** A case: three replicas of which one is ready, no removal safe, no decision in flight.  The target
      is one. */
  lemma UnreadyLowersTarget(va: VariantAnalysis, a: ModelAnalysis)
    requires va.variant == 1 && va.replicaCount == 1 && !a.shouldScaleUp && !a.scaleDownSafe
    ensures TargetOf(va, a, [VariantState(1, 3, 3)]) == 1 && TargetOf(va, a, [VariantState(1, 3, 0)]) == 1
  {
    assert StateOf([VariantState(1, 3, 3)], 1) == VariantState(1, 3, 3);
    assert StateOf([VariantState(1, 3, 0)], 1) == VariantState(1, 3, 0);
  }

  // ---- Arbitration ----

  datatype Action = ScaleUp | ScaleDown | NoChange

  datatype Decision = Decision(
    variant: Name, accelerator: Name, cost: real, action: Action, current: int, target: int, desired: int,
    capacityBased: bool, modelBased: bool, safetyOverride: bool, capacityOnly: bool)

  function ActionFor(target: int, current: int): Action {
    if target > current then ScaleUp else if target < current then ScaleDown else NoChange
  }

  /** The hybrid decision matrix for one variant. */
  function ArbitrateVariant(analysis: Option<ModelAnalysis>, va: Option<VariantAnalysis>, state: VariantState,
                            capacityTarget: int, modelTarget: int): Decision {
    var base := Decision(state.variant,
                         if va.Some? then va.value.accelerator else 0,
                         if va.Some? then va.value.cost else 0.0,
                         NoChange, state.current, state.current, state.desired, false, false, false, false);
    var byCapacity, byModel := ActionFor(capacityTarget, state.current), ActionFor(modelTarget, state.current);
    if byCapacity == ScaleUp && byModel == ScaleDown then
      base.(safetyOverride := true, capacityBased := true, modelBased := true)
    else if byModel == ScaleDown && analysis.Some? && !analysis.value.scaleDownSafe then
      base.(safetyOverride := true, capacityBased := true, modelBased := true)
    else if byCapacity == ScaleUp && byModel == NoChange then
      base.(action := ScaleUp, target := capacityTarget, capacityBased := true)
    else if byModel == ScaleUp || byModel == ScaleDown then
      base.(action := byModel, target := modelTarget, modelBased := true)
    else base
  }

  /** Replicas are taken away exactly when the optimizer asks for it, capacity does not ask for more,
      and the analysis, if there is one, calls it safe; the action always tells the direction, and an
      override is reported exactly when a reduction was held back. */
  lemma ArbitrationIsSafe(analysis: Option<ModelAnalysis>, va: Option<VariantAnalysis>, state: VariantState,
                          capacityTarget: int, modelTarget: int)
    ensures var d := ArbitrateVariant(analysis, va, state, capacityTarget, modelTarget);
            && d.action == ActionFor(d.target, state.current)
            && (d.target < state.current <==>
                  && modelTarget < state.current && capacityTarget <= state.current
                  && (analysis.Some? ==> analysis.value.scaleDownSafe))
            && (d.target < state.current ==> d.target == modelTarget)
            && (d.safetyOverride <==> modelTarget < state.current && d.target == state.current)
            && (d.target > state.current <==>
                  modelTarget > state.current || (modelTarget == state.current && capacityTarget > state.current))
            && (d.target > state.current ==> d.target == if modelTarget > state.current then modelTarget else capacityTarget)
            && (d.modelBased <==> modelTarget != state.current)
            && (d.capacityBased <==> d.safetyOverride || (modelTarget == state.current && capacityTarget > state.current))
            && !d.capacityOnly
            && d.variant == state.variant && d.current == state.current && d.desired == state.desired
            && (va.Some? ==> d.accelerator == va.value.accelerator && d.cost == va.value.cost)
            && (d.action == ScaleUp <==> d.target > state.current) && (d.action == ScaleDown <==> d.target < state.current)
  {
  }

  /** Whether a running variant keeps a replica: it does not exactly when the optimizer names no
      positive count for it (a missing target reads as zero), capacity does not object, and the
      reduction is safe. */
  lemma ArbitrationKeepsOne(analysis: ModelAnalysis, va: Option<VariantAnalysis>, state: VariantState,
                            capacityTarget: int, modelTarget: int)
    requires 1 <= state.current && 1 <= capacityTarget
    ensures ArbitrateVariant(Some(analysis), va, state, capacityTarget, modelTarget).target >= 1
       <==> !(modelTarget <= 0 && capacityTarget <= state.current && analysis.scaleDownSafe)
  {
  }

  /** A variant arbitrated to nothing: four lightly loaded replicas, a capacity target of three, and
      an optimizer whose targets do not mention the variant. */
  lemma AbsentTargetStopsVariant(va: VariantAnalysis, modelTargets: map<Name, int>)
    requires va.variant == 1 && 1 !in modelTargets
    ensures var analysis := ModelAnalysis(4, 4, 0.5, 4.0, false, false, true, [va]);
            var d := ArbitrateVariant(Some(analysis), Some(va), VariantState(1, 4, 4),
                                      CountIn(map[1 := 3], 1), CountIn(modelTargets, 1));
            d.action == ScaleDown && d.target == 0 && !d.safetyOverride
  {
    var analysis := ModelAnalysis(4, 4, 0.5, 4.0, false, false, true, [va]);
    ArbitrationKeepsOne(analysis, Some(va), VariantState(1, 4, 4), CountIn(map[1 := 3], 1), CountIn(modelTargets, 1));
  }

  /** The analysis of a variant by name, the last one given. */
  function AnalysisOf(vas: seq<VariantAnalysis>, v: Name): Option<VariantAnalysis> {
    if vas == [] then None
    else if vas[|vas| - 1].variant == v then Some(vas[|vas| - 1])
    else AnalysisOf(vas[..|vas| - 1], v)
  }

  method BuildAnalysisMap(vas: seq<VariantAnalysis>) returns (m: map<Name, VariantAnalysis>)
    ensures forall v :: (if v in m then Some(m[v]) else None) == AnalysisOf(vas, v)
  {
    m := map[];
    for i := 0 to |vas|
      invariant forall v :: (if v in m then Some(m[v]) else None) == AnalysisOf(vas[..i], v)
    {
      assert vas[..i + 1][..i] == vas[..i];
      m := m[vas[i].variant := vas[i]];
    }
    assert vas[..|vas|] == vas;
  }

  /** One arbitrated decision per state, in order. */
  method ArbitrateWithModelBased(analysis: Option<ModelAnalysis>, capacityTargets: map<Name, int>,
                                 modelTargets: map<Name, int>, states: seq<VariantState>) returns (decisions: seq<Decision>)
    ensures |decisions| == |states|
    ensures forall i :: 0 <= i < |states| ==>
              decisions[i] == ArbitrateVariant(analysis,
                                               if analysis.Some? then AnalysisOf(analysis.value.variants, states[i].variant) else None,
                                               states[i],
                                               CountIn(capacityTargets, states[i].variant),
                                               CountIn(modelTargets, states[i].variant))
  {
    hide ArbitrateVariant;
    var analyses: map<Name, VariantAnalysis> := map[];
    if analysis.Some? {
      analyses := BuildAnalysisMap(analysis.value.variants);
    }
    decisions := [];
    for i := 0 to |states|
      invariant |decisions| == i
      invariant forall j :: 0 <= j < i ==>
                  decisions[j] == ArbitrateVariant(analysis,
                                                   if analysis.Some? then AnalysisOf(analysis.value.variants, states[j].variant) else None,
                                                   states[j],
                                                   CountIn(capacityTargets, states[j].variant),
                                                   CountIn(modelTargets, states[j].variant))
    {
      var s := states[i];
      var va := if s.variant in analyses then Some(analyses[s.variant]) else None;
      decisions := decisions + [ArbitrateVariant(analysis, va, s, CountIn(capacityTargets, s.variant), CountIn(modelTargets, s.variant))];
    }
  }

  /** Under pressure nobody shrinks: if the load triggers scale-up, no arbitrated decision goes below
      the current count, whatever the optimizer wants. */
  lemma PressureBlocksShrinking(ms: seq<ReplicaMetrics>, cfg: ScalingConfig, a: ModelAnalysis,
                                va: Option<VariantAnalysis>, state: VariantState, capacityTarget: int, modelTarget: int)
    requires NonNegativeLoads(ms) && ModelDescribed(a, ms, cfg) && a.shouldScaleUp
    ensures ArbitrateVariant(Some(a), va, state, capacityTarget, modelTarget).target >= state.current
  {
    hide Pressed, RemovalSafe, TotalLoad;
    if RemovalSafe(TotalLoad(ms, cfg), cfg) {
      SafeExcludesScaleUp(ms, cfg);
    }
  }
}
