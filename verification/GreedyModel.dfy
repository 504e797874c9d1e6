/** The system the solver works on, candidate allocations, and the accounting of accelerator units:
    what is available, what servers hold, and the law that the two always add up to capacity. */
module GreedyModel {
  import opened Basics

  datatype Accelerator = Accelerator(kind: Name, multiplicity: int, cost: real)

  /** A candidate or chosen allocation of an accelerator to a server. */
  datatype Allocation = Allocation(accelerator: Name, numReplicas: int, cost: real, value: real)

  datatype Server = Server(model: Name, priority: int, candidates: map<Name, Allocation>)

  datatype System = System(
    accelerators: map<Name, Accelerator>,
    models: map<Name, map<Name, int>>, // accelerator instances needed per model
    servers: map<Name, Server>,
    capacity: map<Name, int>)          // units per accelerator kind

  /** Server, model and accelerator of an allocation all exist. */
  predicate Known(sys: System, s: Name, a: Allocation) {
    && s in sys.servers
    && sys.servers[s].model in sys.models
    && a.accelerator in sys.accelerators
  }

  function Kind(sys: System, s: Name, a: Allocation): Name
    requires Known(sys, s, a)
  {
    sys.accelerators[a.accelerator].kind
  }

  function Instances(sys: System, s: Name, a: Allocation): int
    requires Known(sys, s, a)
  {
    CountIn(sys.models[sys.servers[s].model], a.accelerator)
  }

  function UnitsPerReplica(sys: System, s: Name, a: Allocation): int
    requires Known(sys, s, a)
  {
    Instances(sys, s, a) * sys.accelerators[a.accelerator].multiplicity
  }

  /** Units of its accelerator kind that an allocation takes. */
  function Units(sys: System, s: Name, a: Allocation): int
    requires Known(sys, s, a)
  {
    a.numReplicas * UnitsPerReplica(sys, s, a)
  }

  /** Counts in the system are not negative. */
  ghost predicate WellFormed(sys: System) {
    && (forall k :: k in sys.capacity ==> 0 <= sys.capacity[k])
    && (forall g :: g in sys.accelerators ==> 0 <= sys.accelerators[g].multiplicity)
    && (forall m :: m in sys.models ==> NonNegativeCounts(sys.models[m]))
    && (forall s :: s in sys.servers ==> CandidatesOk(sys, s))
  }

  ghost predicate NonNegativeCounts(m: map<Name, int>) {
    forall g :: g in m ==> 0 <= m[g]
  }

  ghost predicate CandidatesOk(sys: System, s: Name)
    requires s in sys.servers
  {
    forall g :: g in sys.servers[s].candidates ==> Priced(sys, s, sys.servers[s].candidates[g])
  }

  /** A non-negative number of replicas at the price of their accelerators. */
  ghost predicate Priced(sys: System, s: Name, a: Allocation) {
    && 0 <= a.numReplicas
    && (Known(sys, s, a) ==>
          a.cost == sys.accelerators[a.accelerator].cost * (Instances(sys, s, a) * a.numReplicas) as real)
  }

  lemma UnitsPerReplicaNonNegative(sys: System, s: Name, a: Allocation)
    requires WellFormed(sys) && Known(sys, s, a)
    ensures 0 <= UnitsPerReplica(sys, s, a)
  {
    assert NonNegativeCounts(sys.models[sys.servers[s].model]);
  }

  lemma UnitsNonNegative(sys: System, s: Name, a: Allocation)
    requires WellFormed(sys) && Known(sys, s, a) && 0 <= a.numReplicas
    ensures 0 <= Units(sys, s, a)
  {
    UnitsPerReplicaNonNegative(sys, s, a);
  }

  // ---- Accounting ----

  datatype Store = Store(available: map<Name, int>, allocations: map<Name, Allocation>)

  /** Units of `kind` held by server `s`. */
  function Held(sys: System, allocations: map<Name, Allocation>, s: Name, kind: Name): int {
    if s in allocations && Known(sys, s, allocations[s]) && Kind(sys, s, allocations[s]) == kind
    then Units(sys, s, allocations[s]) else 0
  }

  /** Units of `kind` held by a set of servers together. */
  ghost function HeldBy(sys: System, allocations: map<Name, Allocation>, names: set<Name>, kind: Name): int {
    if names == {} then 0
    else
      var s :| s in names;
      Held(sys, allocations, s, kind) + HeldBy(sys, allocations, names - {s}, kind)
  }

  /** The sum does not depend on the order in which servers are visited. */
  lemma {:induction false} HeldByPick(sys: System, allocations: map<Name, Allocation>, names: set<Name>, s: Name, kind: Name)
    requires s in names
    ensures HeldBy(sys, allocations, names, kind)
         == Held(sys, allocations, s, kind) + HeldBy(sys, allocations, names - {s}, kind)
    decreases |names|
  {
    var t :| t in names
      && HeldBy(sys, allocations, names, kind)
         == Held(sys, allocations, t, kind) + HeldBy(sys, allocations, names - {t}, kind);
    if s != t {
      HeldByPick(sys, allocations, names - {t}, s, kind);
      HeldByPick(sys, allocations, names - {s}, t, kind);
      assert names - {t} - {s} == names - {s} - {t};
    }
  }

  lemma {:induction false} HeldByFrame(sys: System, a: map<Name, Allocation>, b: map<Name, Allocation>, names: set<Name>, kind: Name)
    requires forall s :: s in names ==> Held(sys, a, s, kind) == Held(sys, b, s, kind)
    ensures HeldBy(sys, a, names, kind) == HeldBy(sys, b, names, kind)
    decreases |names|
  {
    if names != {} {
      var s :| s in names;
      HeldByPick(sys, a, names, s, kind);
      HeldByPick(sys, b, names, s, kind);
      HeldByFrame(sys, a, b, names - {s}, kind);
    }
  }

  ghost function Used(sys: System, allocations: map<Name, Allocation>, kind: Name): int {
    HeldBy(sys, allocations, allocations.Keys, kind)
  }

  /** For one kind: nothing is overdrawn, and what is left plus what is held is the capacity. */
  ghost predicate Balanced(sys: System, st: Store, kind: Name) {
    && 0 <= CountIn(st.available, kind)
    && CountIn(st.available, kind) + Used(sys, st.allocations, kind) == CountIn(sys.capacity, kind)
  }

  ghost predicate Conserved(sys: System, st: Store) {
    forall kind :: Balanced(sys, st, kind)
  }

  /** Takes `units` of `kind` and gives `a` to server `s`. */
  function Grant(st: Store, s: Name, a: Allocation, kind: Name, units: int): Store {
    Store(st.available[kind := CountIn(st.available, kind) - units], st.allocations[s := a])
  }

  /** Changing what one server holds changes the total by the difference. */
  lemma UsedUpdate(sys: System, allocations: map<Name, Allocation>, s: Name, a: Allocation, kind: Name)
    ensures Used(sys, allocations[s := a], kind)
         == Used(sys, allocations, kind) - Held(sys, allocations, s, kind) + Held(sys, allocations[s := a], s, kind)
  {
    var after := allocations[s := a];
    HeldByPick(sys, after, after.Keys, s, kind);
    var others := allocations.Keys - {s};
    assert after.Keys - {s} == others;
    HeldByFrame(sys, after, allocations, others, kind);
    if s in allocations {
      HeldByPick(sys, allocations, allocations.Keys, s, kind);
    } else {
      assert others == allocations.Keys;
    }
  }

  /** Granting to a server that holds nothing keeps the balance. */
  lemma GrantConserves(sys: System, st: Store, s: Name, a: Allocation)
    requires Conserved(sys, st)
    requires s !in st.allocations && Known(sys, s, a)
    requires Units(sys, s, a) <= CountIn(st.available, Kind(sys, s, a))
    ensures Conserved(sys, Grant(st, s, a, Kind(sys, s, a), Units(sys, s, a)))
  {
    var kind := Kind(sys, s, a);
    var st' := Grant(st, s, a, kind, Units(sys, s, a));
    forall k ensures Balanced(sys, st', k) {
      assert Balanced(sys, st, k);
      UsedUpdate(sys, st.allocations, s, a, k);
    }
  }

  /** Availability never grows. */
  ghost predicate NoMore(before: map<Name, int>, after: map<Name, int>) {
    forall k :: CountIn(after, k) <= CountIn(before, k)
  }

  /** The balance at the start: nothing held, everything available. */
  lemma InitiallyConserved(sys: System)
    requires WellFormed(sys)
    ensures Conserved(sys, Store(sys.capacity, map[]))
  {
    var st := Store(sys.capacity, map[]);
    forall k ensures Balanced(sys, st, k) {
    }
  }

  // ---- Units in figures: what is looked up where ----

  /** An allocation can be looked up when its server, the server's model and its accelerator exist; a
      replica then takes the model's instances on that accelerator times the accelerator's multiplicity,
      in units of the accelerator's kind. */
  lemma UnitsInFigures(sys: System, s: Name, a: Allocation)
    ensures Known(sys, s, a) <==> s in sys.servers && sys.servers[s].model in sys.models && a.accelerator in sys.accelerators
    ensures Known(sys, s, a) ==>
              var instances, acc := sys.models[sys.servers[s].model], sys.accelerators[a.accelerator];
              && Kind(sys, s, a) == acc.kind
              && UnitsPerReplica(sys, s, a) == (if a.accelerator in instances then instances[a.accelerator] else 0) * acc.multiplicity
              && Units(sys, s, a) == a.numReplicas * UnitsPerReplica(sys, s, a)
  {
  }

  /** What a server holds of a kind: replicas times instances times multiplicity, if its allocation can be
      looked up and is of that kind. */
  lemma HeldInFigures(sys: System, allocations: map<Name, Allocation>, s: Name, kind: Name)
    ensures Held(sys, allocations, s, kind) ==
              if s in allocations && s in sys.servers && sys.servers[s].model in sys.models
                 && allocations[s].accelerator in sys.accelerators
                 && sys.accelerators[allocations[s].accelerator].kind == kind
              then allocations[s].numReplicas
                   * (CountIn(sys.models[sys.servers[s].model], allocations[s].accelerator)
                      * sys.accelerators[allocations[s].accelerator].multiplicity)
              else 0
  {
  }

  ghost function Total(xs: seq<int>): int {
    if xs == [] then 0 else xs[0] + Total(xs[1..])
  }

  /** Conservation in figures.  For any list of distinct servers among which are all that hold something,
      and the units of a kind that each holds: what is left and the sum of these are the capacity. */
  lemma ConservedInFigures(sys: System, st: Store, kind: Name, names: seq<Name>, units: seq<int>)
    requires Conserved(sys, st)
    requires forall i, j :: 0 <= i < j < |names| ==> names[i] != names[j]
    requires forall s :: s in st.allocations ==> s in names
    requires |units| == |names| && forall i :: 0 <= i < |names| ==> units[i] == Held(sys, st.allocations, names[i], kind)
    ensures 0 <= (if kind in st.available then st.available[kind] else 0)
    ensures (if kind in st.available then st.available[kind] else 0) + Total(units)
         == if kind in sys.capacity then sys.capacity[kind] else 0
  {
    hide Held, HeldBy, Conserved;
    assert Balanced(sys, st, kind) by {
      BalancedFor(sys, st, kind);
    }
    var all := set i | 0 <= i < |names| :: names[i];
    HeldByList(sys, st.allocations, kind, names, units);
    HeldBySuperset(sys, st.allocations, all, kind);
  }

  lemma BalancedFor(sys: System, st: Store, kind: Name)
    requires Conserved(sys, st)
    ensures Balanced(sys, st, kind)
  {
  }

  lemma {:induction false} HeldByList(sys: System, allocations: map<Name, Allocation>, kind: Name, names: seq<Name>, units: seq<int>)
    requires forall i, j :: 0 <= i < j < |names| ==> names[i] != names[j]
    requires |units| == |names| && forall i :: 0 <= i < |names| ==> units[i] == Held(sys, allocations, names[i], kind)
    ensures HeldBy(sys, allocations, set i | 0 <= i < |names| :: names[i], kind) == Total(units)
  {
    hide Held;
    var all := set i | 0 <= i < |names| :: names[i];
    if names == [] {
      assert all == {};
    } else {
      var rest := names[1..];
      HeldByList(sys, allocations, kind, rest, units[1..]);
      assert names[0] in all;
      HeldByPick(sys, allocations, all, names[0], kind);
      assert all - {names[0]} == set i | 0 <= i < |rest| :: rest[i] by {
        forall s | s in all - {names[0]} ensures s in (set i | 0 <= i < |rest| :: rest[i]) {
          var i :| 0 <= i < |names| && names[i] == s;
          assert rest[i - 1] == s;
        }
        forall s | s in (set i | 0 <= i < |rest| :: rest[i]) ensures s in all - {names[0]} {
          var i :| 0 <= i < |rest| && rest[i] == s;
          assert names[i + 1] == s;
        }
      }
    }
  }

  /** Servers without an allocation hold nothing. */
  lemma {:induction false} HeldBySuperset(sys: System, allocations: map<Name, Allocation>, names: set<Name>, kind: Name)
    requires allocations.Keys <= names
    ensures HeldBy(sys, allocations, names, kind) == Used(sys, allocations, kind)
    decreases |names|
  {
    if names != allocations.Keys {
      var s :| s in names && s !in allocations;
      HeldByPick(sys, allocations, names, s, kind);
      HeldBySuperset(sys, allocations, names - {s}, kind);
    }
  }
}
