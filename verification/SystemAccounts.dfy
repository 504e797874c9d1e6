/** The system's own recount of what was allocated, by accelerator kind: independent of the solver's
    bookkeeping, and proved to stay within the limits after every greedy solution. */
module SystemAccounts {
  import opened Basics
  import opened GreedyModel
  import opened GreedyAllocate
  import opened GreedyFates
  import opened GreedyOutcome

  /** Totals for one accelerator kind. */
  datatype KindTotals = KindTotals(count: int, limit: int, cost: real)

  ghost predicate Holds(sys: System, allocations: map<Name, Allocation>, s: Name, kind: Name) {
    s in allocations && Known(sys, s, allocations[s]) && Kind(sys, s, allocations[s]) == kind
  }

  function Spent(sys: System, allocations: map<Name, Allocation>, s: Name, kind: Name): real {
    if s in allocations && Known(sys, s, allocations[s]) && Kind(sys, s, allocations[s]) == kind
    then allocations[s].cost else 0.0
  }

  /** Cost of what a set of servers holds of a kind. */
  ghost function SpentBy(sys: System, allocations: map<Name, Allocation>, names: set<Name>, kind: Name): real {
    if names == {} then 0.0
    else
      var s :| s in names;
      Spent(sys, allocations, s, kind) + SpentBy(sys, allocations, names - {s}, kind)
  }

  lemma {:induction false} SpentByPick(sys: System, allocations: map<Name, Allocation>, names: set<Name>, s: Name, kind: Name)
    requires s in names
    ensures SpentBy(sys, allocations, names, kind)
         == Spent(sys, allocations, s, kind) + SpentBy(sys, allocations, names - {s}, kind)
    decreases |names|
  {
    var t :| t in names
      && SpentBy(sys, allocations, names, kind)
         == Spent(sys, allocations, t, kind) + SpentBy(sys, allocations, names - {t}, kind);
    if s != t {
      SpentByPick(sys, allocations, names - {t}, s, kind);
      SpentByPick(sys, allocations, names - {s}, t, kind);
      assert names - {t} - {s} == names - {s} - {t};
    }
  }

  ghost predicate SomeHolds(sys: System, allocations: map<Name, Allocation>, done: set<Name>, kind: Name) {
    exists s :: s in done && Holds(sys, allocations, s, kind)
  }

  /** The totals of one kind are those of the servers in `done`; a kind nobody holds has no totals. */
  ghost predicate KindRecounted(sys: System, allocations: map<Name, Allocation>, done: set<Name>,
                                totals: map<Name, KindTotals>, k: Name) {
    && (k in totals <==> SomeHolds(sys, allocations, done, k))
    && (if k in totals then
          totals[k] == KindTotals(HeldBy(sys, allocations, done, k), CountIn(sys.capacity, k), SpentBy(sys, allocations, done, k))
        else
          HeldBy(sys, allocations, done, k) == 0 && SpentBy(sys, allocations, done, k) == 0.0)
  }

  ghost predicate Recounted(sys: System, allocations: map<Name, Allocation>, done: set<Name>, totals: map<Name, KindTotals>) {
    forall k :: KindRecounted(sys, allocations, done, totals, k)
  }

  class SystemState {
    const sys: System
    var allocations: map<Name, Allocation>
    var allocationByType: map<Name, KindTotals>

    constructor (sys: System, allocations: map<Name, Allocation>)
      ensures this.sys == sys && this.allocations == allocations
    {
      this.sys := sys;
      this.allocations := allocations;
      allocationByType := map[];
    }

    /** Accumulates units and cost by accelerator kind, visiting the servers in any order. */
    method AllocateByType()
      modifies this`allocationByType
      ensures Recounted(sys, allocations, sys.servers.Keys, allocationByType)
    {
      hide Recounted;
      allocationByType := map[];
      var todo := sys.servers.Keys;
      NothingRecounted(sys, allocations);
      ghost var done: set<Name> := {};
      while todo != {}
        invariant todo <= sys.servers.Keys && done == sys.servers.Keys - todo
        invariant Recounted(sys, allocations, done, allocationByType)
        decreases |todo|
      {
        var s :| s in todo;
        todo := todo - {s};
        ghost var before, done' := allocationByType, done + {s};
        if s in allocations {
          var a := allocations[s];
          if a.accelerator in sys.accelerators && sys.servers[s].model in sys.models {
            var kind := sys.accelerators[a.accelerator].kind;
            var t := if kind in allocationByType then allocationByType[kind]
                     else KindTotals(0, CountIn(sys.capacity, kind), 0.0);
            var units := a.numReplicas * (CountIn(sys.models[sys.servers[s].model], a.accelerator)
                                          * sys.accelerators[a.accelerator].multiplicity);
            allocationByType := allocationByType[kind := KindTotals(t.count + units, t.limit, t.cost + a.cost)];
          }
        }
        RecountStep(sys, allocations, done, s, before, allocationByType);
        done := done';
      }
      assert done == sys.servers.Keys;
    }
  }

  lemma NothingRecounted(sys: System, allocations: map<Name, Allocation>)
    ensures Recounted(sys, allocations, {}, map[])
  {
  }

  lemma RecountStep(sys: System, allocations: map<Name, Allocation>, done: set<Name>, s: Name,
                    before: map<Name, KindTotals>, after: map<Name, KindTotals>)
    requires s in sys.servers && s !in done
    requires Recounted(sys, allocations, done, before)
    requires if s in allocations && Known(sys, s, allocations[s])
             then var kind := Kind(sys, s, allocations[s]);
                  var t := if kind in before then before[kind] else KindTotals(0, CountIn(sys.capacity, kind), 0.0);
                  after == before[kind := KindTotals(t.count + Units(sys, s, allocations[s]), t.limit, t.cost + allocations[s].cost)]
             else after == before
    ensures Recounted(sys, allocations, done + {s}, after)
  {
    hide HeldBy, SpentBy, Known, Kind, Units;
    var done' := done + {s};
    assert done' - {s} == done;
    forall k ensures KindRecounted(sys, allocations, done', after, k) {
      assert KindRecounted(sys, allocations, done, before, k);
      HeldByPick(sys, allocations, done', s, k);
      SpentByPick(sys, allocations, done', s, k);
      SomeHoldsStep(sys, allocations, done, s, k);
    }
  }

  lemma SomeHoldsStep(sys: System, allocations: map<Name, Allocation>, done: set<Name>, s: Name, k: Name)
    ensures SomeHolds(sys, allocations, done + {s}, k) <==> Holds(sys, allocations, s, k) || SomeHolds(sys, allocations, done, k)
  {
    if Holds(sys, allocations, s, k) {
      assert s in done + {s};
    } else if SomeHolds(sys, allocations, done, k) {
      var x :| x in done && Holds(sys, allocations, x, k);
      assert x in done + {s};
    }
  }

  /** After a conserving solution the recount of every kind is within its limit, and what the solver
      still had available is exactly the difference. */
  lemma RecountWithinLimits(sys: System, st: Store, totals: map<Name, KindTotals>, kind: Name)
    requires Conserved(sys, st) && st.allocations.Keys <= sys.servers.Keys
    requires Recounted(sys, st.allocations, sys.servers.Keys, totals)
    ensures kind in totals ==>
              && totals[kind].count <= totals[kind].limit
              && totals[kind].limit - totals[kind].count == CountIn(st.available, kind)
    ensures kind !in totals ==> CountIn(st.available, kind) == CountIn(sys.capacity, kind)
  {
    assert Balanced(sys, st, kind);
    assert KindRecounted(sys, st.allocations, sys.servers.Keys, totals, kind);
    HeldBySuperset(sys, st.allocations, sys.servers.Keys, kind);
  }

  /** The recount after any greedy solution, under every policy and timing, is within the limits. */
  lemma GreedyWithinLimits(sys: System, entries: seq<Entry>, left: seq<Entry>, now: Store, policy: Policy,
                           totals: map<Name, KindTotals>, kind: Name)
    requires Handled(sys, entries, left, Store(sys.capacity, map[]), now, policy)
    requires Recounted(sys, now.allocations, sys.servers.Keys, totals)
    ensures kind in totals ==> totals[kind].count <= totals[kind].limit
  {
    hide Conserved, Settled, Ample, Recounted;
    forall s | s in now.allocations ensures s in sys.servers {
      assert AllocatedWell(sys, s, now.allocations[s], policy);
    }
    RecountWithinLimits(sys, now, totals, kind);
  }

  /** The recount in figures: for any list of all servers, the count of a kind is the sum of the units that
      each holds of it. */
  lemma RecountInFigures(sys: System, allocations: map<Name, Allocation>, totals: map<Name, KindTotals>, kind: Name,
                         names: seq<Name>, units: seq<int>)
    requires Recounted(sys, allocations, sys.servers.Keys, totals)
    requires forall i, j :: 0 <= i < j < |names| ==> names[i] != names[j]
    requires forall s :: s in sys.servers <==> s in names
    requires |units| == |names| && forall i :: 0 <= i < |names| ==> units[i] == Held(sys, allocations, names[i], kind)
    ensures kind in totals ==>
              && totals[kind].count == Total(units)
              && totals[kind].limit == if kind in sys.capacity then sys.capacity[kind] else 0
    ensures kind !in totals ==> Total(units) == 0
  {
    hide Held, HeldBy, SpentBy, Recounted;
    RecountedFor(sys, allocations, totals, kind);
    HeldByList(sys, allocations, kind, names, units);
    assert (set i | 0 <= i < |names| :: names[i]) == sys.servers.Keys;
  }

  lemma RecountedFor(sys: System, allocations: map<Name, Allocation>, totals: map<Name, KindTotals>, kind: Name)
    requires Recounted(sys, allocations, sys.servers.Keys, totals)
    ensures KindRecounted(sys, allocations, sys.servers.Keys, totals, kind)
  {
  }
}
