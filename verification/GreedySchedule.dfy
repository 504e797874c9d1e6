/** The whole schedule of a solution: what is served and shared after what.  Each stage is stated on the
    stores before and after it, so that the order of servers, of priority groups and of the two phases
    is part of the statement. */
module GreedySchedule {
  import opened Basics
  import opened GreedyModel
  import opened GreedyAllocate
  import opened BestEffort
  import opened RoundRobin
  import opened RoundTurns
  import opened GreedyFates

  /** Rounds within each group, one group after the other. */
  ghost predicate RoundStages(sys: System, groups: seq<seq<Entry>>, mid: Store, now: Store, stages: seq<Store>) {
    && |stages| == |groups| + 1 && stages[0] == mid && stages[|groups|] == now
    && forall g :: 0 <= g < |groups| ==> RoundStage(sys, groups[g], stages[g], stages[g + 1])
  }

  ghost predicate RoundStage(sys: System, group: seq<Entry>, before: Store, after: Store) {
    Shared(sys, group, before, after) && RoundsInTurn(sys, group, before, after.allocations)
  }

  /** How a policy shares what is left with the servers that could not be served in full: not at all;
      one server after the other, in order; in rounds among all of them; or in rounds within each
      priority group, in order. */
  ghost predicate SharedBy(sys: System, un: seq<Entry>, mid: Store, now: Store, policy: Policy) {
    match policy
    case NoBestEffort => now == mid
    case PriorityExhaustive => Shared(sys, un, mid, now) && ServedInTurn(sys, un, mid, now.allocations)
    case RoundRobinForAll => RoundStage(sys, un, mid, now)
    case PriorityRoundRobin => exists stages :: RoundStages(sys, Groups(un), mid, now, stages)
  }

  /** First the queue is served; then the policy shares with those it gave up on. */
  ghost predicate ServedAndShared(sys: System, q: seq<Entry>, before: Store, now: Store, policy: Policy) {
    && AllLive(q)
    && var end := Run(sys, Config(q, before, [])); SharedBy(sys, end.unallocated, end.store, now, policy)
  }

  /** Both phases for each priority group, one group after the other. */
  ghost predicate GroupStages(sys: System, groups: seq<seq<Entry>>, before: Store, now: Store, stages: seq<Store>, policy: Policy) {
    && |stages| == |groups| + 1 && stages[0] == before && stages[|groups|] == now
    && forall g :: 0 <= g < |groups| ==> ServedAndShared(sys, groups[g], stages[g], stages[g + 1], policy)
  }

  /** The schedule of the two timings: both phases for everybody at once, or group by group. */
  ghost predicate Scheduled(sys: System, q: seq<Entry>, before: Store, now: Store, delayed: bool, policy: Policy) {
    if delayed then ServedAndShared(sys, q, before, now, policy)
    else exists stages :: GroupStages(sys, Groups(q), before, now, stages, policy)
  }

  lemma RoundStagesGrow(sys: System, groups: seq<seq<Entry>>, g: nat, stages: seq<Store>, mid: Store, now: Store)
    requires g < |groups| && |stages| == g + 1 && stages[0] == mid
    requires forall h :: 0 <= h < g ==> RoundStage(sys, groups[h], stages[h], stages[h + 1])
    requires RoundStage(sys, groups[g], stages[g], now)
    ensures var stages' := stages + [now];
            && stages'[0] == mid && stages'[g + 1] == now
            && forall h :: 0 <= h < g + 1 ==> RoundStage(sys, groups[h], stages'[h], stages'[h + 1])
  {
    hide RoundStage;
  }

  lemma GroupStagesGrow(sys: System, groups: seq<seq<Entry>>, g: nat, stages: seq<Store>, before: Store, now: Store, policy: Policy)
    requires g < |groups| && |stages| == g + 1 && stages[0] == before
    requires forall h :: 0 <= h < g ==> ServedAndShared(sys, groups[h], stages[h], stages[h + 1], policy)
    requires ServedAndShared(sys, groups[g], stages[g], now, policy)
    ensures var stages' := stages + [now];
            && stages'[0] == before && stages'[g + 1] == now
            && forall h :: 0 <= h < g + 1 ==> ServedAndShared(sys, groups[h], stages'[h], stages'[h + 1], policy)
  {
    hide ServedAndShared;
  }

  /** A case: two units are left, and two servers given up, of priorities 1 and 2, each asked for three
      replicas of one unit.  Served exhaustively, the first gets both units and the second nothing. */
  lemma BetterPriorityFirst(sys: System, un: seq<Entry>, mid: Store, now: Store, a: Allocation, b: Allocation)
    requires SharedBy(sys, un, mid, now, PriorityExhaustive)
    requires |un| == 2 && un[0].priority == 1 && un[1].priority == 2 && un[0].candidates == [a] && un[1].candidates == [b]
    requires Known(sys, un[0].server, a) && Known(sys, un[1].server, b) && a.numReplicas == 3 && b.numReplicas == 3
    requires Kind(sys, un[0].server, a) == 7 && UnitsPerReplica(sys, un[0].server, a) == 1
    requires Kind(sys, un[1].server, b) == 7 && UnitsPerReplica(sys, un[1].server, b) == 1
    requires CountIn(mid.available, 7) == 2
    ensures un[0].server in now.allocations && now.allocations[un[0].server].numReplicas == 2
    ensures un[1].server !in now.allocations
  {
    hide Shared, Kind, UnitsPerReplica, Known, LeftBy;
    var x := un[0].server;
    assert InTurn(sys, mid, un[..0], now.allocations, un[0]) && InTurn(sys, mid, un[..1], now.allocations, un[1]);
    assert un[..0] == [] && un[..1] == [un[0]];
    EmptyLeft(sys, mid, now.allocations, 7);
    assert OneFits(sys, mid, [], now.allocations, x, un[0].candidates[0]);
    assert x in now.allocations && now.allocations[x].numReplicas == 2;
    LeftForSecond(sys, mid, un[0], now.allocations, a);
    assert !OneFits(sys, mid, [un[0]], now.allocations, un[1].server, un[1].candidates[0]);
  }

  lemma LeftForSecond(sys: System, mid: Store, e: Entry, now: map<Name, Allocation>, a: Allocation)
    requires e.server in now && Known(sys, e.server, a) && now[e.server].accelerator == a.accelerator
    ensures var kind := Kind(sys, e.server, a);
            LeftBy(sys, mid, [e], now, kind) == CountIn(mid.available, kind) - now[e.server].numReplicas * UnitsPerReplica(sys, e.server, a)
  {
    HeldByFirst(sys, e, [], now, Kind(sys, e.server, a));
  }
}
