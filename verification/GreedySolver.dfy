/** The solver object: it copies the capacities, queues the servers, and assigns allocations under
    limited or unlimited capacity.  The methods work on the fields `available` and `allocations`
    and are proved against the runs of modules GreedyAllocate, BestEffort and RoundRobin. */
module GreedySolver {
  import opened Basics
  import opened GreedyModel
  import opened GreedyAllocate
  import opened BestEffort
  import opened RoundRobin
  import opened RoundTurns
  import opened GreedyEntries
  import opened GreedyFates
  import opened GreedyFairness
  import opened GreedyOutcome
  import opened GreedyRefinement
  import opened GreedySchedule

  class Solver {
    const sys: System
    var available: map<Name, int>
    var allocations: map<Name, Allocation>

    constructor (sys: System)
      ensures this.sys == sys
    {
      this.sys := sys;
      available, allocations := map[], map[];
    }

    ghost function Current(): Store
      reads this
    {
      Store(available, allocations)
    }

    /** First phase: serve the queue in order; what could not be served is returned. */
    method Allocate(entries: seq<Entry>) returns (unallocated: seq<Entry>)
      requires AllLive(entries) && Sorted(entries)
      modifies this
      ensures Config([], Current(), unallocated) == Run(sys, Config(entries, old(Current()), []))
    {
      hide Order, Sorted, Known, Kind, Units, InsertPos;
      unallocated := [];
      var queue := entries;
      while |queue| > 0
        invariant AllLive(queue) && Sorted(queue)
        invariant Run(sys, Config(queue, Current(), unallocated)) == Run(sys, Config(entries, old(Current()), []))
        decreases Remaining(queue)
      {
        ghost var c := Config(queue, Current(), unallocated);
        StepProgress(sys, c);
        SortedSuffix(queue, 1);
        var top := queue[0];
        queue := queue[1..];
        if top.candidates == [] {
          assert Config(queue, Current(), unallocated) == Step(sys, c);
          continue;
        }
        var alloc := top.candidates[top.curIndex];
        if !Known(sys, top.server, alloc) {
          assert Config(queue, Current(), unallocated) == Step(sys, c);
          continue;
        }
        var kind := Kind(sys, top.server, alloc);
        var count := Units(sys, top.server, alloc);
        if CountIn(available, kind) >= count {
          available := available[kind := CountIn(available, kind) - count];
          allocations := allocations[top.server := alloc];
        } else {
          var next := top.Advance();
          if next.curIndex == |next.candidates| {
            unallocated := unallocated + [next];
          } else {
            ReinsertSorted(queue, next);
            var i := BinarySearchFunc(queue, next);
            queue := queue[..i] + [next] + queue[i..];
          }
        }
        assert Config(queue, Current(), unallocated) == Step(sys, c);
      }
    }

    /** Best effort, one server at a time, as much as fits. */
    method AllocateMaximally(entries: seq<Entry>)
      requires forall i :: 0 <= i < |entries| ==> entries[i].server in sys.servers
      modifies this
      ensures Current() == RunMaximally(sys, old(Current()), entries)
    {
      hide ServeMaximally;
      assert entries[0..] == entries;
      for i := 0 to |entries|
        invariant RunMaximally(sys, Current(), entries[i..]) == RunMaximally(sys, old(Current()), entries)
      {
        assert entries[i..][0] == entries[i] && entries[i..][1..] == entries[i + 1..];
        ServeOneMaximally(entries[i]);
      }
    }

    /** As much as fits of the first candidate that fits at all. */
    method ServeOneMaximally(entry: Entry)
      modifies this
      ensures Current() == ServeMaximally(sys, old(Current()), entry.server, entry.candidates)
    {
      hide Scaled, Known;
      ghost var st := Current();
      ghost var goal := ServeMaximally(sys, st, entry.server, entry.candidates);
      assert entry.candidates[0..] == entry.candidates;
      for j := 0 to |entry.candidates|
        invariant Current() == st
        invariant ServeMaximally(sys, st, entry.server, entry.candidates[j..]) == goal
      {
        var alloc := entry.candidates[j];
        assert entry.candidates[j..][0] == alloc && entry.candidates[j..][1..] == entry.candidates[j + 1..];
        if Known(sys, entry.server, alloc) {
          var unitsPerReplica := UnitsPerReplica(sys, entry.server, alloc);
          if unitsPerReplica > 0 {
            var kind := Kind(sys, entry.server, alloc);
            var maxReplicas := Min(CountIn(available, kind) / unitsPerReplica, alloc.numReplicas);
            if maxReplicas > 0 {
              allocations := allocations[entry.server := Scaled(alloc, maxReplicas)];
              available := available[kind := CountIn(available, kind) - maxReplicas * unitsPerReplica];
              return;
            }
          }
        }
      }
    }

    /** Best effort in rounds. */
    method AllocateEqually(entries: seq<Entry>)
      requires Leftover(sys, Current(), entries)
      modifies this
      ensures Shared(sys, entries, old(Current()), Current())
      ensures FairShares(sys, entries, old(allocations), allocations)
      ensures RoundsInTurn(sys, entries, old(Current()), allocations)
    {
      hide Leftover, RoundOk, Shared, FairShares, Visit, Scaled, TurnsOk, RoundsInTurn;
      ghost var st := Current();
      var r := InitialRounds(entries);
      ghost var bound := BoundOf(available);
      ghost var k: nat := 0;
      TurnsStart(sys, entries, st, r);
      while r.tickets != map[]
        invariant RoundOk(sys, entries, st, k, 0, r) && TurnsOk(sys, entries, st, k, 0, r)
        invariant allocations == st.allocations && available == r.available
        decreases bound + 1 - k
      {
        RoundsBounded(sys, entries, st, k, r, bound);
        for p := 0 to |entries|
          invariant RoundOk(sys, entries, st, k, p, r) && TurnsOk(sys, entries, st, k, p, r)
          invariant allocations == st.allocations && available == r.available
        {
          TicketsAreOk(sys, entries, st, k, p, r);
          VisitKeeps(sys, entries, st, k, p, r);
          VisitInTurn(sys, entries, st, k, p, r);
          r := Visit(sys, entries[p], r);
          available := r.available;
        }
        NextRound(sys, entries, st, k, r);
        TurnsNext(sys, entries, st, k, r);
        k := k + 1;
      }
      ServedScalable(sys, entries, st, k, r);
      UpdateMembers(r.served);
      assert Current() == StoreOf(st, r);
      RoundsShare(sys, entries, st, k, r);
      TurnsEnd(sys, entries, st, k, r);
    }

    /** Updates the members that got something, in any order. */
    method UpdateMembers(served: map<Name, Ticket>)
      requires forall s :: s in served ==> served[s].finalAlloc.numReplicas >= 1
      modifies this`allocations
      ensures allocations == old(allocations) + Given(served)
    {
      hide Scaled;
      var todo := served.Keys;
      assert old(allocations) + Given(Without(served, todo)) == old(allocations);
      while todo != {}
        invariant todo <= served.Keys
        invariant allocations == old(allocations) + Given(Without(served, todo))
        decreases |todo|
      {
        var s :| s in todo;
        WithoutStep(served, todo, s, old(allocations));
        var ticket := served[s];
        allocations := allocations[s := Scaled(ticket.finalAlloc, ticket.numReplicas)];
        todo := todo - {s};
      }
      assert Without(served, {}) == served;
    }

    /** A ticket for every member whose model is known. */
    method InitialRounds(entries: seq<Entry>) returns (r: Rounds)
      requires Leftover(sys, Current(), entries)
      ensures r.available == available && r.served == map[]
      ensures RoundOk(sys, entries, Current(), 0, 0, r)
    {
      hide Conserved, WellFormed, RoundOk;
      var tickets: map<Name, Ticket> := map[];
      for i := 0 to |entries|
        invariant forall s :: s in tickets ==> tickets[s] == FRESH && HasEntry(entries, s)
        invariant forall j :: 0 <= j < |entries| ==>
                    (entries[j].server in tickets <==> j < i && ModelKnown(sys, entries[j].server))
      {
        var s := entries[i].server;
        assert UnallocatedOk(sys, Current(), entries[i]);
        if sys.servers[s].model in sys.models {
          HasEntryAt(entries, i);
          tickets := tickets[s := FRESH];
        }
        assert forall j :: 0 <= j < |entries| && j != i ==> entries[j].server != s;
      }
      r := Rounds(available, tickets, map[]);
      StartOk(sys, entries, Current(), tickets);
    }

    /** Best effort according to the policy. */
    method BestEffortBy(policy: Policy, entries: seq<Entry>)
      requires Leftover(sys, Current(), entries)
      modifies this
      ensures policy == NoBestEffort ==> Current() == old(Current())
      ensures policy != NoBestEffort ==> Shared(sys, entries, old(Current()), Current())
      ensures policy == RoundRobinForAll ==> FairShares(sys, entries, old(allocations), allocations)
      ensures policy == PriorityRoundRobin ==>
                forall g :: 0 <= g < |Groups(entries)| ==>
                  FairShares(sys, Groups(entries)[g], old(allocations), allocations)
      ensures SharedBy(sys, entries, old(Current()), Current(), policy)
    {
      hide Shared, FairShares, Groups, Leftover, RoundsInTurn, ServedInTurn, RoundStages;
      match policy
      case NoBestEffort =>
      case PriorityExhaustive =>
        RunMaximallyShares(sys, Current(), entries);
        RunMaximallyInTurn(sys, Current(), entries);
        LeftoverServers(sys, Current(), entries);
        AllocateMaximally(entries);
      case RoundRobinForAll =>
        AllocateEqually(entries);
      case PriorityRoundRobin =>
        var groups := MakePriorityGroups(entries);
        GroupsFlatten(entries);
        ghost var stages := AllocateGroups(groups, entries);
    }

    /** Rounds within each group, one group after the other. */
    method AllocateGroups(groups: seq<seq<Entry>>, ghost entries: seq<Entry>) returns (ghost stages: seq<Store>)
      requires Flatten(groups) == entries
      requires Leftover(sys, Current(), entries)
      modifies this
      ensures Shared(sys, entries, old(Current()), Current())
      ensures forall g :: 0 <= g < |groups| ==> FairShares(sys, groups[g], old(allocations), allocations)
      ensures RoundStages(sys, groups, old(Current()), Current(), stages)
    {
      hide Shared, FairShares, Leftover, Flatten, DistinctServers, Among, RoundsInTurn;
      ghost var st := Current();
      stages := [st];
      ghost var done: seq<Entry> := [];
      FlattenEnds(groups);
      NothingShared(sys, st, entries);
      for g := 0 to |groups|
        invariant entries == done + Flatten(groups[g..])
        invariant Shared(sys, done, st, Current())
        invariant forall h :: 0 <= h < g ==> FairShares(sys, groups[h], st.allocations, allocations)
        invariant forall h :: 0 <= h < g ==> Among(groups[h], done)
        invariant |stages| == g + 1 && stages[0] == st && stages[g] == Current()
        invariant forall h :: 0 <= h < g ==> RoundStage(sys, groups[h], stages[h], stages[h + 1])
      {
        var group := groups[g];
        ghost var mid := Current();
        FlattenStep(groups, g);
        ghost var rest := Flatten(groups[g + 1..]);
        assert entries == done + (group + rest) == (done + group) + rest;
        LeftoverTail(sys, done, group + rest, st, mid);
        LeftoverParts(sys, group, rest, mid);
        LeftoverParts(sys, done + group, rest, st);
        LeftoverDistinct(sys, st, done + group);
        AllocateEqually(group);
        RoundStagesGrow(sys, groups, g, stages, st, Current());
        stages := stages + [Current()];
        SharedCompose(sys, done, group, st, mid, Current());
        SharedIsPartial(sys, group, mid, Current());
        forall h | 0 <= h < g + 1 ensures FairShares(sys, groups[h], st.allocations, allocations) {
          if h < g {
            FairStays(sys, groups[h], done, group, st, mid, Current());
          } else {
            FairEarlier(sys, group, st.allocations, mid, allocations);
          }
        }
        AmongGrows(groups, g, done);
        done := done + group;
      }
      assert done == entries;
    }

    /** Everybody first and best effort at the end, or both group by group.  The list of servers that
        could not be served in full is reported for the proof. */
    method AllocateEntries(entries: seq<Entry>, delayedBestEffort: bool, policy: Policy) returns (ghost left: seq<Entry>)
      requires AllLive(entries) && Sorted(entries)
      requires RunOk(sys, Config(entries, Current(), []))
      modifies this
      ensures Handled(sys, entries, left, old(Current()), Current(), policy)
      ensures policy == NoBestEffort ==> Current() == Run(sys, Config(entries, old(Current()), [])).store
      ensures delayedBestEffort ==> left == Run(sys, Config(entries, old(Current()), [])).unallocated
      ensures SharesInRounds(policy) ==>
                FairAmong(sys, left, allocations, delayedBestEffort && policy == RoundRobinForAll)
      ensures Scheduled(sys, entries, old(Current()), Current(), delayedBestEffort, policy)
    {
      hide RunOk, Sorted, Handled, Run, Flatten, AllLive, InProgress, FairAmong, Precedes, ServedAndShared;
      if delayedBestEffort {
        left := ServeAndShare(entries, policy);
      } else {
        ghost var st := Current();
        ghost var full := Run(sys, Config(entries, st, [])).store;
        var groups := MakePriorityGroups(entries);
        ModesAgree(sys, entries, st);
        GroupsFlatten(entries);
        GroupsSorted(entries);
        FlattenEnds(groups);
        ghost var done: seq<Entry> := [];
        left := [];
        ghost var stages := [st];
        ProgressStarts(sys, entries, st, policy);
        NobodyToCompare(sys, allocations);
        for g := 0 to |groups|
          invariant InProgress(sys, entries, done, Flatten(groups[g..]), left, st, Current(), policy)
          invariant policy == NoBestEffort ==> RunGroups(sys, groups[g..], Current()) == full
          invariant SharesInRounds(policy) ==> FairAmong(sys, left, allocations, false)
          invariant |stages| == g + 1 && stages[0] == st && stages[g] == Current()
          invariant forall h :: 0 <= h < g ==> ServedAndShared(sys, groups[h], stages[h], stages[h + 1], policy)
        {
          ghost var mid := Current();
          FlattenStep(groups, g);
          ghost var rest := Flatten(groups[g + 1..]);
          ProgressGroup(sys, entries, done, groups[g], rest, left, st, mid, policy);
          assert groups[g..][0] == groups[g] && groups[g..][1..] == groups[g + 1..];
          GroupsPrecede(entries, g);
          ghost var left' := ServeAndShare(groups[g], policy);
          if SharesInRounds(policy) {
            FairSamePriority(sys, left', allocations);
            ProgressFair(sys, entries, done, groups[g], rest, left, left', st, mid, Current(), policy);
          }
          ProgressStep(sys, entries, done, groups[g], rest, left, left', st, mid, Current(), policy);
          GroupStagesGrow(sys, groups, g, stages, st, Current(), policy);
          stages := stages + [Current()];
          done := done + groups[g];
          left := left + left';
        }
        assert GroupStages(sys, groups, st, Current(), stages, policy);
        ProgressEnds(sys, entries, done, left, st, Current(), policy);
      }
    }

    /** Serve a list in full where possible and share what is left with the others. */
    method ServeAndShare(entries: seq<Entry>, policy: Policy) returns (ghost left: seq<Entry>)
      requires AllLive(entries) && Sorted(entries)
      requires RunOk(sys, Config(entries, Current(), []))
      modifies this
      ensures left == Run(sys, Config(entries, old(Current()), [])).unallocated
      ensures Handled(sys, entries, left, old(Current()), Current(), policy)
      ensures policy == NoBestEffort ==> Current() == Run(sys, Config(entries, old(Current()), [])).store
      ensures SharesInRounds(policy) ==> FairAmong(sys, left, allocations, policy == RoundRobinForAll)
      ensures ServedAndShared(sys, entries, old(Current()), Current(), policy)
    {
      hide RunOk, Sorted, Conserved, Leftover, Shared, WellFormed, Run, AllocatedWell, NoMore, NewFrom, OnlyCandidates, HasEntry,
           ServedIfKnown, Settled, Accounted, LeftFrom, FairShares, FairAmong, ByPriority, Groups, EntryOk, SharedBy;
      ghost var c := Config(entries, Current(), []);
      ghost var end := Run(sys, c);
      RunOkFacts(sys, c);
      QueueOk(sys, c);
      RunKeeps(sys, c);
      RunAddsCandidates(sys, c);
      RunServers(sys, c);
      RunLeavesFresh(sys, c);
      RunOkFacts(sys, end);
      NobodyAtStart();
      if Ample(sys, entries, available) {
        RunServesAll(sys, entries, Current(), []);
      }
      FullOutcome(sys, c.store.allocations, end.store.allocations, policy);
      var unallocated := Allocate(entries);
      left := unallocated;
      ghost var mid := Current();
      assert mid == end.store && unallocated == end.unallocated;
      BestEffortBy(policy, unallocated);
      if policy != NoBestEffort {
        SharedOutcome(sys, entries, unallocated, c.store, mid, Current(), policy);
        if Ample(sys, entries, c.store.available) {
          NothingToShare(sys, mid, Current());
        }
      }
      if policy == RoundRobinForAll {
        FairForAll(sys, left, mid, allocations);
      } else if policy == PriorityRoundRobin {
        FairWithinGroups(sys, left, mid, allocations);
      }
      forall i | 0 <= i < |entries| ensures Settled(sys, entries[i], left, Current(), policy) {
        RunAccounts(sys, c, entries[i]);
        SettledAfterSharing(sys, entries[i], end, Current(), policy);
      }
    }

    /** The candidates of a server, cheapest first. */
    method SortedCandidates(candidates: map<Name, Allocation>) returns (sorted: seq<Allocation>)
      ensures ByValue(sorted) && |sorted| == |candidates|
      ensures forall a :: a in sorted <==> a in candidates.Values
    {
      sorted := [];
      var names := candidates.Keys;
      while names != {}
        invariant names <= candidates.Keys
        invariant ByValue(sorted) && |sorted| == |candidates| - |names|
        invariant forall a :: a in sorted <==> exists g :: g in candidates && g !in names && candidates[g] == a
        decreases |names|
      {
        var g :| g in names;
        var a := candidates[g];
        var i := |sorted|;
        while i > 0 && a.value < sorted[i - 1].value
          invariant 0 <= i <= |sorted|
          invariant forall j :: i <= j < |sorted| ==> a.value < sorted[j].value
        {
          i := i - 1;
        }
        InsertByValue(sorted, i, a);
        ghost var before, left := sorted, names;
        sorted := sorted[..i] + [a] + sorted[i..];
        names := names - {g};
        forall b ensures b in sorted <==> exists h :: h in candidates && h !in names && candidates[h] == b {
          if b == a {
            assert g in candidates && g !in names && candidates[g] == b;
          } else if b in before {
            var h :| h in candidates && h !in left && candidates[h] == b;
            assert h !in names;
          }
        }
      }
    }

    /** One queue entry per server that has candidates, in queue order. */
    method BuildEntries() returns (entries: seq<Entry>)
      ensures Sorted(entries) && FreshEntries(sys, entries)
    {
      hide Order, Sorted, FreshEntry, HasEntry, DistinctServers, InsertAt, InsertPos;
      entries := [];
      EmptySorted();
      NoDuplicates();
      var todo := sys.servers.Keys;
      while todo != {}
        invariant todo <= sys.servers.Keys
        invariant Sorted(entries) && DistinctServers(entries)
        invariant forall i :: 0 <= i < |entries| ==> FreshEntry(sys, entries[i]) && entries[i].server !in todo
        invariant forall s :: s in sys.servers && s !in todo && sys.servers[s].candidates != map[] ==> HasEntry(entries, s)
        decreases |todo|
      {
        var s :| s in todo;
        var server := sys.servers[s];
        if server.candidates != map[] {
          var candidates := SortedCandidates(server.candidates);
          var e := NewEntry(s, server.priority, candidates);
          NewEntryFresh(sys, s, candidates);
          ReinsertSorted(entries, e);
          var i := InsertPos(entries, e);
          InsertedEntry(entries, i, e);
          ghost var before := entries;
          entries := InsertAt(entries, i, e);
          forall j | 0 <= j < |entries| ensures FreshEntry(sys, entries[j]) && entries[j].server !in todo - {s} {
            assert entries[j] == e || entries[j] in before;
          }
        }
        todo := todo - {s};
      }
    }

    /** Greedy solution under limited capacity, with its queue and the servers that could not be
        served in full reported for the proof. */
    method SolveGreedy(delayedBestEffort: bool, policy: Policy) returns (ghost entries: seq<Entry>, ghost left: seq<Entry>)
      requires WellFormed(sys)
      modifies this
      ensures FreshEntries(sys, entries) && AllLive(entries) && Sorted(entries)
      ensures Handled(sys, entries, left, Store(sys.capacity, map[]), Current(), policy)
      ensures policy == NoBestEffort ==> Current() == Run(sys, Config(entries, Store(sys.capacity, map[]), [])).store
      ensures delayedBestEffort ==> left == Run(sys, Config(entries, Store(sys.capacity, map[]), [])).unallocated
      ensures SharesInRounds(policy) ==>
                FairAmong(sys, left, allocations, delayedBestEffort && policy == RoundRobinForAll)
      ensures Scheduled(sys, entries, Store(sys.capacity, map[]), Current(), delayedBestEffort, policy)
    {
      hide WellFormed, Sorted, RunOk, FreshEntries, Handled, Run, AllLive, FairAmong, Scheduled;
      available := sys.capacity;
      allocations := map[];
      var queue := BuildEntries();
      entries := queue;
      FreshRunOk(sys, queue);
      left := AllocateEntries(queue, delayedBestEffort, policy);
    }

    /** Best allocation for each server, capacity aside. */
    method SolveUnlimited()
      modifies this`allocations
      ensures UnlimitedOutcome(sys, allocations)
    {
      allocations := map[];
      var todo := sys.servers.Keys;
      while todo != {}
        invariant todo <= sys.servers.Keys
        invariant allocations.Keys !! todo && allocations.Keys <= sys.servers.Keys
        invariant forall s :: s in sys.servers && s !in todo ==> Cheapest(sys, s, allocations)
        decreases |todo|
      {
        var s :| s in todo;
        var minAlloc := CheapestOf(sys.servers[s].candidates);
        ghost var before := allocations;
        if |minAlloc| > 0 {
          allocations := allocations[s := minAlloc[0]];
        }
        forall x | x in sys.servers && x !in todo - {s} ensures Cheapest(sys, x, allocations) {
          if x != s {
            assert Cheapest(sys, x, before);
          }
        }
        todo := todo - {s};
      }
    }

    /** A candidate of least value; none if all values reach the largest float. */
    method CheapestOf(candidates: map<Name, Allocation>) returns (best: seq<Allocation>)
      ensures |best| <= 1
      ensures |best| == 0 <==> forall g :: g in candidates ==> MAX_FLOAT32 <= candidates[g].value
      ensures |best| == 1 ==>
                && best[0] in candidates.Values && best[0].value < MAX_FLOAT32
                && forall g :: g in candidates ==> best[0].value <= candidates[g].value
    {
      var minVal := MAX_FLOAT32;
      best := [];
      var names := candidates.Keys;
      while names != {}
        invariant names <= candidates.Keys
        invariant |best| <= 1
        invariant forall g :: g in candidates && g !in names ==> minVal <= candidates[g].value
        invariant |best| == 0 ==> minVal == MAX_FLOAT32
        invariant |best| == 1 ==> best[0] in candidates.Values && best[0].value == minVal < MAX_FLOAT32
        decreases |names|
      {
        var g :| g in names;
        if candidates[g].value < minVal {
          minVal := candidates[g].value;
          best := [candidates[g]];
        }
        names := names - {g};
      }
    }
  }
}
