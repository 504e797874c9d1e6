/** Limited against unlimited capacity: with enough units for everybody the greedy solution agrees with
    the unlimited one, except for servers whose first candidate cannot be looked up. */
module GreedyRefinement {
  import opened Basics
  import opened GreedyModel
  import opened GreedyAllocate
  import opened GreedyEntries
  import opened GreedyFates
  import opened GreedyOutcome

  /** What the unlimited solver gives one server: a candidate of least value, if any has a value
      below the largest float. */
  ghost predicate Cheapest(sys: System, s: Name, allocations: map<Name, Allocation>)
    requires s in sys.servers
  {
    var candidates := sys.servers[s].candidates;
    && (s in allocations <==> exists g :: g in candidates && candidates[g].value < MAX_FLOAT32)
    && (s in allocations ==>
          && allocations[s] in candidates.Values
          && forall g :: g in candidates ==> allocations[s].value <= candidates[g].value)
  }

  ghost predicate UnlimitedOutcome(sys: System, allocations: map<Name, Allocation>) {
    && allocations.Keys <= sys.servers.Keys
    && forall s :: s in sys.servers ==> Cheapest(sys, s, allocations)
  }

  /** Greedy refines unlimited, server by server.  With capacity for every first candidate, and a
      candidate below the largest float, a server gets an allocation of exactly the value that the
      unlimited solver picks if its first candidate can be looked up, and otherwise none at all. */
  lemma GreedyRefinesUnlimited(sys: System, entries: seq<Entry>, left: seq<Entry>, now: Store, policy: Policy,
                               unlimited: map<Name, Allocation>, i: nat)
    requires FreshEntries(sys, entries) && i < |entries|
    requires Ample(sys, entries, sys.capacity)
    requires Handled(sys, entries, left, Store(sys.capacity, map[]), now, policy)
    requires UnlimitedOutcome(sys, unlimited)
    requires exists a :: a in sys.servers[entries[i].server].candidates.Values && a.value < MAX_FLOAT32
    ensures var s := entries[i].server;
            && s in unlimited
            && entries[i].candidates != []
            && (s in now.allocations <==> Known(sys, s, entries[i].candidates[0]))
            && (s in now.allocations ==> now.allocations[s].value == unlimited[s].value)
  {
    hide Settled, Conserved, AllocatedWell, NewFrom, NoMore, LeftFrom, UsedUp, Ample, HasEntry, DistinctServers, Known;
    assert ServedIfKnown(sys, entries[i], now.allocations);
    assert FreshEntry(sys, entries[i]);
    assert Cheapest(sys, entries[i].server, unlimited);
    FirstIsCheapest(sys, entries[i], unlimited);
  }

  /** The first candidate of a server has the value of whatever the unlimited solver picks. */
  lemma FirstIsCheapest(sys: System, e: Entry, unlimited: map<Name, Allocation>)
    requires FreshEntry(sys, e) && Cheapest(sys, e.server, unlimited)
    requires exists a :: a in sys.servers[e.server].candidates.Values && a.value < MAX_FLOAT32
    ensures e.server in unlimited && unlimited[e.server].value == e.candidates[0].value
  {
    var candidates := sys.servers[e.server].candidates;
    var a :| a in candidates.Values && a.value < MAX_FLOAT32;
    var g0 :| g0 in candidates && candidates[g0] == a;
    assert e.server in unlimited;
    var u := unlimited[e.server];
    assert u in e.candidates;
    var j :| 0 <= j < |e.candidates| && e.candidates[j] == u;
    assert j > 0 ==> e.candidates[0].value <= e.candidates[j].value;
    assert e.candidates[0] in e.candidates;
    var g :| g in candidates && candidates[g] == e.candidates[0];
  }

  /** Every candidate of least value that server `s` has. */
  ghost predicate LeastValue(sys: System, s: Name, a: Allocation)
    requires s in sys.servers
  {
    && a in sys.servers[s].candidates.Values
    && forall b :: b in sys.servers[s].candidates.Values ==> a.value <= b.value
  }

  /** The same in terms of the server alone: it agrees with the unlimited solution if all its
      candidates of least value can be looked up, and is left out if none of them can. */
  lemma GreedyRefinesByServer(sys: System, entries: seq<Entry>, left: seq<Entry>, now: Store, policy: Policy,
                              unlimited: map<Name, Allocation>, s: Name)
    requires FreshEntries(sys, entries) && s in sys.servers
    requires Ample(sys, entries, sys.capacity)
    requires Handled(sys, entries, left, Store(sys.capacity, map[]), now, policy)
    requires UnlimitedOutcome(sys, unlimited)
    requires exists a :: a in sys.servers[s].candidates.Values && a.value < MAX_FLOAT32
    ensures s in unlimited
    ensures (forall a :: LeastValue(sys, s, a) ==> Known(sys, s, a)) ==>
              s in now.allocations && now.allocations[s].value == unlimited[s].value
    ensures (forall a :: LeastValue(sys, s, a) ==> !Known(sys, s, a)) ==> s !in now.allocations
  {
    hide Handled, Ample, DistinctServers, Known, UnlimitedOutcome;
    var a :| a in sys.servers[s].candidates.Values && a.value < MAX_FLOAT32;
    assert sys.servers[s].candidates != map[];
    assert HasEntry(entries, s);
    var i :| 0 <= i < |entries| && entries[i].server == s;
    GreedyRefinesUnlimited(sys, entries, left, now, policy, unlimited, i);
    FirstIsLeast(sys, entries[i]);
  }

  lemma FirstIsLeast(sys: System, e: Entry)
    requires FreshEntry(sys, e)
    ensures LeastValue(sys, e.server, e.candidates[0])
  {
    assert e.candidates[0] in e.candidates;
    forall b | b in sys.servers[e.server].candidates.Values ensures e.candidates[0].value <= b.value {
      assert b in e.candidates;
      var j :| 0 <= j < |e.candidates| && e.candidates[j] == b;
    }
  }

  /** The allocation of a server without load and without a minimum: no accelerator (a name that no
      accelerator has), no replicas, no cost. */
  const NOTHING: Allocation := Allocation(0, 0, 0.0, 0.0)

  /** One server without load, one accelerator (named 1) with four units. */
  function ZeroLoadSystem(): System {
    System(map[1 := Accelerator(7, 1, 1.0)], map[3 := map[1 := 1]],
           map[5 := Server(3, 1, map[1 := NOTHING])], map[7 := 4])
  }

  /** Scaling to zero is where the two solvers differ.  The server needs no units and capacity is
      ample, the unlimited solver gives it the empty allocation, and the greedy solver, under every
      policy, gives it none. */
  lemma ZeroLoadDiffers(entries: seq<Entry>, left: seq<Entry>, now: Store, policy: Policy, unlimited: map<Name, Allocation>)
    requires FreshEntries(ZeroLoadSystem(), entries)
    requires Handled(ZeroLoadSystem(), entries, left, Store(ZeroLoadSystem().capacity, map[]), now, policy)
    requires UnlimitedOutcome(ZeroLoadSystem(), unlimited)
    ensures WellFormed(ZeroLoadSystem()) && Ample(ZeroLoadSystem(), entries, ZeroLoadSystem().capacity)
    ensures 5 in unlimited && unlimited[5] == NOTHING
    ensures 5 !in now.allocations
  {
    hide Handled, UnlimitedOutcome, WellFormed, FreshEntry, Demand, HasEntry, DistinctServers;
    var sys := ZeroLoadSystem();
    ZeroLoadWellFormed();
    NoDemandWithoutReplicas(sys, entries);
    assert NOTHING in sys.servers[5].candidates.Values by {
      assert sys.servers[5].candidates[1] == NOTHING;
    }
    GreedyRefinesByServer(sys, entries, left, now, policy, unlimited, 5);
    CheapestIsCandidate(sys, unlimited, 5);
  }

  lemma ZeroLoadWellFormed()
    ensures WellFormed(ZeroLoadSystem())
  {
  }

  lemma CheapestIsCandidate(sys: System, unlimited: map<Name, Allocation>, s: Name)
    requires UnlimitedOutcome(sys, unlimited) && s in unlimited
    ensures s in sys.servers && unlimited[s] in sys.servers[s].candidates.Values
  {
    assert Cheapest(sys, s, unlimited);
  }

  lemma {:induction false} NoDemandWithoutReplicas(sys: System, q: seq<Entry>)
    requires sys == ZeroLoadSystem() && forall i :: 0 <= i < |q| ==> FreshEntry(sys, q[i])
    ensures forall kind :: Demand(sys, q, kind) == 0
  {
    if q != [] {
      assert FreshEntry(sys, q[0]);
      assert q[0].candidates[0] in q[0].candidates;
      NoDemandWithoutReplicas(sys, q[1..]);
    }
  }
}
