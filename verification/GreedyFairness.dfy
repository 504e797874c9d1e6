/** Fairness among the servers that share what is left: over priority groups served one after the
    other, and over the whole list. */
module GreedyFairness {
  import opened Basics
  import opened GreedyModel
  import opened GreedyAllocate
  import opened BestEffort
  import opened RoundRobin
  import opened GreedyFates

  // ---- Servers are given up in order of priority ----

  /** From better to worse priorities. */
  ghost predicate ByPriority(q: seq<Entry>) {
    forall i, j :: 0 <= i < j < |q| ==> q[i].priority <= q[j].priority
  }

  /** Servers are given up in order of priority. */
  lemma {:induction false} RunByPriority(sys: System, c: Config)
    requires AllLive(c.queue) && Sorted(c.queue) && ByPriority(c.unallocated + c.queue)
    ensures ByPriority(Run(sys, c).unallocated)
    decreases Remaining(c.queue)
  {
    hide Step, Sorted, ByPriority;
    if c.queue == [] {
      assert c.unallocated + c.queue == c.unallocated;
    } else {
      StepProgress(sys, c);
      StepKeepsOrder(sys, c);
      StepByPriority(sys, c);
      RunByPriority(sys, Step(sys, c));
    }
  }

  lemma StepByPriority(sys: System, c: Config)
    requires c.queue != [] && AllLive(c.queue) && Sorted(c.queue) && ByPriority(c.unallocated + c.queue)
    ensures ByPriority(Step(sys, c).unallocated + Step(sys, c).queue)
  {
    hide Order, Known, Units, Kind, Sorted, Reinsert, ByPriority;
    var top, rest, c' := c.queue[0], c.queue[1..], Step(sys, c);
    PriorityParts(c.unallocated, c.queue);
    assert c.queue == [top] + rest;
    PriorityParts([top], rest);
    PriorityJoin(c.unallocated, rest);
    if Judge(sys, top, c.store) == Refuse {
      var next := top.Advance();
      PriorityJoin([next], rest);
      PriorityJoin(c.unallocated, [next] + rest);
      if next.curIndex == |next.candidates| {
        assert c'.unallocated + c'.queue == c.unallocated + ([next] + rest);
      } else {
        SortedSuffix(c.queue, 1);
        ReinsertSorted(rest, next);
        SortedByPriority(c'.queue);
        ReinsertedAfter(c.unallocated, rest, next);
        PriorityJoin(c.unallocated, c'.queue);
      }
    }
  }

  /** Nobody in `a` has a worse priority than anybody in `b`. */
  ghost predicate NotAfter(a: seq<Entry>, b: seq<Entry>) {
    forall i, j :: 0 <= i < |a| && 0 <= j < |b| ==> a[i].priority <= b[j].priority
  }

  lemma PriorityParts(a: seq<Entry>, b: seq<Entry>)
    requires ByPriority(a + b)
    ensures ByPriority(a) && ByPriority(b) && NotAfter(a, b)
  {
    var all := a + b;
    assert all[..|a|] == a && all[|a|..] == b;
    forall i, j | 0 <= i < |a| && 0 <= j < |b| ensures a[i].priority <= b[j].priority {
      assert all[i] == a[i] && all[|a| + j] == b[j];
    }
  }

  lemma PriorityJoin(a: seq<Entry>, b: seq<Entry>)
    requires ByPriority(a) && ByPriority(b) && NotAfter(a, b)
    ensures ByPriority(a + b)
  {
  }

  lemma SortedByPriority(q: seq<Entry>)
    requires Sorted(q)
    ensures ByPriority(q)
  {
    forall i, j | 0 <= i < j < |q| ensures q[i].priority <= q[j].priority {
      assert Order(q[i], q[j]) <= 0;
    }
  }

  lemma ReinsertedAfter(a: seq<Entry>, rest: seq<Entry>, e: Entry)
    requires NotAfter(a, [e] + rest)
    ensures NotAfter(a, Reinsert(rest, e))
  {
    hide Order, InsertPos;
    var p, q := InsertPos(rest, e), Reinsert(rest, e);
    forall i, j | 0 <= i < |a| && 0 <= j < |q| ensures a[i].priority <= q[j].priority {
      assert q[j] == if j < p then rest[j] else if j == p then e else rest[j - 1];
      assert ([e] + rest)[if j < p then j + 1 else if j == p then 0 else j] == q[j];
    }
  }

  /** Who a run on a fresh list gives up on, and in which order. */
  lemma RunLeavesFresh(sys: System, c: Config)
    requires AllLive(c.queue) && Sorted(c.queue) && c.unallocated == []
    ensures LeftFrom(Run(sys, c).unallocated, c.queue)
    ensures ByPriority(Run(sys, c).unallocated)
  {
    hide Run, LeftFrom, Sorted, ByPriority;
    RunLeaves(sys, c);
    var un := Run(sys, c).unallocated;
    assert un[0..] == un;
    SortedByPriority(c.queue);
    assert c.unallocated + c.queue == c.queue;
    RunByPriority(sys, c);
  }

  // ---- Groups ----

  function Flatten(groups: seq<seq<Entry>>): seq<Entry> {
    if groups == [] then [] else groups[0] + Flatten(groups[1..])
  }

  lemma {:induction false} GroupsFlatten(q: seq<Entry>)
    ensures Flatten(Groups(q)) == q
    decreases |q|
  {
    if q != [] {
      var n := GroupEnd(q);
      GroupsFlatten(q[n..]);
      assert Groups(q)[1..] == Groups(q[n..]);
      assert q[..n] + q[n..] == q;
    }
  }

  lemma {:induction false} GroupsSorted(q: seq<Entry>)
    requires Sorted(q)
    ensures forall i :: 0 <= i < |Groups(q)| ==> Sorted(Groups(q)[i])
    decreases |q|
  {
    hide Order;
    if q != [] {
      var n := GroupEnd(q);
      SortedSuffix(q, n);
      GroupsSorted(q[n..]);
    }
  }

  /** Every group comes before all later ones. */
  lemma {:induction false} GroupsPrecede(q: seq<Entry>, g: nat)
    requires Sorted(q) && g < |Groups(q)|
    ensures Precedes(Groups(q)[g], Flatten(Groups(q)[g + 1..]))
    decreases |q|
  {
    hide Order;
    var n := GroupEnd(q);
    SortedSuffix(q, n);
    if g == 0 {
      FirstGroupPrecedes(q);
      GroupsFlatten(q[n..]);
      assert Groups(q)[1..] == Groups(q[n..]);
    } else {
      GroupsPrecede(q[n..], g - 1);
      assert Groups(q)[g + 1..] == Groups(q[n..])[g..];
    }
  }

  lemma FlattenStep(groups: seq<seq<Entry>>, g: nat)
    requires g < |groups|
    ensures Flatten(groups[g..]) == groups[g] + Flatten(groups[g + 1..])
  {
    assert groups[g..][0] == groups[g] && groups[g..][1..] == groups[g + 1..];
  }

  lemma FlattenEnds(groups: seq<seq<Entry>>)
    ensures groups[0..] == groups
    ensures groups[|groups|..] == [] && Flatten(groups[|groups|..]) == []
  {
  }

  ghost predicate Among(part: seq<Entry>, whole: seq<Entry>) {
    forall i :: 0 <= i < |part| ==> part[i] in whole
  }

  lemma AmongGrows(groups: seq<seq<Entry>>, g: nat, done: seq<Entry>)
    requires g < |groups|
    requires forall h :: 0 <= h < g ==> Among(groups[h], done)
    ensures forall h :: 0 <= h < g + 1 ==> Among(groups[h], done + groups[g])
  {
  }

  // ---- Fair shares ----

  /** Fair shares of an earlier group stay fair while a later group is served. */
  lemma FairStays(sys: System, group: seq<Entry>, done: seq<Entry>, next: seq<Entry>, st: Store, mid: Store, now: Store)
    requires FairShares(sys, group, st.allocations, mid.allocations)
    requires Among(group, done) && DistinctServers(done + next)
    requires OnlyPartial(sys, next, mid.allocations, now.allocations)
    ensures FairShares(sys, group, st.allocations, now.allocations)
  {
    hide PartlyServed, DistinctServers;
    PartsAreDisjoint(done, next);
    forall i | 0 <= i < |group|
      ensures group[i].server in now.allocations ==>
                group[i].server in mid.allocations && now.allocations[group[i].server] == mid.allocations[group[i].server]
    {
      assert group[i] in done;
    }
    forall i, j | 0 <= i < j < |group|
      ensures FairShare(sys, st.allocations, now.allocations, group[i].server, group[j].server)
    {
      assert FairShare(sys, st.allocations, mid.allocations, group[i].server, group[j].server);
    }
  }

  /** Fair shares counted from the state before the group are fair from any earlier state. */
  lemma FairEarlier(sys: System, group: seq<Entry>, before: map<Name, Allocation>, mid: Store, now: map<Name, Allocation>)
    requires FairShares(sys, group, mid.allocations, now)
    requires Leftover(sys, mid, group)
    ensures FairShares(sys, group, before, now)
  {
    forall i, j | 0 <= i < j < |group| ensures FairShare(sys, before, now, group[i].server, group[j].server) {
      assert FairShare(sys, mid.allocations, now, group[i].server, group[j].server);
      assert UnallocatedOk(sys, mid, group[i]) && UnallocatedOk(sys, mid, group[j]);
    }
  }

  /** Any two members of `left`, of the same priority or, with `everybody`, of whatever priority, have
      fair shares: with the same kind and the same units per replica their counts differ by at most
      one, the earlier not behind. */
  ghost predicate FairAmong(sys: System, left: seq<Entry>, allocations: map<Name, Allocation>, everybody: bool) {
    forall i, j :: 0 <= i < j < |left| && (everybody || left[i].priority == left[j].priority) ==>
      FairShare(sys, map[], allocations, left[i].server, left[j].server)
  }

  lemma FairForAll(sys: System, un: seq<Entry>, mid: Store, now: map<Name, Allocation>)
    requires Leftover(sys, mid, un) && FairShares(sys, un, mid.allocations, now)
    ensures FairAmong(sys, un, now, true)
  {
    hide FairShare, Leftover;
    FairEarlier(sys, un, map[], mid, now);
  }

  lemma FairWithinGroups(sys: System, un: seq<Entry>, mid: Store, now: map<Name, Allocation>)
    requires Leftover(sys, mid, un) && ByPriority(un)
    requires forall g :: 0 <= g < |Groups(un)| ==> FairShares(sys, Groups(un)[g], mid.allocations, now)
    ensures FairAmong(sys, un, now, false)
  {
    hide FairShare, Leftover, ByPriority, Groups, UnallocatedOk;
    forall i, j | 0 <= i < j < |un| && un[i].priority == un[j].priority
      ensures FairShare(sys, map[], now, un[i].server, un[j].server)
    {
      SameGroup(sys, un, mid.allocations, now, i, j);
      FairPairEarlier(sys, un, mid, now, i, j);
    }
  }

  lemma FairPairEarlier(sys: System, un: seq<Entry>, mid: Store, now: map<Name, Allocation>, i: nat, j: nat)
    requires Leftover(sys, mid, un) && i < j < |un|
    requires FairShare(sys, mid.allocations, now, un[i].server, un[j].server)
    ensures FairShare(sys, map[], now, un[i].server, un[j].server)
  {
    assert UnallocatedOk(sys, mid, un[i]) && UnallocatedOk(sys, mid, un[j]);
  }

  /** Entries of equal priority in an ordered list are in the same group. */
  lemma {:induction false} SameGroup(sys: System, q: seq<Entry>, before: map<Name, Allocation>, now: map<Name, Allocation>, i: nat, j: nat)
    requires ByPriority(q) && i < j < |q| && q[i].priority == q[j].priority
    requires forall g :: 0 <= g < |Groups(q)| ==> FairShares(sys, Groups(q)[g], before, now)
    ensures FairShare(sys, before, now, q[i].server, q[j].server)
    decreases |q|
  {
    hide FairShare, GroupEnd, FairShares;
    var n := GroupEnd(q);
    if j < n {
      assert FairShares(sys, Groups(q)[0], before, now);
      FairAt(sys, q, n, before, now, i, j);
    } else if i >= n {
      var rest := q[n..];
      forall g | 0 <= g < |Groups(rest)| ensures FairShares(sys, Groups(rest)[g], before, now) {
        assert Groups(rest)[g] == Groups(q)[g + 1];
      }
      SameGroup(sys, rest, before, now, i - n, j - n);
    } else {
      assert false;
    }
  }

  lemma FairAt(sys: System, q: seq<Entry>, n: nat, before: map<Name, Allocation>, now: map<Name, Allocation>, i: nat, j: nat)
    requires i < j < n <= |q| && FairShares(sys, q[..n], before, now)
    ensures FairShare(sys, before, now, q[i].server, q[j].server)
  {
    assert q[..n][i] == q[i] && q[..n][j] == q[j];
  }

  lemma NobodyToCompare(sys: System, allocations: map<Name, Allocation>)
    ensures FairAmong(sys, [], allocations, false)
  {
  }

  /** Fairness among everybody is fairness at each priority. */
  lemma FairSamePriority(sys: System, left: seq<Entry>, allocations: map<Name, Allocation>)
    ensures FairAmong(sys, left, allocations, true) ==> FairAmong(sys, left, allocations, false)
  {
  }

  /** Fairness stays while others, with other priorities, are served. */
  lemma FairGrows(sys: System, done: seq<Entry>, group: seq<Entry>, left: seq<Entry>, left': seq<Entry>,
                  mid: map<Name, Allocation>, now: map<Name, Allocation>)
    requires Precedes(done, group) && LeftFrom(left, done) && LeftFrom(left', group)
    requires forall i :: 0 <= i < |left| ==> SameAllocation(left[i].server, mid, now)
    requires FairAmong(sys, left, mid, false) && FairAmong(sys, left', now, false)
    ensures FairAmong(sys, left + left', now, false)
  {
    var all := left + left';
    forall i, j | 0 <= i < j < |all| && all[i].priority == all[j].priority
      ensures FairShare(sys, map[], now, all[i].server, all[j].server)
    {
      if j < |left| {
        assert FairShare(sys, map[], mid, left[i].server, left[j].server);
      } else if i >= |left| {
        assert all[i] == left'[i - |left|] && all[j] == left'[j - |left|];
      } else {
        assert false;
      }
    }
  }
}
