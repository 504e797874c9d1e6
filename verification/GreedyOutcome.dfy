/** What a solution of the greedy solver looks like, and the lemmas that carry it from the run to best
    effort and from one priority group to the next. */
module GreedyOutcome {
  import opened Basics
  import opened GreedyModel
  import opened GreedyAllocate
  import opened BestEffort
  import opened RoundRobin
  import opened GreedyFates
  import opened GreedyFairness

  // ---- From the run to the outcome ----

  /** An allocation is a candidate of its server as asked for or, with best effort, a candidate cut
      down to a positive number of replicas strictly below the request. */
  ghost predicate AllocatedWell(sys: System, s: Name, a: Allocation, policy: Policy) {
    && s in sys.servers
    && Known(sys, s, a)
    && (|| a in sys.servers[s].candidates.Values
        || (policy != NoBestEffort && exists c :: c in sys.servers[s].candidates.Values && CutDown(sys, s, c, a)))
  }

  /** A run and then best effort: old allocations stay, new ones are well formed and belong to the
      queue, and units are conserved. */
  lemma SharedOutcome(sys: System, q: seq<Entry>, un: seq<Entry>, before: Store, mid: Store, now: Store, policy: Policy)
    requires policy != NoBestEffort
    requires OnlyCandidates(sys, before.allocations, mid.allocations)
    requires NewFrom(q, before.allocations, mid.allocations)
    requires forall s :: HasEntry(un, s) ==> HasEntry(q, s)
    requires Leftover(sys, mid, un) && Shared(sys, un, mid, now)
    requires NoMore(before.available, mid.available)
    ensures Conserved(sys, now)
    ensures NoMore(before.available, now.available)
    ensures forall s :: s in before.allocations ==> s in now.allocations && now.allocations[s] == before.allocations[s]
    ensures forall s :: s in now.allocations && s !in before.allocations ==> AllocatedWell(sys, s, now.allocations[s], policy)
    ensures NewFrom(q, before.allocations, now.allocations)
  {
    hide Conserved, WellFormed, CutDown, Exhausted, HasEntry;
    forall k ensures CountIn(now.available, k) <= CountIn(before.available, k) {
      assert CountIn(mid.available, k) <= CountIn(before.available, k);
    }
    forall s | s in now.allocations && s !in before.allocations
      ensures AllocatedWell(sys, s, now.allocations[s], policy) && HasEntry(q, s)
    {
      if s in mid.allocations {
        assert now.allocations[s] == mid.allocations[s];
      } else {
        var i :| 0 <= i < |un| && un[i].server == s && PartlyServed(sys, un[i], now.allocations[s]);
        PartIsWell(sys, mid, un[i], now.allocations[s], policy);
        HasEntryAt(un, i);
      }
    }
  }

  lemma PartIsWell(sys: System, st: Store, e: Entry, a: Allocation, policy: Policy)
    requires policy != NoBestEffort && UnallocatedOk(sys, st, e) && PartlyServed(sys, e, a)
    ensures AllocatedWell(sys, e.server, a, policy)
  {
    var i :| 0 <= i < |e.candidates| && CutDown(sys, e.server, e.candidates[i], a);
    assert e.candidates[i] in sys.servers[e.server].candidates.Values;
  }

  lemma FullOutcome(sys: System, before: map<Name, Allocation>, mid: map<Name, Allocation>, policy: Policy)
    requires OnlyCandidates(sys, before, mid)
    ensures forall s :: s in before ==> s in mid && mid[s] == before[s]
    ensures forall s :: s in mid && s !in before ==> AllocatedWell(sys, s, mid[s], policy)
  {
  }

  /** The first part of a queue satisfies the invariant of the run on its own. */
  lemma RunOkPart(sys: System, a: seq<Entry>, b: seq<Entry>, st: Store)
    requires RunOk(sys, Config(a + b, st, []))
    ensures RunOk(sys, Config(a, st, []))
  {
    hide Conserved, WellFormed, QueuedOk;
    assert (a + b) + [] == a + b && a + [] == a;
    PartsAreDisjoint(a, b);
    forall i | 0 <= i < |a| ensures QueuedOk(sys, st, a[i]) && a[i].Live() {
      assert (a + b)[i] == a[i];
    }
  }

  /** Serving the first part of a queue leaves the rest waiting. */
  lemma RestWaits(sys: System, a: seq<Entry>, b: seq<Entry>, st: Store, now: Store)
    requires RunOk(sys, Config(a + b, st, []))
    requires Conserved(sys, now) && NoMore(st.available, now.available)
    requires NewFrom(a, st.allocations, now.allocations)
    ensures RunOk(sys, Config(b, now, []))
  {
    hide Conserved, WellFormed, RefusedSoFar;
    assert (a + b) + [] == a + b && b + [] == b;
    PartsAreDisjoint(a, b);
    forall i | 0 <= i < |b| ensures QueuedOk(sys, now, b[i]) && b[i].Live() {
      assert (a + b)[|a| + i] == b[i];
      assert QueuedOk(sys, st, b[i]);
      RefusalStands(sys, st, now, b[i]);
    }
  }

  // ---- From group to group ----

  /** Capacity for the current candidate of every entry that has one which can be looked up. */
  ghost predicate Ample(sys: System, q: seq<Entry>, available: map<Name, int>) {
    forall kind :: Demand(sys, q, kind) <= CountIn(available, kind)
  }

  ghost predicate AllServed(sys: System, q: seq<Entry>, allocations: map<Name, Allocation>) {
    forall i :: 0 <= i < |q| ==> ServedIfKnown(sys, q[i], allocations)
  }

  /** What is used up by serving `q` as asked. */
  ghost predicate UsedUp(sys: System, q: seq<Entry>, before: map<Name, int>, after: map<Name, int>) {
    forall kind :: CountIn(after, kind) == CountIn(before, kind) - Demand(sys, q, kind)
  }

  lemma AmpleParts(sys: System, a: seq<Entry>, b: seq<Entry>, available: map<Name, int>)
    requires WellFormed(sys) && AllOk(sys, b) && Ample(sys, a + b, available)
    ensures Ample(sys, a, available)
    ensures forall after :: UsedUp(sys, a, available, after) ==> Ample(sys, b, after)
  {
    hide WellFormed, EntryOk;
    forall kind ensures Demand(sys, a, kind) <= CountIn(available, kind) - Demand(sys, b, kind) && 0 <= Demand(sys, b, kind) {
      DemandSplits(sys, a, b, kind);
      DemandNonNegative(sys, b, kind);
    }
  }

  lemma AllServedGrows(sys: System, done: seq<Entry>, group: seq<Entry>, before: map<Name, Allocation>, after: map<Name, Allocation>)
    requires AllServed(sys, done, before) && AllServed(sys, group, after)
    requires forall i :: 0 <= i < |done| ==> SameAllocation(done[i].server, before, after)
    ensures AllServed(sys, done + group, after)
  {
    forall i | 0 <= i < |done + group| ensures ServedIfKnown(sys, (done + group)[i], after) {
      if i < |done| {
        assert ServedIfKnown(sys, done[i], before);
      }
    }
  }

  /** What solving for a list of entries promises, under every policy and timing: units are conserved
      and never overdrawn, old allocations stay, new ones belong to the list and are well formed, every
      server is settled, and with ample capacity everybody whose candidate can be looked up is served
      as asked.  The servers of `left` are those that could not be served in full. */
  ghost predicate Handled(sys: System, q: seq<Entry>, left: seq<Entry>, before: Store, now: Store, policy: Policy) {
    && Conserved(sys, now)
    && NoMore(before.available, now.available)
    && NewFrom(q, before.allocations, now.allocations)
    && LeftFrom(left, q)
    && (forall s :: s in before.allocations ==> s in now.allocations && now.allocations[s] == before.allocations[s])
    && (forall s :: s in now.allocations && s !in before.allocations ==> AllocatedWell(sys, s, now.allocations[s], policy))
    && (Ample(sys, q, before.available) ==>
          left == [] && AllServed(sys, q, now.allocations) && UsedUp(sys, q, before.available, now.available))
    && (forall i :: 0 <= i < |q| ==> Settled(sys, q[i], left, now, policy))
  }

  /** Part `done` of the list is handled and part `rest`, of worse priority, is waiting. */
  ghost predicate InProgress(sys: System, q: seq<Entry>, done: seq<Entry>, rest: seq<Entry>, left: seq<Entry>,
                             before: Store, now: Store, policy: Policy) {
    && q == done + rest && DistinctServers(q) && AllOk(sys, q) && Precedes(done, rest)
    && Handled(sys, done, left, before, now, policy)
    && RunOk(sys, Config(rest, now, []))
    && (Ample(sys, q, before.available) ==> Ample(sys, done, before.available) && Ample(sys, rest, now.available))
  }

  lemma ProgressStarts(sys: System, q: seq<Entry>, st: Store, policy: Policy)
    requires RunOk(sys, Config(q, st, []))
    ensures InProgress(sys, q, [], q, [], st, st, policy)
  {
    hide RunOk;
    RunOkFacts(sys, Config(q, st, []));
    QueueOk(sys, Config(q, st, []));
    assert [] + q == q;
    forall kind ensures Demand(sys, [], kind) == 0 && 0 <= CountIn(st.available, kind) {
      AvailableNonNegative(sys, st, kind);
    }
  }

  lemma ProgressGroup(sys: System, q: seq<Entry>, done: seq<Entry>, group: seq<Entry>, rest: seq<Entry>, left: seq<Entry>,
                      before: Store, now: Store, policy: Policy)
    requires InProgress(sys, q, done, group + rest, left, before, now, policy)
    ensures RunOk(sys, Config(group, now, []))
  {
    hide Handled, RunOk;
    RunOkPart(sys, group, rest, now);
  }

  lemma ProgressStep(sys: System, q: seq<Entry>, done: seq<Entry>, group: seq<Entry>, rest: seq<Entry>,
                     left: seq<Entry>, left': seq<Entry>, before: Store, mid: Store, now: Store, policy: Policy)
    requires InProgress(sys, q, done, group + rest, left, before, mid, policy)
    requires Precedes(group, rest)
    requires Handled(sys, group, left', mid, now, policy)
    ensures InProgress(sys, q, done + group, rest, left + left', before, now, policy)
  {
    hide RunOk, AllServed, Ample, AllocatedWell, NewFrom, Conserved, UsedUp, WellFormed, NoMore, Settled, DistinctServers,
         LeftFrom, Precedes, AllOk;
    assert q == (done + group) + rest;
    PartsAreDisjoint(done + group, rest);
    OthersUntouched(done, group, mid, now);
    ProgressOrder(done, group, rest);
    forall i | 0 <= i < |done + group| ensures Settled(sys, (done + group)[i], left + left', now, policy) {
      if i < |done| {
        assert (done + group)[i] == done[i];
        DoneStaysSettled(sys, done, group, left, left', i, mid, now, policy);
      } else {
        assert (done + group)[i] == group[i - |done|];
        GroupIsSettled(sys, done, group, left, left', i - |done|, now, policy);
      }
    }
    RunOkFacts(sys, Config(group + rest, mid, []));
    RestWaits(sys, group, rest, mid, now);
    HandledFrames(done, group, before, mid, now);
    LeftJoin(done, group, left, left');
    OkParts(sys, done, group, rest);
    if Ample(sys, q, before.available) {
      AmpleParts(sys, done + group, rest, before.available);
      AmpleParts(sys, group, rest, mid.available);
    }
    if Ample(sys, done + group, before.available) {
      AmpleParts(sys, done, group, before.available);
      AllServedGrows(sys, done, group, mid.allocations, now.allocations);
      UsedUpCompose(sys, done, group, before.available, mid.available, now.available);
    }
  }

  lemma OkParts(sys: System, done: seq<Entry>, group: seq<Entry>, rest: seq<Entry>)
    requires AllOk(sys, (done + group) + rest)
    ensures AllOk(sys, group) && AllOk(sys, rest) && AllOk(sys, group + rest)
  {
    hide EntryOk;
    var all := (done + group) + rest;
    assert all[|done|..] == group + rest;
    assert all[|done|..|done| + |group|] == group;
    assert all[|done| + |group|..] == rest;
  }

  lemma ProgressOrder(done: seq<Entry>, group: seq<Entry>, rest: seq<Entry>)
    requires Precedes(done, group + rest) && Precedes(group, rest)
    ensures Precedes(done, group) && Precedes(done + group, rest)
  {
    var both := group + rest;
    forall i, j | 0 <= i < |done| && 0 <= j < |group| ensures done[i].priority < group[j].priority {
      assert both[j] == group[j];
    }
    forall i, j | 0 <= i < |done + group| && 0 <= j < |rest| ensures (done + group)[i].priority < rest[j].priority {
      assert both[|group| + j] == rest[j];
    }
  }

  /** Serving a group changes nothing for the servers before it. */
  lemma OthersUntouched(done: seq<Entry>, group: seq<Entry>, mid: Store, now: Store)
    requires DistinctServers(done + group)
    requires NewFrom(group, mid.allocations, now.allocations)
    requires forall s :: s in mid.allocations ==> s in now.allocations && now.allocations[s] == mid.allocations[s]
    ensures forall i :: 0 <= i < |done| ==> SameAllocation(done[i].server, mid.allocations, now.allocations)
  {
    PartsAreDisjoint(done, group);
  }

  lemma LeftJoin(done: seq<Entry>, group: seq<Entry>, left: seq<Entry>, left': seq<Entry>)
    requires LeftFrom(left, done) && LeftFrom(left', group)
    ensures LeftFrom(left + left', done + group)
  {
    forall i | 0 <= i < |left + left'| ensures Origin((left + left')[i], done + group) {
      if i < |left| {
        assert Origin(left[i], done);
        var j :| 0 <= j < |done| && SameServer(left[i], done[j]);
        assert (done + group)[j] == done[j];
      } else {
        assert Origin(left'[i - |left|], group);
        var j :| 0 <= j < |group| && SameServer(left'[i - |left|], group[j]);
        assert (done + group)[|done| + j] == group[j];
      }
    }
  }

  lemma DoneStaysSettled(sys: System, done: seq<Entry>, group: seq<Entry>, left: seq<Entry>, left': seq<Entry>, i: nat,
                         mid: Store, now: Store, policy: Policy)
    requires i < |done| && DistinctServers(done + group) && LeftFrom(left', group)
    requires Settled(sys, done[i], left, mid, policy) && NoMore(mid.available, now.available)
    requires SameAllocation(done[i].server, mid.allocations, now.allocations)
    ensures Settled(sys, done[i], left + left', now, policy)
  {
    hide Settled, DistinctServers, LeftFrom;
    PartsAreDisjoint(done, group);
    if HasEntry(left', done[i].server) {
      LeftServers(left', group, done[i].server);
      assert false;
    }
    SettledStays(sys, done[i], left, left', mid, now, policy);
  }

  lemma GroupIsSettled(sys: System, done: seq<Entry>, group: seq<Entry>, left: seq<Entry>, left': seq<Entry>, i: nat,
                       now: Store, policy: Policy)
    requires i < |group| && DistinctServers(done + group) && LeftFrom(left, done)
    requires Settled(sys, group[i], left', now, policy)
    ensures Settled(sys, group[i], left + left', now, policy)
  {
    hide DistinctServers, LeftFrom, FirstFitting, Dropped, Final;
    PartsAreDisjoint(done, group);
    var s := group[i].server;
    if HasEntry(left, s) {
      LeftServers(left, done, s);
      assert false;
    }
    HasEntryParts(left, left', s);
    if HasEntry(left', s) {
      var k :| 0 <= k < |left'| && left'[k].server == s && left'[k].candidates == group[i].candidates;
      assert (left + left')[|left| + k] == left'[k];
    }
  }

  lemma UsedUpCompose(sys: System, a: seq<Entry>, b: seq<Entry>, x: map<Name, int>, y: map<Name, int>, z: map<Name, int>)
    requires UsedUp(sys, a, x, y) && UsedUp(sys, b, y, z)
    ensures UsedUp(sys, a + b, x, z)
  {
    hide Demand;
    forall kind ensures CountIn(z, kind) == CountIn(x, kind) - Demand(sys, a + b, kind) {
      DemandSplits(sys, a, b, kind);
      assert CountIn(y, kind) == CountIn(x, kind) - Demand(sys, a, kind);
    }
  }

  lemma HandledFrames(done: seq<Entry>, group: seq<Entry>, before: Store, mid: Store, now: Store)
    requires NoMore(before.available, mid.available) && NoMore(mid.available, now.available)
    requires NewFrom(done, before.allocations, mid.allocations) && NewFrom(group, mid.allocations, now.allocations)
    ensures NoMore(before.available, now.available)
    ensures NewFrom(done + group, before.allocations, now.allocations)
  {
    forall k ensures CountIn(now.available, k) <= CountIn(before.available, k) {
      assert CountIn(mid.available, k) <= CountIn(before.available, k);
    }
    forall s | HasEntry(done, s) || HasEntry(group, s) ensures HasEntry(done + group, s) {
      HasEntryParts(done, group, s);
    }
  }

  /** Fairness among those left over, from group to group. */
  lemma ProgressFair(sys: System, q: seq<Entry>, done: seq<Entry>, group: seq<Entry>, rest: seq<Entry>,
                     left: seq<Entry>, left': seq<Entry>, before: Store, mid: Store, now: Store, policy: Policy)
    requires InProgress(sys, q, done, group + rest, left, before, mid, policy)
    requires Precedes(group, rest)
    requires Handled(sys, group, left', mid, now, policy)
    requires FairAmong(sys, left, mid.allocations, false) && FairAmong(sys, left', now.allocations, false)
    ensures FairAmong(sys, left + left', now.allocations, false)
  {
    hide RunOk, AllServed, Ample, AllocatedWell, NewFrom, Conserved, UsedUp, NoMore, Settled, DistinctServers,
         LeftFrom, Precedes, AllOk, FairAmong;
    assert q == (done + group) + rest;
    PartsAreDisjoint(done + group, rest);
    OthersUntouched(done, group, mid, now);
    ProgressOrder(done, group, rest);
    forall i | 0 <= i < |left| ensures SameAllocation(left[i].server, mid.allocations, now.allocations) {
      HasEntryAt(left, i);
      LeftServers(left, done, left[i].server);
    }
    FairGrows(sys, done, group, left, left', mid.allocations, now.allocations);
  }

  lemma ProgressEnds(sys: System, q: seq<Entry>, done: seq<Entry>, left: seq<Entry>, before: Store, now: Store, policy: Policy)
    requires InProgress(sys, q, done, [], left, before, now, policy)
    ensures Handled(sys, q, left, before, now, policy)
  {
    hide Handled, RunOk;
    assert q == done;
  }
}
