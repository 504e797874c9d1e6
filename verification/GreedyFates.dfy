/** What becomes of every server.  A run gives it the first of its candidates that fits, drops it at a
    candidate that cannot be looked up, or gives up on it after every candidate was refused; best
    effort then does what can be done for those given up. */
module GreedyFates {
  import opened Basics
  import opened GreedyModel
  import opened GreedyAllocate
  import opened BestEffort

  /** Saturated allocation policy. */
  datatype Policy = NoBestEffort | PriorityExhaustive | PriorityRoundRobin | RoundRobinForAll

  /** The policies that share in rounds. */
  predicate SharesInRounds(policy: Policy) {
    policy == PriorityRoundRobin || policy == RoundRobinForAll
  }

  lemma RunOkFacts(sys: System, c: Config)
    requires RunOk(sys, c)
    ensures WellFormed(sys) && AllLive(c.queue) && Conserved(sys, c.store)
    ensures DistinctServers(c.queue) && DistinctServers(c.unallocated)
    ensures Leftover(sys, c.store, c.unallocated)
  {
    hide Conserved, WellFormed, UnallocatedOk, QueuedOk;
    PartsAreDisjoint(c.queue, c.unallocated);
  }

  lemma QueueOk(sys: System, c: Config)
    requires RunOk(sys, c)
    ensures AllOk(sys, c.queue)
    ensures forall i :: 0 <= i < |c.queue| ==> c.queue[i].server !in c.store.allocations
  {
    hide Conserved, WellFormed, UnallocatedOk, DistinctServers;
    forall i | 0 <= i < |c.queue| ensures EntryOk(sys, c.queue[i]) && c.queue[i].server !in c.store.allocations {
      assert QueuedOk(sys, c.store, c.queue[i]);
    }
  }

  // ---- Whom a run touches ----

  /** Every server of `after` that is new belongs to an entry of `q`. */
  ghost predicate NewFrom(q: seq<Entry>, before: map<Name, Allocation>, after: map<Name, Allocation>) {
    forall s :: s in after && s !in before ==> HasEntry(q, s)
  }

  lemma StepServers(sys: System, c: Config)
    requires c.queue != [] && AllLive(c.queue)
    ensures var c' := Step(sys, c);
            && NewFrom(c.queue, c.store.allocations, c'.store.allocations)
            && (forall s :: HasEntry(c'.queue, s) ==> HasEntry(c.queue, s))
            && (forall s :: HasEntry(c'.unallocated, s) ==> HasEntry(c.unallocated, s) || HasEntry(c.queue, s))
  {
    hide Order, Known, Units, Kind, Reinsert, LeftFrom, HasEntry;
    var c', n := Step(sys, c), |c.unallocated|;
    HasEntryAt(c.queue, 0);
    StepLeaves(sys, c);
    forall s | HasEntry(c'.queue, s) ensures HasEntry(c.queue, s) {
      LeftServers(c'.queue, c.queue, s);
    }
    var more := c'.unallocated[n..];
    assert c'.unallocated == c.unallocated + more;
    forall s | HasEntry(c'.unallocated, s) ensures HasEntry(c.unallocated, s) || HasEntry(c.queue, s) {
      HasEntryParts(c.unallocated, more, s);
      if HasEntry(more, s) {
        LeftServers(more, c.queue, s);
      }
    }
  }

  /** A run gives allocations, and gives up, only on servers of its queue. */
  lemma {:induction false} RunServers(sys: System, c: Config)
    requires AllLive(c.queue)
    ensures NewFrom(c.queue, c.store.allocations, Run(sys, c).store.allocations)
    ensures forall s :: HasEntry(Run(sys, c).unallocated, s) ==> HasEntry(c.unallocated, s) || HasEntry(c.queue, s)
    decreases Remaining(c.queue)
  {
    hide Step, HasEntry;
    if c.queue != [] {
      StepProgress(sys, c);
      StepServers(sys, c);
      RunServers(sys, Step(sys, c));
    }
  }

  /** The same server with the same candidates, possibly further through them. */
  predicate SameServer(a: Entry, b: Entry) {
    a.server == b.server && a.candidates == b.candidates && a.priority == b.priority
  }

  ghost predicate Origin(e: Entry, q: seq<Entry>) {
    exists j :: 0 <= j < |q| && SameServer(e, q[j])
  }

  ghost predicate LeftFrom(left: seq<Entry>, q: seq<Entry>) {
    forall i :: 0 <= i < |left| ==> Origin(left[i], q)
  }

  lemma OriginKept(q: seq<Entry>, q': seq<Entry>, e: Entry)
    requires Origin(e, q') && LeftFrom(q', q)
    ensures Origin(e, q)
  {
    var j :| 0 <= j < |q'| && SameServer(e, q'[j]);
    assert Origin(q'[j], q);
    var k :| 0 <= k < |q| && SameServer(q'[j], q[k]);
    assert SameServer(e, q[k]);
  }

  lemma LeftServers(left: seq<Entry>, q: seq<Entry>, s: Name)
    requires LeftFrom(left, q) && HasEntry(left, s)
    ensures HasEntry(q, s)
  {
    var i :| 0 <= i < |left| && left[i].server == s;
    assert Origin(left[i], q);
    var j :| 0 <= j < |q| && SameServer(left[i], q[j]);
    assert q[j].server == s;
  }

  /** A run gives up only on entries of its queue. */
  lemma {:induction false} RunLeaves(sys: System, c: Config)
    requires AllLive(c.queue)
    ensures var un := Run(sys, c).unallocated;
            && |c.unallocated| <= |un| && un[..|c.unallocated|] == c.unallocated
            && LeftFrom(un[|c.unallocated|..], c.queue)
    decreases Remaining(c.queue)
  {
    hide Step, Origin;
    if c.queue != [] {
      var c' := Step(sys, c);
      StepProgress(sys, c);
      StepLeaves(sys, c);
      RunLeaves(sys, c');
      var un, n, n' := Run(sys, c).unallocated, |c.unallocated|, |c'.unallocated|;
      assert un[..n] == un[..n'][..n];
      forall i | n <= i < |un| ensures Origin(un[i], c.queue) {
        if i < n' {
          assert un[i] == un[..n'][i] == c'.unallocated[i];
          assert c'.unallocated[n..][i - n] == un[i];
        } else {
          assert un[n'..][i - n'] == un[i];
          OriginKept(c.queue, c'.queue, un[i]);
        }
      }
    }
  }

  lemma StepLeaves(sys: System, c: Config)
    requires c.queue != [] && AllLive(c.queue)
    ensures var c', n := Step(sys, c), |c.unallocated|;
            && n <= |c'.unallocated| && c'.unallocated[..n] == c.unallocated
            && LeftFrom(c'.unallocated[n..], c.queue)
            && LeftFrom(c'.queue, c.queue)
  {
    hide Order, Known, Units, Kind, InsertPos;
    var top, rest, c', n := c.queue[0], c.queue[1..], Step(sys, c), |c.unallocated|;
    forall i | 0 <= i < |rest| ensures Origin(rest[i], c.queue) {
      assert SameServer(rest[i], c.queue[i + 1]);
    }
    if Judge(sys, top, c.store) == Refuse {
      var next := top.Advance();
      assert SameServer(next, c.queue[0]);
      if next.curIndex == |next.candidates| {
        assert c'.unallocated[n..] == [next];
      } else {
        var p := InsertPos(rest, next);
        forall i | 0 <= i < |c'.queue| ensures Origin(c'.queue[i], c.queue) {
          assert c'.queue[i] == if i < p then rest[i] else if i == p then next else rest[i - 1];
        }
      }
    }
  }

  // ---- No server is lost ----

  /** The server holds candidate `i`, and every candidate it prefers would still be refused. */
  ghost predicate GotFirst(sys: System, e: Entry, st: Store, i: nat)
    requires i < |e.candidates|
  {
    && e.server in st.allocations && st.allocations[e.server] == e.candidates[i]
    && forall j :: 0 <= j < i ==> Refuses(sys, st, e.server, e.candidates[j])
  }

  ghost predicate FirstFitting(sys: System, e: Entry, st: Store) {
    exists i :: 0 <= i < |e.candidates| && GotFirst(sys, e, st, i)
  }

  /** Candidate `i` cannot be looked up (its accelerator, the model or the server is missing), and
      every candidate before it would still be refused. */
  ghost predicate Unusable(sys: System, e: Entry, st: Store, i: nat)
    requires i < |e.candidates|
  {
    && !Known(sys, e.server, e.candidates[i])
    && forall j :: 0 <= j < i ==> Refuses(sys, st, e.server, e.candidates[j])
  }

  /** Dropped without an allocation: there was nothing to try, or the candidate whose turn came
      cannot be looked up. */
  ghost predicate Dropped(sys: System, e: Entry, st: Store) {
    && e.server !in st.allocations
    && (e.candidates == [] || exists i :: 0 <= i < |e.candidates| && Unusable(sys, e, st, i))
  }

  ghost predicate GaveUp(e: Entry, un: seq<Entry>) {
    exists i :: 0 <= i < |un| && un[i].server == e.server && un[i].candidates == e.candidates
  }

  /** The fate of a server: given up, or served with the first candidate that fitted, or dropped. */
  ghost predicate Accounted(sys: System, e: Entry, c: Config) {
    || GaveUp(e, c.unallocated)
    || (!HasEntry(c.queue + c.unallocated, e.server) && (FirstFitting(sys, e, c.store) || Dropped(sys, e, c.store)))
  }

  /** The first fitting candidate stays the first fitting one. */
  lemma FirstFittingStays(sys: System, e: Entry, st: Store, st': Store)
    requires FirstFitting(sys, e, st) && NoMore(st.available, st'.available)
    requires e.server in st'.allocations && st'.allocations[e.server] == st.allocations[e.server]
    ensures FirstFitting(sys, e, st')
  {
    var i :| 0 <= i < |e.candidates| && GotFirst(sys, e, st, i);
    StillRefused(sys, e, st, st', i);
    assert GotFirst(sys, e, st', i);
  }

  lemma StillRefused(sys: System, e: Entry, st: Store, st': Store, i: nat)
    requires NoMore(st.available, st'.available) && i <= |e.candidates|
    requires forall j :: 0 <= j < i ==> Refuses(sys, st, e.server, e.candidates[j])
    ensures forall j :: 0 <= j < i ==> Refuses(sys, st', e.server, e.candidates[j])
  {
    forall j | 0 <= j < i ensures Refuses(sys, st', e.server, e.candidates[j]) {
      assert Refuses(sys, st, e.server, e.candidates[j]);
      var k := Kind(sys, e.server, e.candidates[j]);
      assert CountIn(st'.available, k) <= CountIn(st.available, k);
    }
  }

  /** A dropped server stays dropped for the same reason. */
  lemma DroppedStays(sys: System, e: Entry, st: Store, st': Store)
    requires Dropped(sys, e, st) && NoMore(st.available, st'.available) && e.server !in st'.allocations
    ensures Dropped(sys, e, st')
  {
    if e.candidates != [] {
      var i :| 0 <= i < |e.candidates| && Unusable(sys, e, st, i);
      StillRefused(sys, e, st, st', i);
      assert Unusable(sys, e, st', i);
    }
  }

  /** The head of the queue after its round: accounted for, or waiting with its next candidate. */
  lemma HeadAccounted(sys: System, c: Config)
    requires RunOk(sys, c) && c.queue != []
    ensures var top, c' := c.queue[0], Step(sys, c);
            || Accounted(sys, top, c')
            || exists i :: 0 <= i < |c'.queue| && c'.queue[i].server == top.server && c'.queue[i].candidates == top.candidates
  {
    hide Order, Conserved, WellFormed, DistinctServers, UnallocatedOk, HasEntry;
    var top, rest, c' := c.queue[0], c.queue[1..], Step(sys, c);
    assert QueuedOk(sys, c.store, top);
    HeadIsGone(c);
    match Judge(sys, top, c.store)
    case Drop =>
      assert top.candidates != [] ==> Unusable(sys, top, c'.store, top.curIndex);
    case Serve =>
      ServeKeeps(sys, c);
      assert GotFirst(sys, top, c.store.(allocations := c'.store.allocations), top.curIndex);
      FirstFittingStays(sys, top, c.store.(allocations := c'.store.allocations), c'.store);
    case Refuse =>
      var next := top.Advance();
      if next.curIndex == |next.candidates| {
        assert c'.unallocated[|c.unallocated|] == next;
      } else {
        var p := InsertPos(rest, next);
        assert c'.queue[p] == next;
      }
  }

  lemma HeadIsGone(c: Config)
    requires c.queue != [] && DistinctServers(c.queue + c.unallocated)
    ensures !HasEntry(c.queue[1..] + c.unallocated, c.queue[0].server)
  {
    var all, others := c.queue + c.unallocated, c.queue[1..] + c.unallocated;
    forall i | 0 <= i < |others| ensures others[i].server != c.queue[0].server {
      assert others[i] == all[i + 1] && all[0] == c.queue[0];
    }
  }

  lemma OthersStay(sys: System, c: Config, e: Entry)
    requires c.queue != [] && AllLive(c.queue) && e in c.queue[1..]
    ensures e in Step(sys, c).queue
  {
    hide Order, Known, Units, Kind;
    var rest := c.queue[1..];
    var j :| 0 <= j < |rest| && rest[j] == e;
    if Judge(sys, c.queue[0], c.store) == Refuse {
      var next := c.queue[0].Advance();
      if next.curIndex != |next.candidates| {
        var p := InsertPos(rest, next);
        assert Step(sys, c).queue[if j < p then j else j + 1] == e;
      }
    }
  }

  /** Once accounted for, a server stays accounted for to the end of the run. */
  lemma AccountedStays(sys: System, c: Config, e: Entry)
    requires RunOk(sys, c) && Accounted(sys, e, c)
    ensures Accounted(sys, e, Run(sys, c))
  {
    hide Run, Conserved, WellFormed, DistinctServers, UnallocatedOk, QueuedOk, HasEntry, Dropped, FirstFitting, OnlyCandidates;
    var r := Run(sys, c);
    RunKeeps(sys, c);
    RunAddsCandidates(sys, c);
    RunAppends(sys, c.queue, c.store, c.unallocated);
    RunServers(sys, c);
    HasEntryParts(c.queue, c.unallocated, e.server);
    HasEntryParts(r.queue, r.unallocated, e.server);
    NobodyAtStart();
    OnlyCandidatesKeep(sys, c.store.allocations, r.store.allocations);
    if GaveUp(e, c.unallocated) {
      var i :| 0 <= i < |c.unallocated| && c.unallocated[i].server == e.server && c.unallocated[i].candidates == e.candidates;
      assert c == Config(c.queue, c.store, c.unallocated);
      assert r.unallocated[i] == c.unallocated[i];
    } else if FirstFitting(sys, e, c.store) {
      FittedIsAllocated(sys, e, c.store);
      FirstFittingStays(sys, e, c.store, r.store);
    } else {
      DroppedUnallocated(sys, e, c.store);
      assert e.server in r.store.allocations ==> HasEntry(c.queue, e.server);
      DroppedStays(sys, e, c.store, r.store);
    }
  }

  lemma FittedIsAllocated(sys: System, e: Entry, st: Store)
    requires FirstFitting(sys, e, st)
    ensures e.server in st.allocations
  {
  }

  lemma DroppedUnallocated(sys: System, e: Entry, st: Store)
    requires Dropped(sys, e, st)
    ensures e.server !in st.allocations
  {
  }

  /** Every server of the queue ends with the first of its candidates that fitted, or given up with
      every candidate refused, or dropped at a candidate that cannot be looked up. */
  lemma {:induction false} RunAccounts(sys: System, c: Config, e: Entry)
    requires RunOk(sys, c) && e in c.queue
    ensures Accounted(sys, e, Run(sys, c))
    decreases Remaining(c.queue)
  {
    hide Conserved, WellFormed, DistinctServers, UnallocatedOk, QueuedOk, Step, Accounted;
    var c' := Step(sys, c);
    StepProgress(sys, c);
    StepKeeps(sys, c);
    if e == c.queue[0] {
      HeadAccounted(sys, c);
      if Accounted(sys, e, c') {
        AccountedStays(sys, c', e);
      } else {
        var i :| 0 <= i < |c'.queue| && c'.queue[i].server == e.server && c'.queue[i].candidates == e.candidates;
        RunAccounts(sys, c', c'.queue[i]);
        SameAccount(sys, c'.queue[i], e, Run(sys, c'));
      }
    } else {
      OthersStay(sys, c, e);
      RunAccounts(sys, c', e);
    }
  }

  lemma SameAccount(sys: System, a: Entry, b: Entry, c: Config)
    requires a.server == b.server && a.candidates == b.candidates && Accounted(sys, a, c)
    ensures Accounted(sys, b, c)
  {
    hide HasEntry;
    if FirstFitting(sys, a, c.store) {
      var i :| 0 <= i < |a.candidates| && GotFirst(sys, a, c.store, i);
      assert GotFirst(sys, b, c.store, i);
    }
    if Dropped(sys, a, c.store) && a.candidates != [] {
      var i :| 0 <= i < |a.candidates| && Unusable(sys, a, c.store, i);
      assert Unusable(sys, b, c.store, i);
    }
  }

  /** Nothing more can be done for a server that was given up.  Without best effort it holds nothing
      and no candidate fits in what is left; with best effort it holds nothing or a candidate cut
      down, and not one more replica fits. */
  ghost predicate Final(sys: System, e: Entry, st: Store, policy: Policy) {
    if policy == NoBestEffort then
      && e.server !in st.allocations
      && forall i :: 0 <= i < |e.candidates| ==> Refuses(sys, st, e.server, e.candidates[i])
    else
      && Exhausted(sys, st, e)
      && (e.server in st.allocations ==> PartlyServed(sys, e, st.allocations[e.server]))
  }

  /** The final word on a server.  If it is among those left over after the run, nothing more can be
      done for it; otherwise it has the first of its candidates that fitted, or was dropped at a
      candidate that cannot be looked up. */
  ghost predicate Settled(sys: System, e: Entry, left: seq<Entry>, st: Store, policy: Policy) {
    if HasEntry(left, e.server) then GaveUp(e, left) && Final(sys, e, st, policy)
    else FirstFitting(sys, e, st) || Dropped(sys, e, st)
  }

  lemma SettledAfterSharing(sys: System, e: Entry, end: Config, now: Store, policy: Policy)
    requires RunOk(sys, end) && end.queue == [] && Accounted(sys, e, end)
    requires policy == NoBestEffort ==> now == end.store
    requires policy != NoBestEffort ==> Shared(sys, end.unallocated, end.store, now)
    ensures Settled(sys, e, end.unallocated, now, policy)
  {
    hide Conserved, WellFormed, DistinctServers, QueuedOk, PartlyServed, HasEntry, FirstFitting, Dropped, Exhausted,
         UnallocatedOk, Final;
    HasEntryParts(end.queue, end.unallocated, e.server);
    NobodyAtStart();
    NewFromLeft(sys, end.unallocated, end.store, now, policy);
    if GaveUp(e, end.unallocated) {
      var i :| 0 <= i < |end.unallocated| && end.unallocated[i].server == e.server && end.unallocated[i].candidates == e.candidates;
      HasEntryAt(end.unallocated, i);
      LeftIsFinal(sys, end, now, policy, i);
      SameFinal(sys, end.unallocated[i], e, now, policy);
    } else if FirstFitting(sys, e, end.store) {
      FittedIsAllocated(sys, e, end.store);
      FirstFittingStays(sys, e, end.store, now);
    } else {
      DroppedUnallocated(sys, e, end.store);
      DroppedStays(sys, e, end.store, now);
    }
  }

  lemma NewFromLeft(sys: System, un: seq<Entry>, mid: Store, now: Store, policy: Policy)
    requires policy == NoBestEffort ==> now == mid
    requires policy != NoBestEffort ==> Shared(sys, un, mid, now)
    ensures NoMore(mid.available, now.available)
    ensures forall s :: s in mid.allocations ==> s in now.allocations && now.allocations[s] == mid.allocations[s]
    ensures NewFrom(un, mid.allocations, now.allocations)
  {
    hide PartlyServed;
  }

  lemma LeftIsFinal(sys: System, end: Config, now: Store, policy: Policy, i: nat)
    requires RunOk(sys, end) && i < |end.unallocated|
    requires policy == NoBestEffort ==> now == end.store
    requires policy != NoBestEffort ==> Shared(sys, end.unallocated, end.store, now)
    ensures Final(sys, end.unallocated[i], now, policy)
  {
    hide Conserved, WellFormed, QueuedOk, PartlyServed, DistinctServers;
    var un := end.unallocated;
    var e := un[i];
    assert UnallocatedOk(sys, end.store, e);
    PartsAreDisjoint(end.queue, un);
    if policy != NoBestEffort && e.server in now.allocations {
      var j :| 0 <= j < |un| && un[j].server == e.server && PartlyServed(sys, un[j], now.allocations[e.server]);
      SameIndex(un, i, j);
    }
  }

  lemma SameIndex(q: seq<Entry>, i: nat, j: nat)
    requires DistinctServers(q) && i < |q| && j < |q| && q[i].server == q[j].server
    ensures i == j
  {
  }

  lemma SameFinal(sys: System, a: Entry, b: Entry, st: Store, policy: Policy)
    requires a.server == b.server && a.candidates == b.candidates && Final(sys, a, st, policy)
    ensures Final(sys, b, st, policy)
  {
    if policy != NoBestEffort && a.server in st.allocations {
      var i :| 0 <= i < |a.candidates| && CutDown(sys, a.server, a.candidates[i], st.allocations[a.server]);
      assert CutDown(sys, b.server, b.candidates[i], st.allocations[b.server]);
    }
  }

  /** A settled server stays settled while others are served. */
  lemma SettledStays(sys: System, e: Entry, left: seq<Entry>, left': seq<Entry>, mid: Store, now: Store, policy: Policy)
    requires Settled(sys, e, left, mid, policy) && NoMore(mid.available, now.available)
    requires SameAllocation(e.server, mid.allocations, now.allocations)
    requires !HasEntry(left', e.server)
    ensures Settled(sys, e, left + left', now, policy)
  {
    hide HasEntry, FirstFitting, Dropped;
    HasEntryParts(left, left', e.server);
    if HasEntry(left, e.server) {
      var i :| 0 <= i < |left| && left[i].server == e.server && left[i].candidates == e.candidates;
      assert (left + left')[i] == left[i];
      if policy == NoBestEffort {
        StillRefused(sys, e, mid, now, |e.candidates|);
      } else {
        forall a | NoRoom(sys, mid.available, e.server, a) ensures NoRoom(sys, now.available, e.server, a) {
          if Known(sys, e.server, a) {
            var k := Kind(sys, e.server, a);
            assert CountIn(now.available, k) <= CountIn(mid.available, k);
          }
        }
      }
    } else if FirstFitting(sys, e, mid) {
      FittedIsAllocated(sys, e, mid);
      FirstFittingStays(sys, e, mid, now);
    } else {
      DroppedUnallocated(sys, e, mid);
      DroppedStays(sys, e, mid, now);
    }
  }
}
