/** The first phase of the greedy solver: a queue of servers ordered by priority and by the penalty
    of moving to the next candidate, served until empty.  The run is defined step by step, and what
    holds over every run is proved: it terminates, conserves units, refuses for good, and does not
    mix priority groups. */
module GreedyAllocate {
  import opened Basics
  import opened GreedyModel

  const MAX_FLOAT32: real := 340282346638528859811704183484516925440.0

  /** A server waiting for an allocation, with its candidates in order of value. */
  datatype Entry = Entry(server: Name, priority: int, curIndex: nat, candidates: seq<Allocation>, delta: real) {
    /** An entry in the queue still has a current candidate, unless it never had any. */
    predicate Live() {
      candidates == [] || curIndex < |candidates|
    }

    /** Move to the next candidate; the delta is the penalty of losing that one too. */
    function Advance(): (e: Entry)
      requires curIndex < |candidates|
      ensures e.server == server && e.priority == priority && e.candidates == candidates
      ensures e.curIndex == curIndex + 1
    {
      var cur := curIndex + 1;
      var delta' :=
        if cur + 1 < |candidates| then candidates[cur + 1].value - candidates[cur].value
        else if cur == |candidates| then delta
        else MAX_FLOAT32;
      this.(curIndex := cur, delta := delta')
    }

    function CurrentValue(): real {
      if curIndex < |candidates| then candidates[curIndex].value else 0.0
    }
  }

  function CompareInt(x: int, y: int): int {
    if x < y then -1 else if x > y then 1 else 0
  }

  function CompareReal(x: real, y: real): int {
    if x < y then -1 else if x > y then 1 else 0
  }

  /** Straight priorities, then larger delta first, then larger current value first. */
  function Order(a: Entry, b: Entry): int {
    if a.priority == b.priority then
      if a.delta == b.delta then CompareReal(b.CurrentValue(), a.CurrentValue())
      else CompareReal(b.delta, a.delta)
    else CompareInt(a.priority, b.priority)
  }

  ghost predicate Sorted(q: seq<Entry>) {
    forall i, j :: 0 <= i < j < |q| ==> Order(q[i], q[j]) <= 0
  }

  ghost predicate AllLive(q: seq<Entry>) {
    forall i :: 0 <= i < |q| ==> q[i].Live()
  }

  /** Every server has at most one entry. */
  ghost predicate DistinctServers(q: seq<Entry>) {
    forall i, j :: 0 <= i < j < |q| ==> q[i].server != q[j].server
  }

  // ---- Re-insertion ----

  /** The first position whose entry does not come before `e`. */
  function InsertPos(q: seq<Entry>, e: Entry): (i: nat)
    ensures i <= |q|
    ensures forall j :: 0 <= j < i ==> Order(q[j], e) < 0
    ensures i < |q| ==> Order(q[i], e) >= 0
  {
    if q == [] || Order(q[0], e) >= 0 then 0 else 1 + InsertPos(q[1..], e)
  }

  function InsertAt(q: seq<Entry>, i: nat, e: Entry): seq<Entry>
    requires i <= |q|
  {
    q[..i] + [e] + q[i..]
  }

  function Reinsert(q: seq<Entry>, e: Entry): seq<Entry> {
    InsertAt(q, InsertPos(q, e), e)
  }

  /** The library's binary search: on a sorted queue it finds the first position that does not come
      before the target. */
  method BinarySearchFunc(q: seq<Entry>, e: Entry) returns (i: nat)
    requires Sorted(q)
    ensures i == InsertPos(q, e)
  {
    i := 0;
    var j := |q|;
    while i < j
      invariant 0 <= i <= j <= |q|
      invariant forall k :: 0 <= k < i ==> Order(q[k], e) < 0
      invariant forall k :: j <= k < |q| ==> Order(q[k], e) >= 0
    {
      var h := (i + j) / 2;
      if Order(q[h], e) < 0 {
        i := h + 1;
      } else {
        j := h;
      }
    }
    InsertPosUnique(q, e, i);
  }

  lemma {:induction false} InsertPosUnique(q: seq<Entry>, e: Entry, i: nat)
    requires i <= |q|
    requires forall k :: 0 <= k < i ==> Order(q[k], e) < 0
    requires i < |q| ==> Order(q[i], e) >= 0
    ensures i == InsertPos(q, e)
  {
    hide Order;
    if i > 0 {
      InsertPosUnique(q[1..], e, i - 1);
    }
  }

  /** Re-insertion keeps the queue sorted. */
  lemma ReinsertSorted(q: seq<Entry>, e: Entry)
    requires Sorted(q)
    ensures Sorted(Reinsert(q, e))
  {
    hide Order, InsertPos;
    var i, r := InsertPos(q, e), Reinsert(q, e);
    forall a, b | 0 <= a < b < |r| ensures Order(r[a], r[b]) <= 0 {
      assert r[a] == if a < i then q[a] else if a == i then e else q[a - 1];
      assert r[b] == if b < i then q[b] else if b == i then e else q[b - 1];
      if a == i {
        OrderFlips(q[i], e);
        OrderTransitive(e, q[i], q[b - 1]);
      }
    }
  }

  lemma OrderFlips(a: Entry, b: Entry)
    ensures Order(b, a) == 0 - Order(a, b)
  {
  }

  lemma OrderTransitive(a: Entry, b: Entry, c: Entry)
    ensures Order(a, b) <= 0 && Order(b, c) <= 0 ==> Order(a, c) <= 0
  {
  }

  /** What queue order means: nobody behind the head has a better priority; at equal priority nobody
      would lose more by being passed over; at equal loss nobody has a dearer current candidate. */
  lemma HeadIsPreferred(q: seq<Entry>, i: nat)
    requires Sorted(q) && 0 < i < |q|
    ensures q[0].priority <= q[i].priority
    ensures q[0].priority == q[i].priority ==> q[0].delta >= q[i].delta
    ensures q[0].priority == q[i].priority && q[0].delta == q[i].delta
            && q[0].curIndex < |q[0].candidates| && q[i].curIndex < |q[i].candidates| ==>
              q[0].candidates[q[0].curIndex].value >= q[i].candidates[q[i].curIndex].value
  {
    assert Order(q[0], q[i]) <= 0;
  }

  /** The delta is what the server loses when its current candidate is refused and the next one is
      not; without a next one it is the largest float. */
  ghost predicate DeltaOk(e: Entry) {
    e.curIndex < |e.candidates| ==>
      e.delta == if e.curIndex + 1 < |e.candidates|
                 then e.candidates[e.curIndex + 1].value - e.candidates[e.curIndex].value else MAX_FLOAT32
  }

  // ---- The run ----

  datatype Config = Config(queue: seq<Entry>, store: Store, unallocated: seq<Entry>)

  datatype Verdict = Drop | Serve | Refuse

  /** The fate of the entry at the head of the queue. */
  function Judge(sys: System, top: Entry, st: Store): Verdict
    requires top.Live()
  {
    if top.candidates == [] then Drop
    else
      var a := top.candidates[top.curIndex];
      if !Known(sys, top.server, a) then Drop
      else if CountIn(st.available, Kind(sys, top.server, a)) >= Units(sys, top.server, a) then Serve
      else Refuse
  }

  /** One round of the loop: take the head and drop it, serve it, or move it to its next candidate. */
  function Step(sys: System, c: Config): Config
    requires c.queue != [] && AllLive(c.queue)
  {
    var top, rest := c.queue[0], c.queue[1..];
    match Judge(sys, top, c.store)
    case Drop => c.(queue := rest)
    case Serve =>
      var a := top.candidates[top.curIndex];
      c.(queue := rest,
         store := Grant(c.store, top.server, a, Kind(sys, top.server, a), Units(sys, top.server, a)))
    case Refuse =>
      var next := top.Advance();
      if next.curIndex == |next.candidates| then c.(queue := rest, unallocated := c.unallocated + [next])
      else c.(queue := Reinsert(rest, next))
  }

  /** Rounds an entry can still cost. */
  function Rounds(e: Entry): nat
    requires e.Live()
  {
    |e.candidates| - (if e.candidates == [] then 0 else e.curIndex) + 1
  }

  function Remaining(q: seq<Entry>): nat
    requires AllLive(q)
  {
    if q == [] then 0 else Rounds(q[0]) + Remaining(q[1..])
  }

  lemma {:induction false} RemainingInsert(q: seq<Entry>, i: nat, e: Entry)
    requires AllLive(q) && i <= |q| && e.Live()
    ensures AllLive(InsertAt(q, i, e))
    ensures Remaining(InsertAt(q, i, e)) == Remaining(q) + Rounds(e)
  {
    var r := InsertAt(q, i, e);
    if i == 0 {
      assert r[1..] == q;
    } else {
      assert r[1..] == InsertAt(q[1..], i - 1, e);
      RemainingInsert(q[1..], i - 1, e);
    }
  }

  /** Every round uses up one unit of remaining work. */
  lemma StepProgress(sys: System, c: Config)
    requires c.queue != [] && AllLive(c.queue)
    ensures AllLive(Step(sys, c).queue)
    ensures Remaining(Step(sys, c).queue) < Remaining(c.queue)
  {
    var top, rest := c.queue[0], c.queue[1..];
    if Judge(sys, top, c.store) == Refuse {
      var next := top.Advance();
      if next.curIndex != |next.candidates| {
        RemainingInsert(rest, InsertPos(rest, next), next);
      }
    }
  }

  /** The whole run, until the queue is empty. */
  function Run(sys: System, c: Config): (r: Config)
    requires AllLive(c.queue)
    ensures r.queue == []
    decreases Remaining(c.queue)
  {
    if c.queue == [] then c
    else
      StepProgress(sys, c);
      Run(sys, Step(sys, c))
  }

  // ---- What every run keeps ----

  /** Deltas stay current as entries move through their candidates. */
  lemma StepKeepsDeltas(sys: System, c: Config)
    requires c.queue != [] && AllLive(c.queue)
    requires forall i :: 0 <= i < |c.queue| ==> DeltaOk(c.queue[i])
    ensures forall i :: 0 <= i < |Step(sys, c).queue| ==> DeltaOk(Step(sys, c).queue[i])
  {
    hide Order, Known, Kind, Units;
    var top, rest, c' := c.queue[0], c.queue[1..], Step(sys, c);
    if Judge(sys, top, c.store) == Refuse && top.curIndex + 1 != |top.candidates| {
      var p := InsertPos(rest, top.Advance());
      assert DeltaOk(top.Advance());
      forall i | 0 <= i < |c'.queue| ensures DeltaOk(c'.queue[i]) {
        assert c'.queue[i] == if i < p then c.queue[i + 1] else if i == p then top.Advance() else c.queue[i];
      }
    }
  }

  /** The state of the loop after `n` rounds, or at its end if that comes sooner. */
  function After(sys: System, c: Config, n: nat): Config
    requires AllLive(c.queue)
    decreases n
  {
    if n == 0 || c.queue == [] then c
    else
      StepProgress(sys, c);
      After(sys, Step(sys, c), n - 1)
  }

  /** At every round of every run, from the start to the end: the queue is in order, every delta is
      current, units are conserved and never overdrawn, every refusal still stands, and the rest of
      the run leads to the same end. */
  lemma {:induction false} EveryRound(sys: System, c: Config, n: nat)
    requires AllLive(c.queue) && Sorted(c.queue)
    requires forall i :: 0 <= i < |c.queue| ==> DeltaOk(c.queue[i])
    ensures var now := After(sys, c, n);
            && AllLive(now.queue) && Sorted(now.queue)
            && (forall i :: 0 <= i < |now.queue| ==> DeltaOk(now.queue[i]))
            && (RunOk(sys, c) ==> RunOk(sys, now) && NoMore(c.store.available, now.store.available))
            && Run(sys, now) == Run(sys, c)
            && (n >= Remaining(c.queue) ==> now == Run(sys, c))
    decreases n
  {
    hide Step, Sorted, DeltaOk, RunOk;
    if c.queue == [] {
    } else if n == 0 {
      assert Remaining(c.queue) >= Rounds(c.queue[0]) > 0;
    } else {
      StepProgress(sys, c);
      StepKeepsDeltas(sys, c);
      StepKeepsOrder(sys, c);
      if RunOk(sys, c) {
        StepKeeps(sys, c);
      }
      EveryRound(sys, Step(sys, c), n - 1);
    }
  }

  lemma StepKeepsOrder(sys: System, c: Config)
    requires c.queue != [] && AllLive(c.queue) && Sorted(c.queue)
    ensures Sorted(Step(sys, c).queue)
  {
    hide Order, Known, Kind, Units, Sorted, Reinsert;
    SortedSuffix(c.queue, 1);
    if Judge(sys, c.queue[0], c.store) == Refuse {
      ReinsertSorted(c.queue[1..], c.queue[0].Advance());
    }
  }

  /** All candidates before the current one have been refused, and would be refused again. */
  ghost predicate RefusedSoFar(sys: System, st: Store, e: Entry) {
    forall i :: 0 <= i < e.curIndex && i < |e.candidates| ==> Refuses(sys, st, e.server, e.candidates[i])
  }

  ghost predicate Refuses(sys: System, st: Store, s: Name, a: Allocation) {
    Known(sys, s, a) && CountIn(st.available, Kind(sys, s, a)) < Units(sys, s, a)
  }

  /** The entry of a server that exists; its candidates are candidates of that server. */
  ghost predicate EntryOk(sys: System, e: Entry) {
    && e.server in sys.servers
    && forall i :: 0 <= i < |e.candidates| ==> e.candidates[i] in sys.servers[e.server].candidates.Values
  }

  /** The invariant of the loop.  Queue and unallocated entries are distinct servers without an
      allocation; units are conserved; every refusal still stands. */
  ghost predicate RunOk(sys: System, c: Config) {
    && WellFormed(sys)
    && AllLive(c.queue)
    && Conserved(sys, c.store)
    && DistinctServers(c.queue + c.unallocated)
    && (forall i :: 0 <= i < |c.queue| ==> QueuedOk(sys, c.store, c.queue[i]))
    && (forall i :: 0 <= i < |c.unallocated| ==> UnallocatedOk(sys, c.store, c.unallocated[i]))
  }

  ghost predicate QueuedOk(sys: System, st: Store, e: Entry) {
    EntryOk(sys, e) && e.server !in st.allocations && RefusedSoFar(sys, st, e)
  }

  /** Given up: no candidate of the entry fits in what is left. */
  ghost predicate UnallocatedOk(sys: System, st: Store, e: Entry) {
    && EntryOk(sys, e) && e.server !in st.allocations
    && forall i :: 0 <= i < |e.candidates| ==> Refuses(sys, st, e.server, e.candidates[i])
  }

  lemma CandidatePriced(sys: System, e: Entry, i: nat)
    requires WellFormed(sys) && EntryOk(sys, e) && i < |e.candidates|
    ensures Priced(sys, e.server, e.candidates[i])
  {
    assert CandidatesOk(sys, e.server);
    var g :| g in sys.servers[e.server].candidates && sys.servers[e.server].candidates[g] == e.candidates[i];
  }

  /** A refusal stands when availability only shrinks. */
  lemma RefusalStands(sys: System, st: Store, st': Store, e: Entry)
    requires NoMore(st.available, st'.available) && e.server !in st'.allocations
    ensures QueuedOk(sys, st, e) ==> QueuedOk(sys, st', e)
    ensures UnallocatedOk(sys, st, e) ==> UnallocatedOk(sys, st', e)
  {
    forall a | Refuses(sys, st, e.server, a) ensures Refuses(sys, st', e.server, a) {
      var k := Kind(sys, e.server, a);
      assert CountIn(st'.available, k) <= CountIn(st.available, k);
    }
  }

  lemma ServeKeeps(sys: System, c: Config)
    requires RunOk(sys, c) && c.queue != [] && Judge(sys, c.queue[0], c.store) == Serve
    ensures RunOk(sys, Step(sys, c))
    ensures NoMore(c.store.available, Step(sys, c).store.available)
  {
    var top, c' := c.queue[0], Step(sys, c);
    var a := top.candidates[top.curIndex];
    assert QueuedOk(sys, c.store, top);
    CandidatePriced(sys, top, top.curIndex);
    UnitsNonNegative(sys, top.server, a);
    GrantConserves(sys, c.store, top.server, a);
    var all := c.queue + c.unallocated;
    assert all[0] == top;
    assert c'.queue + c'.unallocated == all[1..];
    forall i | 0 <= i < |c'.queue| ensures QueuedOk(sys, c'.store, c'.queue[i]) {
      assert c'.queue[i] == all[i + 1] && QueuedOk(sys, c.store, c.queue[i + 1]);
      RefusalStands(sys, c.store, c'.store, c'.queue[i]);
    }
    forall i | 0 <= i < |c'.unallocated| ensures UnallocatedOk(sys, c'.store, c'.unallocated[i]) {
      assert c'.unallocated[i] == all[|c.queue| + i];
      RefusalStands(sys, c.store, c'.store, c'.unallocated[i]);
    }
  }

  lemma DistinctAfterInsert(top: Entry, rest: seq<Entry>, tail: seq<Entry>, p: nat, e: Entry)
    requires DistinctServers([top] + rest + tail)
    requires p <= |rest| && e.server == top.server
    ensures DistinctServers(InsertAt(rest, p, e) + tail)
  {
    var all, all' := [top] + rest + tail, InsertAt(rest, p, e) + tail;
    forall i | 0 <= i < |all'|
      ensures all'[i].server == (if i < p then all[i + 1] else if i == p then all[0] else all[i]).server
    {
    }
    forall i, j | 0 <= i < j < |all'| ensures all'[i].server != all'[j].server {
      assert all'[i].server == (if i < p then all[i + 1] else if i == p then all[0] else all[i]).server;
      assert all'[j].server == (if j < p then all[j + 1] else if j == p then all[0] else all[j]).server;
    }
  }

  lemma DistinctAfterMove(top: Entry, rest: seq<Entry>, e: Entry)
    requires DistinctServers([top] + rest)
    requires e.server == top.server
    ensures DistinctServers(rest + [e])
  {
    var all := [top] + rest;
    assert all[1..] == rest;
    forall i | 0 <= i < |rest| ensures rest[i].server != top.server {
      assert rest[i] == all[i + 1] && all[0].server != all[i + 1].server;
    }
  }

  lemma RefuseKeeps(sys: System, c: Config)
    requires RunOk(sys, c) && c.queue != [] && Judge(sys, c.queue[0], c.store) == Refuse
    ensures RunOk(sys, Step(sys, c))
  {
    hide Order, Conserved, WellFormed, DistinctServers, InsertPos, EntryOk, Known;
    var top, rest, c' := c.queue[0], c.queue[1..], Step(sys, c);
    var next := top.Advance();
    StepProgress(sys, c);
    assert c.queue + c.unallocated == [top] + rest + c.unallocated;
    NextRefused(sys, c.store, top);
    if next.curIndex == |next.candidates| {
      assert [top] + rest + c.unallocated == [top] + (rest + c.unallocated);
      DistinctAfterMove(top, rest + c.unallocated, next);
      assert c'.queue + c'.unallocated == rest + c.unallocated + [next];
    } else {
      var p := InsertPos(rest, next);
      DistinctAfterInsert(top, rest, c.unallocated, p, next);
      forall i | 0 <= i < |c'.queue| ensures QueuedOk(sys, c.store, c'.queue[i]) {
        assert c'.queue[i] == if i < p then c.queue[i + 1] else if i == p then next else c.queue[i];
      }
    }
  }

  /** A refused candidate joins those refused before it. */
  lemma NextRefused(sys: System, st: Store, top: Entry)
    requires top.Live() && QueuedOk(sys, st, top) && Judge(sys, top, st) == Refuse
    ensures QueuedOk(sys, st, top.Advance())
    ensures top.curIndex + 1 == |top.candidates| ==> UnallocatedOk(sys, st, top.Advance())
  {
    assert Refuses(sys, st, top.server, top.candidates[top.curIndex]);
  }

  lemma StepKeeps(sys: System, c: Config)
    requires RunOk(sys, c) && c.queue != []
    ensures RunOk(sys, Step(sys, c))
    ensures NoMore(c.store.available, Step(sys, c).store.available)
  {
    match Judge(sys, c.queue[0], c.store)
    case Drop =>
      assert (c.queue[1..] + c.unallocated) == (c.queue + c.unallocated)[1..];
    case Serve =>
      ServeKeeps(sys, c);
    case Refuse =>
      RefuseKeeps(sys, c);
  }

  /** Safety over the whole run: units are conserved and never overdrawn, and at the end no candidate
      of an unallocated server fits in what is left. */
  lemma {:induction false} RunKeeps(sys: System, c: Config)
    requires RunOk(sys, c)
    ensures RunOk(sys, Run(sys, c))
    ensures NoMore(c.store.available, Run(sys, c).store.available)
    decreases Remaining(c.queue)
  {
    if c.queue != [] {
      StepProgress(sys, c);
      StepKeeps(sys, c);
      RunKeeps(sys, Step(sys, c));
    }
  }

  /** Nothing but candidates: a run only adds allocations, each one of the server's own candidates
      exactly as it was asked for, and keeps what was there. */
  ghost predicate OnlyCandidates(sys: System, before: map<Name, Allocation>, after: map<Name, Allocation>) {
    && (forall s :: s in before ==> s in after && after[s] == before[s])
    && (forall s :: s in after && s !in before ==>
          && s in sys.servers && after[s] in sys.servers[s].candidates.Values && Known(sys, s, after[s]))
  }

  lemma {:induction false} RunAddsCandidates(sys: System, c: Config)
    requires RunOk(sys, c)
    ensures OnlyCandidates(sys, c.store.allocations, Run(sys, c).store.allocations)
    decreases Remaining(c.queue)
  {
    hide Step, OnlyCandidates, Conserved, WellFormed, DistinctServers, QueuedOk, UnallocatedOk;
    if c.queue != [] {
      StepProgress(sys, c);
      StepKeeps(sys, c);
      StepAddsCandidates(sys, c);
      RunAddsCandidates(sys, Step(sys, c));
      var a, b, z := c.store.allocations, Step(sys, c).store.allocations, Run(sys, c).store.allocations;
      OnlyCandidatesTransitive(sys, a, b, z);
    } else {
      OnlyCandidatesReflexive(sys, c.store.allocations);
    }
  }

  lemma OnlyCandidatesReflexive(sys: System, a: map<Name, Allocation>)
    ensures OnlyCandidates(sys, a, a)
  {
  }

  lemma OnlyCandidatesTransitive(sys: System, a: map<Name, Allocation>, b: map<Name, Allocation>, z: map<Name, Allocation>)
    requires OnlyCandidates(sys, a, b) && OnlyCandidates(sys, b, z)
    ensures OnlyCandidates(sys, a, z)
  {
    forall s | s in z && s !in a
      ensures s in sys.servers && z[s] in sys.servers[s].candidates.Values && Known(sys, s, z[s])
    {
      if s in b {
        assert z[s] == b[s];
      }
    }
  }

  lemma OnlyCandidatesKeep(sys: System, before: map<Name, Allocation>, after: map<Name, Allocation>)
    requires OnlyCandidates(sys, before, after)
    ensures forall s :: s in before ==> s in after && after[s] == before[s]
  {
  }

  lemma StepAddsCandidates(sys: System, c: Config)
    requires RunOk(sys, c) && c.queue != []
    ensures OnlyCandidates(sys, c.store.allocations, Step(sys, c).store.allocations)
  {
    hide Order, Reinsert, Conserved, WellFormed, DistinctServers, Units;
    assert QueuedOk(sys, c.store, c.queue[0]);
  }

  /** The head of the queue comes first: if its current candidate fits in what is available, it ends the
      run with exactly that, whoever is behind it. */
  lemma HeadServed(sys: System, c: Config)
    requires RunOk(sys, c) && c.queue != [] && c.queue[0].candidates != []
    ensures var e := c.queue[0];
            e.curIndex < |e.candidates|
    ensures var e := c.queue[0];
            var a := e.candidates[e.curIndex];
            Known(sys, e.server, a) && Units(sys, e.server, a) <= CountIn(c.store.available, Kind(sys, e.server, a)) ==>
              e.server in Run(sys, c).store.allocations && Run(sys, c).store.allocations[e.server] == a
  {
    hide Order, Reinsert, Conserved, WellFormed, DistinctServers, Known, Kind, Units, QueuedOk, UnallocatedOk, OnlyCandidates;
    var e := c.queue[0];
    var a := e.candidates[e.curIndex];
    if Known(sys, e.server, a) && Units(sys, e.server, a) <= CountIn(c.store.available, Kind(sys, e.server, a)) {
      StepKeeps(sys, c);
      RunAddsCandidates(sys, Step(sys, c));
      OnlyCandidatesKeep(sys, Step(sys, c).store.allocations, Run(sys, c).store.allocations);
    }
  }

  // ---- Priority groups do not mix ----

  /** Every entry of `a` has a strictly smaller (better) priority value than every entry of `b`. */
  ghost predicate Precedes(a: seq<Entry>, b: seq<Entry>) {
    forall i, j :: 0 <= i < |a| && 0 <= j < |b| ==> a[i].priority < b[j].priority
  }

  lemma {:induction false} InsertPosPrefix(a: seq<Entry>, b: seq<Entry>, e: Entry)
    requires forall j :: 0 <= j < |b| ==> e.priority < b[j].priority
    ensures InsertPos(a + b, e) == InsertPos(a, e)
  {
    if a == [] {
      assert a + b == b;
    } else if Order(a[0], e) < 0 {
      assert (a + b)[1..] == a[1..] + b;
      InsertPosPrefix(a[1..], b, e);
    }
  }

  /** Re-insertion into the whole queue is re-insertion into the first priority group. */
  lemma ReinsertWithinGroup(a: seq<Entry>, b: seq<Entry>, e: Entry)
    requires forall j :: 0 <= j < |b| ==> e.priority < b[j].priority
    requires Precedes(a, b)
    ensures Reinsert(a + b, e) == Reinsert(a, e) + b
    ensures Precedes(Reinsert(a, e), b)
  {
    hide Order;
    InsertPosPrefix(a, b, e);
    var p := InsertPos(a, e);
    assert InsertAt(a + b, p, e) == InsertAt(a, p, e) + b;
    forall i, j | 0 <= i < |Reinsert(a, e)| && 0 <= j < |b| ensures Reinsert(a, e)[i].priority < b[j].priority {
      assert Reinsert(a, e)[i] == if i < p then a[i] else if i == p then e else a[i - 1];
    }
  }

  /** A round of the whole queue is a round of its first priority group. */
  lemma StepWithinGroup(sys: System, a: seq<Entry>, b: seq<Entry>, st: Store, un: seq<Entry>)
    requires a != [] && AllLive(a) && AllLive(b) && Precedes(a, b)
    ensures AllLive(a + b)
    ensures var s, s' := Step(sys, Config(a, st, un)), Step(sys, Config(a + b, st, un));
            && s' == Config(s.queue + b, s.store, s.unallocated)
            && Precedes(s.queue, b)
  {
    hide Order, Reinsert, Grant, Known, Units, Kind;
    var top := a[0];
    assert (a + b)[0] == top && (a + b)[1..] == a[1..] + b;
    forall j | 0 <= j < |b| ensures top.priority < b[j].priority {
    }
    assert Precedes(a[1..], b);
    if Judge(sys, top, st) == Refuse {
      ReinsertWithinGroup(a[1..], b, top.Advance());
    }
  }

  /** Serving the whole queue is serving the first group to the end and then the rest. */
  lemma {:induction false} RunSplits(sys: System, a: seq<Entry>, b: seq<Entry>, st: Store, un: seq<Entry>)
    requires AllLive(a) && AllLive(b) && Precedes(a, b)
    ensures AllLive(a + b)
    ensures var first := Run(sys, Config(a, st, un));
            Run(sys, Config(a + b, st, un)) == Run(sys, Config(b, first.store, first.unallocated))
    decreases Remaining(a)
  {
    if a == [] {
      assert a + b == b;
    } else {
      StepWithinGroup(sys, a, b, st, un);
      var s := Step(sys, Config(a, st, un));
      StepProgress(sys, Config(a, st, un));
      RunSplits(sys, s.queue, b, s.store, s.unallocated);
      assert Step(sys, Config(a + b, st, un)) == Config(s.queue + b, s.store, s.unallocated);
    }
  }

  /** The unallocated list is only appended to and never looked at. */
  lemma {:induction false} RunAppends(sys: System, q: seq<Entry>, st: Store, un: seq<Entry>)
    requires AllLive(q)
    ensures var r, r0 := Run(sys, Config(q, st, un)), Run(sys, Config(q, st, []));
            r.store == r0.store && r.unallocated == un + r0.unallocated
    decreases Remaining(q)
  {
    hide Step;
    if q != [] {
      var s, s0 := Step(sys, Config(q, st, un)), Step(sys, Config(q, st, []));
      StepProgress(sys, Config(q, st, un));
      StepAppends(sys, q, st, un);
      RunAppends(sys, s.queue, s.store, s.unallocated);
      RunAppends(sys, s.queue, s.store, s0.unallocated);
    }
  }

  lemma StepAppends(sys: System, q: seq<Entry>, st: Store, un: seq<Entry>)
    requires q != [] && AllLive(q)
    ensures var s, s0 := Step(sys, Config(q, st, un)), Step(sys, Config(q, st, []));
            s.queue == s0.queue && s.store == s0.store && s.unallocated == un + s0.unallocated
  {
    hide Reinsert, Grant, Known, Units, Kind;
  }

  // ---- Priority groups ----

  /** Length of the leading run of entries with the priority of the first. */
  function GroupEnd(q: seq<Entry>): (n: nat)
    requires q != []
    ensures 1 <= n <= |q|
    ensures forall i :: 0 <= i < n ==> q[i].priority == q[0].priority
    ensures n < |q| ==> q[n].priority != q[0].priority
  {
    if |q| > 1 && q[1].priority == q[0].priority then 1 + GroupEnd(q[1..]) else 1
  }

  /** Maximal runs of equal priority. */
  function Groups(q: seq<Entry>): (gs: seq<seq<Entry>>)
    ensures forall i :: 0 <= i < |gs| ==> gs[i] != []
    decreases |q|
  {
    if q == [] then [] else [q[..GroupEnd(q)]] + Groups(q[GroupEnd(q)..])
  }

  method MakePriorityGroups(q: seq<Entry>) returns (groups: seq<seq<Entry>>)
    ensures groups == Groups(q)
  {
    hide Groups;
    groups := [];
    var index := 0;
    assert q[0..] == q;
    while index < |q|
      invariant 0 <= index <= |q|
      invariant Groups(q) == groups + Groups(q[index..])
    {
      ghost var start := index;
      var group := [q[index]];
      var groupPriority := q[index].priority;
      index := index + 1;
      while index < |q| && q[index].priority == groupPriority
        invariant start < index <= |q|
        invariant group == q[start..index]
        invariant forall i :: start <= i < index ==> q[i].priority == groupPriority
      {
        group := group + [q[index]];
        index := index + 1;
      }
      GroupsUnfold(q, start, index);
      assert groups + ([group] + Groups(q[index..])) == groups + [group] + Groups(q[index..]);
      groups := groups + [group];
    }
    NoGroups(q[index..]);
  }

  lemma NoGroups(q: seq<Entry>)
    requires q == []
    ensures Groups(q) == []
  {
  }

  lemma GroupsUnfold(q: seq<Entry>, start: nat, index: nat)
    requires start < index <= |q|
    requires forall i :: start <= i < index ==> q[i].priority == q[start].priority
    requires index < |q| ==> q[index].priority != q[start].priority
    ensures Groups(q[start..]) == [q[start..index]] + Groups(q[index..])
  {
    GroupEndUnique(q[start..], index - start);
    assert q[start..][..index - start] == q[start..index];
    assert q[start..][index - start..] == q[index..];
  }

  lemma {:induction false} GroupEndUnique(q: seq<Entry>, n: nat)
    requires 1 <= n <= |q|
    requires forall i :: 0 <= i < n ==> q[i].priority == q[0].priority
    requires n < |q| ==> q[n].priority != q[0].priority
    ensures n == GroupEnd(q)
  {
    if n > 1 {
      assert q[1].priority == q[0].priority;
      GroupEndUnique(q[1..], n - 1);
    }
  }

  /** Serving the groups one after the other. */
  function RunGroups(sys: System, groups: seq<seq<Entry>>, st: Store): Store
    requires forall i :: 0 <= i < |groups| ==> AllLive(groups[i])
  {
    if groups == [] then st
    else RunGroups(sys, groups[1..], Run(sys, Config(groups[0], st, [])).store)
  }

  lemma {:induction false} GroupsLive(q: seq<Entry>)
    requires AllLive(q)
    ensures forall i :: 0 <= i < |Groups(q)| ==> AllLive(Groups(q)[i])
    decreases |q|
  {
    if q != [] {
      GroupsLive(q[GroupEnd(q)..]);
    }
  }

  /** Mode equivalence: on a sorted list, serving the whole list at once leaves the same store as
      serving its priority groups one after the other. */
  lemma {:induction false} ModesAgree(sys: System, q: seq<Entry>, st: Store)
    requires AllLive(q) && Sorted(q)
    ensures forall i :: 0 <= i < |Groups(q)| ==> AllLive(Groups(q)[i])
    ensures Run(sys, Config(q, st, [])).store == RunGroups(sys, Groups(q), st)
    decreases |q|
  {
    hide Order, Step;
    GroupsLive(q);
    if q != [] {
      var n := GroupEnd(q);
      var a, b := q[..n], q[n..];
      assert q == a + b;
      FirstGroupPrecedes(q);
      RunSplits(sys, a, b, st, []);
      var first := Run(sys, Config(a, st, []));
      RunAppends(sys, b, first.store, first.unallocated);
      SortedSuffix(q, n);
      ModesAgree(sys, b, first.store);
    }
  }

  lemma SortedSuffix(q: seq<Entry>, n: nat)
    requires Sorted(q) && n <= |q|
    ensures Sorted(q[n..])
  {
  }

  lemma FirstGroupPrecedes(q: seq<Entry>)
    requires Sorted(q) && q != []
    ensures Precedes(q[..GroupEnd(q)], q[GroupEnd(q)..])
  {
    var n := GroupEnd(q);
    forall i, j | 0 <= i < n && n <= j < |q| ensures q[i].priority < q[j].priority {
      assert Order(q[i], q[n]) <= 0;
      if n < j {
        assert Order(q[n], q[j]) <= 0;
      }
    }
  }

  // ---- Enough capacity ----

  /** Units of `kind` that the current candidates of a queue ask for. */
  function Demand(sys: System, q: seq<Entry>, kind: Name): int {
    if q == [] then 0 else EntryDemand(sys, q[0], kind) + Demand(sys, q[1..], kind)
  }

  function EntryDemand(sys: System, e: Entry, kind: Name): int {
    if e.curIndex < |e.candidates| && Known(sys, e.server, e.candidates[e.curIndex])
       && Kind(sys, e.server, e.candidates[e.curIndex]) == kind
    then Units(sys, e.server, e.candidates[e.curIndex]) else 0
  }

  /** Whether the entry's current candidate exists and can be looked up.  An entry whose current
      candidate cannot be looked up asks for nothing and is dropped. */
  predicate Asks(sys: System, e: Entry) {
    e.curIndex < |e.candidates| && Known(sys, e.server, e.candidates[e.curIndex])
  }

  ghost predicate AllOk(sys: System, q: seq<Entry>) {
    forall i :: 0 <= i < |q| ==> EntryOk(sys, q[i])
  }

  lemma EntryDemandNonNegative(sys: System, e: Entry, kind: Name)
    requires WellFormed(sys) && EntryOk(sys, e)
    ensures 0 <= EntryDemand(sys, e, kind)
    ensures Asks(sys, e) ==> 0 <= Units(sys, e.server, e.candidates[e.curIndex])
  {
    hide WellFormed, Units;
    if Asks(sys, e) {
      CandidatePriced(sys, e, e.curIndex);
      UnitsNonNegative(sys, e.server, e.candidates[e.curIndex]);
    }
  }

  lemma {:induction false} DemandNonNegative(sys: System, q: seq<Entry>, kind: Name)
    requires WellFormed(sys) && AllOk(sys, q)
    ensures 0 <= Demand(sys, q, kind)
  {
    if q != [] {
      EntryDemandNonNegative(sys, q[0], kind);
      DemandNonNegative(sys, q[1..], kind);
    }
  }

  ghost predicate ServedAsAsked(e: Entry, allocations: map<Name, Allocation>) {
    && e.curIndex < |e.candidates|
    && e.server in allocations && allocations[e.server] == e.candidates[e.curIndex]
  }

  /** Served as asked exactly when the current candidate can be looked up, and else left without
      an allocation. */
  ghost predicate ServedIfKnown(sys: System, e: Entry, allocations: map<Name, Allocation>) {
    if Asks(sys, e) then ServedAsAsked(e, allocations) else e.server !in allocations
  }

  /** With capacity for every current candidate that can be looked up, each such server gets exactly
      that candidate, every other server ends without an allocation, and nobody is given up. */
  lemma {:induction false} RunServesAll(sys: System, q: seq<Entry>, st: Store, un: seq<Entry>)
    requires WellFormed(sys) && AllLive(q) && DistinctServers(q) && AllOk(sys, q)
    requires forall i :: 0 <= i < |q| ==> q[i].server !in st.allocations
    requires forall kind :: Demand(sys, q, kind) <= CountIn(st.available, kind)
    ensures var r := Run(sys, Config(q, st, un));
            && r.unallocated == un
            && (forall i :: 0 <= i < |q| ==> ServedIfKnown(sys, q[i], r.store.allocations))
            && (forall s :: (forall i :: 0 <= i < |q| ==> q[i].server != s) ==>
                  SameAllocation(s, st.allocations, r.store.allocations))
            && (forall kind :: CountIn(r.store.available, kind) == CountIn(st.available, kind) - Demand(sys, q, kind))
  {
    hide Order, Reinsert, Known, Units, Kind, WellFormed, EntryOk, Demand, Judge, Run;
    if q == [] {
      EmptyRun(sys, st, un);
    } else {
      var e, rest := q[0], q[1..];
      HeadTaken(sys, q, st, un);
      var st' := Step(sys, Config(q, st, un)).store;
      RunServesAll(sys, rest, st', un);
      var r := Run(sys, Config(rest, st', un));
      UnfoldRun(sys, Config(q, st, un));
      assert SameAllocation(e.server, st'.allocations, r.store.allocations);
      forall i | 0 <= i < |q| ensures ServedIfKnown(sys, q[i], r.store.allocations) {
        if i > 0 {
          assert q[i] == rest[i - 1];
        }
      }
      forall s | forall i :: 0 <= i < |q| ==> q[i].server != s
        ensures SameAllocation(s, st.allocations, r.store.allocations)
      {
        assert q[0].server != s;
        assert forall i :: 0 <= i < |rest| ==> rest[i] == q[i + 1];
        assert SameAllocation(s, st'.allocations, r.store.allocations);
      }
      forall kind ensures CountIn(r.store.available, kind) == CountIn(st.available, kind) - Demand(sys, q, kind) {
        assert CountIn(st'.available, kind) - Demand(sys, rest, kind) == CountIn(st.available, kind) - Demand(sys, q, kind);
      }
    }
  }

  ghost predicate SameAllocation(s: Name, a: map<Name, Allocation>, b: map<Name, Allocation>) {
    (s in a <==> s in b) && (s in a ==> a[s] == b[s])
  }

  lemma EmptyRun(sys: System, st: Store, un: seq<Entry>)
    ensures Run(sys, Config([], st, un)) == Config([], st, un)
    ensures forall kind :: Demand(sys, [], kind) == 0
  {
  }

  lemma UnfoldRun(sys: System, c: Config)
    requires c.queue != [] && AllLive(c.queue)
    ensures AllLive(Step(sys, c).queue)
    ensures Run(sys, c) == Run(sys, Step(sys, c))
  {
    hide Step;
    StepProgress(sys, c);
  }

  /** With capacity for everybody the head is served or dropped, and the capacity still covers the
      others. */
  lemma HeadTaken(sys: System, q: seq<Entry>, st: Store, un: seq<Entry>)
    requires WellFormed(sys) && q != [] && AllLive(q) && AllOk(sys, q) && q[0].server !in st.allocations
    requires forall kind :: Demand(sys, q, kind) <= CountIn(st.available, kind)
    ensures var c' := Step(sys, Config(q, st, un));
            && c'.queue == q[1..] && c'.unallocated == un
            && ServedIfKnown(sys, q[0], c'.store.allocations)
            && (forall s :: s != q[0].server ==> SameAllocation(s, st.allocations, c'.store.allocations))
            && (forall kind :: Demand(sys, q[1..], kind) <= CountIn(c'.store.available, kind))
            && (forall kind :: CountIn(c'.store.available, kind) - Demand(sys, q[1..], kind)
                            == CountIn(st.available, kind) - Demand(sys, q, kind))
  {
    hide Known, Units, Kind, WellFormed, EntryOk, Reinsert;
    var e := q[0];
    forall kind
      ensures Demand(sys, q, kind) == EntryDemand(sys, e, kind) + Demand(sys, q[1..], kind)
      ensures 0 <= EntryDemand(sys, e, kind) && 0 <= Demand(sys, q[1..], kind)
    {
      EntryDemandNonNegative(sys, e, kind);
      DemandNonNegative(sys, q[1..], kind);
    }
    if Asks(sys, e) {
      var a := e.candidates[e.curIndex];
      var k := Kind(sys, e.server, a);
      assert EntryDemand(sys, e, k) == Units(sys, e.server, a);
      assert Demand(sys, q, k) <= CountIn(st.available, k);
      assert Judge(sys, e, st) == Serve;
    } else {
      assert Judge(sys, e, st) == Drop;
    }
  }

  lemma {:induction false} DemandSplits(sys: System, a: seq<Entry>, b: seq<Entry>, kind: Name)
    ensures Demand(sys, a + b, kind) == Demand(sys, a, kind) + Demand(sys, b, kind)
  {
    if a == [] {
      assert a + b == b;
    } else {
      assert (a + b)[1..] == a[1..] + b;
      DemandSplits(sys, a[1..], b, kind);
    }
  }

  // ---- Servers of a list ----

  ghost predicate HasEntry(entries: seq<Entry>, s: Name) {
    exists i :: 0 <= i < |entries| && entries[i].server == s
  }

  lemma HasEntryAt(q: seq<Entry>, i: nat)
    requires i < |q|
    ensures HasEntry(q, q[i].server)
  {
  }

  lemma HasEntryParts(a: seq<Entry>, b: seq<Entry>, s: Name)
    ensures HasEntry(a + b, s) <==> HasEntry(a, s) || HasEntry(b, s)
  {
    if HasEntry(a, s) {
      var i :| 0 <= i < |a| && a[i].server == s;
      assert (a + b)[i].server == s;
    } else if HasEntry(b, s) {
      var i :| 0 <= i < |b| && b[i].server == s;
      assert (a + b)[|a| + i].server == s;
    }
  }

  lemma NobodyAtStart()
    ensures forall s :: !HasEntry([], s)
  {
  }
}
