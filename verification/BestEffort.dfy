/** The second phase of the greedy solver: what is left is shared among the servers that could not
    be served in full, exhaustively or in rounds.  Both ways are proved to stay within what is left,
    to give each server strictly less than it asked for, and to stop only when nobody can take one
    replica more. */
module BestEffort {
  import opened Basics
  import opened GreedyModel
  import opened GreedyAllocate

  /** The same allocation with `n` replicas, cost and value in proportion. */
  function Scaled(a: Allocation, n: int): (b: Allocation)
    requires a.numReplicas != 0
  {
    var factor := n as real / a.numReplicas as real;
    a.(cost := a.cost * factor, value := a.value * factor, numReplicas := n)
  }

  lemma ScaledPriced(sys: System, s: Name, a: Allocation, n: int)
    requires Priced(sys, s, a) && a.numReplicas > 0 && 0 <= n
    ensures Priced(sys, s, Scaled(a, n))
  {
    if Known(sys, s, a) {
      ProportionalCost(sys.accelerators[a.accelerator].cost, Instances(sys, s, a), a.numReplicas, n);
    }
  }

  lemma ProportionalCost(price: real, instances: int, r: int, n: int)
    requires r > 0
    ensures price * (instances * r) as real * (n as real / r as real) == price * (instances * n) as real
  {
    var x, y := r as real, n as real;
    assert (instances * r) as real == instances as real * x;
    assert (instances * n) as real == instances as real * y;
    var q := y / x;
    assert q * x == y;
    var c := price * instances as real;
    assert price * (instances as real * x) == c * x;
    assert c * x * q == c * (q * x);
  }

  // ---- What best effort promises ----

  /** `a` is candidate `c` cut down to a positive, strictly smaller number of replicas, at the price
      of those replicas. */
  ghost predicate CutDown(sys: System, s: Name, c: Allocation, a: Allocation) {
    && Known(sys, s, c)
    && 1 <= a.numReplicas < c.numReplicas
    && a == Scaled(c, a.numReplicas)
    && Priced(sys, s, a)
  }

  /** What server `s` holds is a cut-down candidate of entry `e`. */
  ghost predicate PartlyServed(sys: System, e: Entry, a: Allocation) {
    exists i :: 0 <= i < |e.candidates| && CutDown(sys, e.server, e.candidates[i], a)
  }

  /** Not one more replica fits: neither of what the server got, nor of any candidate if it got
      nothing. */
  ghost predicate Exhausted(sys: System, st: Store, e: Entry) {
    if e.server in st.allocations then
      NoRoom(sys, st.available, e.server, st.allocations[e.server])
    else
      forall i :: 0 <= i < |e.candidates| ==> NoRoom(sys, st.available, e.server, e.candidates[i])
  }

  ghost predicate NoRoom(sys: System, available: map<Name, int>, s: Name, a: Allocation) {
    Known(sys, s, a) ==> CountIn(available, Kind(sys, s, a)) < UnitsPerReplica(sys, s, a)
  }

  /** Old allocations stay; every new one belongs to an entry and is cut down from its candidates. */
  ghost predicate OnlyPartial(sys: System, entries: seq<Entry>, before: map<Name, Allocation>, after: map<Name, Allocation>) {
    && (forall s :: s in before ==> s in after && after[s] == before[s])
    && (forall s :: s in after && s !in before ==>
          exists i :: 0 <= i < |entries| && entries[i].server == s && PartlyServed(sys, entries[i], after[s]))
  }

  /** The servers handed to best effort: distinct, without allocation, all candidates refused. */
  ghost predicate Leftover(sys: System, st: Store, entries: seq<Entry>) {
    && WellFormed(sys)
    && Conserved(sys, st)
    && DistinctServers(entries)
    && forall i :: 0 <= i < |entries| ==> UnallocatedOk(sys, st, entries[i])
  }

  /** The outcome of best effort from `st` to `st'`. */
  ghost predicate Shared(sys: System, entries: seq<Entry>, st: Store, st': Store) {
    && Conserved(sys, st')
    && NoMore(st.available, st'.available)
    && OnlyPartial(sys, entries, st.allocations, st'.allocations)
    && forall i :: 0 <= i < |entries| ==> Exhausted(sys, st', entries[i])
  }

  /** A refused candidate asks for at least one replica of at least one unit. */
  lemma RefusedIsPositive(sys: System, st: Store, e: Entry, i: nat)
    requires WellFormed(sys) && Conserved(sys, st) && UnallocatedOk(sys, st, e) && i < |e.candidates|
    ensures Known(sys, e.server, e.candidates[i])
    ensures Priced(sys, e.server, e.candidates[i])
    ensures 1 <= e.candidates[i].numReplicas && 1 <= UnitsPerReplica(sys, e.server, e.candidates[i])
  {
    var a := e.candidates[i];
    assert Refuses(sys, st, e.server, a);
    CandidatePriced(sys, e, i);
    UnitsPerReplicaNonNegative(sys, e.server, a);
    assert Balanced(sys, st, Kind(sys, e.server, a));
  }

  // ---- Exhaustively, one server after the other ----

  /** Replicas of `a` that fit, at most as many as it asks for. */
  function Fits(sys: System, available: map<Name, int>, s: Name, a: Allocation): int {
    if Known(sys, s, a) && UnitsPerReplica(sys, s, a) > 0
    then Min(CountIn(available, Kind(sys, s, a)) / UnitsPerReplica(sys, s, a), a.numReplicas)
    else 0
  }

  /** The first candidate of which at least one replica fits, cut down to what fits. */
  function ServeMaximally(sys: System, st: Store, s: Name, candidates: seq<Allocation>): Store {
    if candidates == [] then st
    else
      var a := candidates[0];
      var n := Fits(sys, st.available, s, a);
      if n > 0 then Grant(st, s, Scaled(a, n), Kind(sys, s, a), n * UnitsPerReplica(sys, s, a))
      else ServeMaximally(sys, st, s, candidates[1..])
  }

  function RunMaximally(sys: System, st: Store, entries: seq<Entry>): Store
    decreases |entries|
  {
    if entries == [] then st
    else RunMaximally(sys, ServeMaximally(sys, st, entries[0].server, entries[0].candidates), entries[1..])
  }

  lemma {:induction false} ServeMaximallyShares(sys: System, st: Store, e: Entry, k: nat)
    requires WellFormed(sys) && Conserved(sys, st) && UnallocatedOk(sys, st, e) && k <= |e.candidates|
    requires forall i :: 0 <= i < k ==> NoRoom(sys, st.available, e.server, e.candidates[i])
    ensures Shared(sys, [e], st, ServeMaximally(sys, st, e.server, e.candidates[k..]))
    decreases |e.candidates| - k
  {
    hide Conserved, WellFormed, Scaled, Priced, Fits;
    var rest := e.candidates[k..];
    var st' := ServeMaximally(sys, st, e.server, rest);
    if k < |e.candidates| {
      var a := e.candidates[k];
      assert rest[0] == a && rest[1..] == e.candidates[k + 1..];
      RefusedIsPositive(sys, st, e, k);
      var n := Fits(sys, st.available, e.server, a);
      FitsMeaning(sys, st, e, k);
      if n > 0 {
        CutDownShares(sys, st, e, k, n);
        assert [e][0] == e;
      } else {
        ServeMaximallyShares(sys, st, e, k + 1);
      }
    } else {
      assert st' == st;
    }
  }

  lemma FitsMeaning(sys: System, st: Store, e: Entry, k: nat)
    requires WellFormed(sys) && Conserved(sys, st) && UnallocatedOk(sys, st, e) && k < |e.candidates|
    ensures Known(sys, e.server, e.candidates[k])
    ensures var a := e.candidates[k];
            var n, units, left := Fits(sys, st.available, e.server, a), UnitsPerReplica(sys, e.server, a),
                                  CountIn(st.available, Kind(sys, e.server, a));
            && 0 <= n < a.numReplicas
            && n * units <= left < (n + 1) * units
  {
    hide Conserved, WellFormed, Priced;
    RefusedIsPositive(sys, st, e, k);
    var a := e.candidates[k];
    var units, left := UnitsPerReplica(sys, e.server, a), CountIn(st.available, Kind(sys, e.server, a));
    assert Refuses(sys, st, e.server, a);
    assert 0 <= left by {
      AvailableNonNegative(sys, st, Kind(sys, e.server, a));
    }
    Quotient(left, units, a.numReplicas);
  }

  lemma AvailableNonNegative(sys: System, st: Store, kind: Name)
    requires Conserved(sys, st)
    ensures 0 <= CountIn(st.available, kind)
  {
    assert Balanced(sys, st, kind);
  }

  lemma Quotient(left: int, units: int, replicas: int)
    requires 0 <= left < replicas * units && units > 0
    ensures 0 <= left / units < replicas
    ensures left / units * units <= left < (left / units + 1) * units
  {
    var q := left / units;
    assert left == q * units + left % units;
    CancelUnits(q, replicas, units);
  }

  lemma CancelUnits(a: int, b: int, units: int)
    requires a * units < b * units && units > 0
    ensures a < b
  {
  }

  /** Two parts of a list of distinct entries share no server. */
  lemma PartsAreDisjoint(a: seq<Entry>, b: seq<Entry>)
    requires DistinctServers(a + b)
    ensures DistinctServers(a) && DistinctServers(b)
    ensures forall i, j :: 0 <= i < |a| && 0 <= j < |b| ==> a[i].server != b[j].server
  {
    var all := a + b;
    assert all[..|a|] == a && all[|a|..] == b;
    forall i, j | 0 <= i < |a| && 0 <= j < |b| ensures a[i].server != b[j].server {
      assert all[i] == a[i] && all[|a| + j] == b[j];
    }
  }

  /** Granting as many replicas as fit shares with one server. */
  lemma CutDownShares(sys: System, st: Store, e: Entry, k: nat, n: int)
    requires WellFormed(sys) && Conserved(sys, st) && UnallocatedOk(sys, st, e) && k < |e.candidates|
    requires Known(sys, e.server, e.candidates[k]) && Priced(sys, e.server, e.candidates[k])
    requires 0 < n < e.candidates[k].numReplicas
    requires var units := UnitsPerReplica(sys, e.server, e.candidates[k]);
             units >= 1 && n * units <= CountIn(st.available, Kind(sys, e.server, e.candidates[k])) < (n + 1) * units
    ensures var a := e.candidates[k];
            Shared(sys, [e], st, Grant(st, e.server, Scaled(a, n), Kind(sys, e.server, a), n * UnitsPerReplica(sys, e.server, a)))
  {
    hide Conserved, WellFormed;
    var a := e.candidates[k];
    var b, kind, units := Scaled(a, n), Kind(sys, e.server, a), UnitsPerReplica(sys, e.server, a);
    assert Known(sys, e.server, b) && Kind(sys, e.server, b) == kind;
    assert Units(sys, e.server, b) == n * units;
    GrantConserves(sys, st, e.server, b);
    ScaledPriced(sys, e.server, a, n);
    assert CutDown(sys, e.server, a, b);
    var st' := Grant(st, e.server, b, kind, n * units);
    assert n * units >= 0;
    assert [e][0] == e && PartlyServed(sys, e, b);
    forall s | s in st'.allocations && s !in st.allocations
      ensures exists i :: 0 <= i < |[e]| && [e][i].server == s && PartlyServed(sys, [e][i], st'.allocations[s])
    {
      assert [e][0].server == s;
    }
    assert CountIn(st'.available, kind) < units by {
      assert (n + 1) * units == n * units + units;
    }
    assert NoRoom(sys, st'.available, e.server, b);
  }

  /** Sharing with some servers and then with the others is sharing with all. */
  lemma SharedCompose(sys: System, a: seq<Entry>, b: seq<Entry>, st: Store, mid: Store, st': Store)
    requires DistinctServers(a + b)
    requires Shared(sys, a, st, mid) && Shared(sys, b, mid, st')
    ensures Shared(sys, a + b, st, st')
  {
    hide Conserved, PartlyServed, DistinctServers, Exhausted;
    var all := a + b;
    forall k ensures CountIn(st'.available, k) <= CountIn(st.available, k) {
      assert CountIn(mid.available, k) <= CountIn(st.available, k);
    }
    forall s | s in st'.allocations && s !in st.allocations
      ensures exists i :: 0 <= i < |all| && all[i].server == s && PartlyServed(sys, all[i], st'.allocations[s])
    {
      if s in mid.allocations {
        var i :| 0 <= i < |a| && a[i].server == s && PartlyServed(sys, a[i], mid.allocations[s]);
        assert all[i] == a[i] && PartlyServed(sys, all[i], st'.allocations[s]);
      } else {
        var i :| 0 <= i < |b| && b[i].server == s && PartlyServed(sys, b[i], st'.allocations[s]);
        assert all[|a| + i] == b[i];
      }
    }
    PartsAreDisjoint(a, b);
    forall i | 0 <= i < |all| ensures Exhausted(sys, st', all[i]) {
      if i < |a| {
        assert all[i] == a[i] && Exhausted(sys, mid, a[i]);
        StaysExhausted(sys, a[i], b, mid, st');
      } else {
        assert all[i] == b[i - |a|];
      }
    }
  }

  lemma StaysExhausted(sys: System, e: Entry, others: seq<Entry>, mid: Store, st': Store)
    requires forall i :: 0 <= i < |others| ==> others[i].server != e.server
    requires Exhausted(sys, mid, e) && NoMore(mid.available, st'.available)
    requires OnlyPartial(sys, others, mid.allocations, st'.allocations)
    ensures Exhausted(sys, st', e)
  {
    forall a | NoRoom(sys, mid.available, e.server, a) ensures NoRoom(sys, st'.available, e.server, a) {
      if Known(sys, e.server, a) {
        var k := Kind(sys, e.server, a);
        assert CountIn(st'.available, k) <= CountIn(mid.available, k);
      }
    }
    assert e.server in st'.allocations ==> e.server in mid.allocations;
  }

  /** What is left over stays left over while others are served. */
  lemma LeftoverTail(sys: System, a: seq<Entry>, b: seq<Entry>, st: Store, mid: Store)
    requires Leftover(sys, st, a + b) && Shared(sys, a, st, mid)
    ensures Leftover(sys, st, a) && Leftover(sys, mid, b)
  {
    hide Conserved, WellFormed, PartlyServed;
    LeftoverParts(sys, a, b, st);
    PartsAreDisjoint(a, b);
    forall i | 0 <= i < |b| ensures UnallocatedOk(sys, mid, b[i]) {
      assert UnallocatedOk(sys, st, b[i]);
      RefusalStands(sys, st, mid, b[i]);
    }
  }

  lemma LeftoverParts(sys: System, a: seq<Entry>, b: seq<Entry>, st: Store)
    requires Leftover(sys, st, a + b)
    ensures Leftover(sys, st, a) && Leftover(sys, st, b)
  {
    hide Conserved, WellFormed, UnallocatedOk;
    PartsAreDisjoint(a, b);
    forall i | 0 <= i < |a| ensures UnallocatedOk(sys, st, a[i]) {
      assert (a + b)[i] == a[i];
    }
    forall i | 0 <= i < |b| ensures UnallocatedOk(sys, st, b[i]) {
      assert (a + b)[|a| + i] == b[i];
    }
  }

  /** The exhaustive policy keeps every promise of best effort. */
  lemma {:induction false} RunMaximallyShares(sys: System, st: Store, entries: seq<Entry>)
    requires Leftover(sys, st, entries)
    ensures Shared(sys, entries, st, RunMaximally(sys, st, entries))
    decreases |entries|
  {
    hide Conserved, WellFormed, ServeMaximally, PartlyServed;
    if entries == [] {
    } else {
      var e, rest := entries[0], entries[1..];
      assert entries == [e] + rest;
      assert UnallocatedOk(sys, st, e);
      var mid := ServeMaximally(sys, st, e.server, e.candidates);
      assert e.candidates[0..] == e.candidates;
      ServeMaximallyShares(sys, st, e, 0);
      LeftoverTail(sys, [e], rest, st, mid);
      RunMaximallyShares(sys, mid, rest);
      SharedCompose(sys, [e], rest, st, mid, RunMaximally(sys, mid, rest));
    }
  }

  // ---- What is left over and what is shared ----

  /** With nobody left over, best effort changes nothing. */
  lemma NothingToShare(sys: System, mid: Store, now: Store)
    requires Conserved(sys, mid) && Shared(sys, [], mid, now)
    ensures now.allocations == mid.allocations
    ensures forall kind :: CountIn(now.available, kind) == CountIn(mid.available, kind)
  {
    hide Used;
    assert now.allocations.Keys == mid.allocations.Keys;
    assert now.allocations == mid.allocations;
    forall kind ensures CountIn(now.available, kind) == CountIn(mid.available, kind) {
      assert Balanced(sys, mid, kind) && Balanced(sys, now, kind);
    }
  }

  lemma NothingShared(sys: System, st: Store, entries: seq<Entry>)
    requires Leftover(sys, st, entries)
    ensures Shared(sys, [], st, st)
  {
  }

  lemma LeftoverServers(sys: System, st: Store, entries: seq<Entry>)
    requires Leftover(sys, st, entries)
    ensures forall i :: 0 <= i < |entries| ==> entries[i].server in sys.servers
  {
    forall i | 0 <= i < |entries| ensures entries[i].server in sys.servers {
      assert UnallocatedOk(sys, st, entries[i]);
    }
  }

  lemma LeftoverDistinct(sys: System, st: Store, entries: seq<Entry>)
    requires Leftover(sys, st, entries)
    ensures DistinctServers(entries)
  {
  }

  lemma SharedIsPartial(sys: System, entries: seq<Entry>, st: Store, st': Store)
    requires Shared(sys, entries, st, st')
    ensures OnlyPartial(sys, entries, st.allocations, st'.allocations)
  {
  }

  // ---- Whose turn it is: the exhaustive policy serves its list in order ----

  /** Units of a kind that a list of servers holds. */
  ghost function HeldByEntries(sys: System, es: seq<Entry>, allocations: map<Name, Allocation>, kind: Name): int {
    if es == [] then 0 else Held(sys, allocations, es[0].server, kind) + HeldByEntries(sys, es[1..], allocations, kind)
  }

  /** What the servers before its turn leave of a kind, by what they end up holding. */
  ghost function LeftBy(sys: System, st: Store, earlier: seq<Entry>, now: map<Name, Allocation>, kind: Name): int {
    CountIn(st.available, kind) - HeldByEntries(sys, earlier, now, kind)
  }

  /** One replica of the candidate fits in what they leave. */
  ghost predicate OneFits(sys: System, st: Store, earlier: seq<Entry>, now: map<Name, Allocation>, s: Name, a: Allocation) {
    Known(sys, s, a) && 1 <= UnitsPerReplica(sys, s, a) <= LeftBy(sys, st, earlier, now, Kind(sys, s, a))
  }

  /** The same allocation with a share of the replicas, cost and value in proportion. */
  ghost predicate ShareOf(c: Allocation, a: Allocation) {
    && a.accelerator == c.accelerator
    && a.cost * c.numReplicas as real == c.cost * a.numReplicas as real
    && a.value * c.numReplicas as real == c.value * a.numReplicas as real
  }

  lemma ScaledInFigures(c: Allocation, n: int)
    requires c.numReplicas != 0
    ensures ShareOf(c, Scaled(c, n)) && Scaled(c, n).numReplicas == n
  {
    var x, y := c.numReplicas as real, n as real;
    var f := y / x;
    assert f * x == y;
    assert c.cost * f * x == c.cost * (f * x);
    assert c.value * f * x == c.value * (f * x);
  }

  /** The server has its first candidate of which a replica fits, with as many replicas as fit and are
      asked for. */
  ghost predicate TakesFirst(sys: System, st: Store, earlier: seq<Entry>, now: map<Name, Allocation>, e: Entry, i: nat)
    requires i < |e.candidates|
  {
    var s, c := e.server, e.candidates[i];
    && OneFits(sys, st, earlier, now, s, c)
    && (forall j :: 0 <= j < i ==> !OneFits(sys, st, earlier, now, s, e.candidates[j]))
    && s in now && ShareOf(c, now[s])
    && TakesMost(UnitsPerReplica(sys, s, c), LeftBy(sys, st, earlier, now, Kind(sys, s, c)), c.numReplicas, now[s].numReplicas)
  }

  /** `n` is the most, up to what is asked for, of which all units are left. */
  ghost predicate TakesMost(units: int, left: int, asked: int, n: int) {
    1 <= n <= asked && n * units <= left && (n == asked || left < (n + 1) * units)
  }

  /** What a server gets is determined by what the servers before it got: its first candidate of which a
      replica fits, as much as fits, or nothing if none does. */
  ghost predicate InTurn(sys: System, st: Store, earlier: seq<Entry>, now: map<Name, Allocation>, e: Entry) {
    || (exists i :: 0 <= i < |e.candidates| && TakesFirst(sys, st, earlier, now, e, i))
    || (e.server !in now && forall j :: 0 <= j < |e.candidates| ==> !OneFits(sys, st, earlier, now, e.server, e.candidates[j]))
  }

  ghost predicate ServedInTurn(sys: System, entries: seq<Entry>, st: Store, now: map<Name, Allocation>) {
    forall i :: 0 <= i < |entries| ==> InTurn(sys, st, entries[..i], now, entries[i])
  }

  /** The first server of a list, with all that is available before it. */
  lemma {:induction false} ServeInTurn(sys: System, st: Store, e: Entry, k: nat)
    requires WellFormed(sys) && Conserved(sys, st) && UnallocatedOk(sys, st, e) && k <= |e.candidates|
    requires var now := ServeMaximally(sys, st, e.server, e.candidates[k..]).allocations;
             forall j :: 0 <= j < k ==> !OneFits(sys, st, [], now, e.server, e.candidates[j])
    ensures var st' := ServeMaximally(sys, st, e.server, e.candidates[k..]);
            && InTurn(sys, st, [], st'.allocations, e)
            && forall kind :: CountIn(st'.available, kind) == LeftBy(sys, st, [e], st'.allocations, kind)
    decreases |e.candidates| - k
  {
    hide Conserved, WellFormed, Scaled, Priced, Fits, Known, UnitsPerReplica, Kind, Units;
    var rest := e.candidates[k..];
    var st' := ServeMaximally(sys, st, e.server, rest);
    if k < |e.candidates| {
      var a := e.candidates[k];
      assert rest[0] == a && rest[1..] == e.candidates[k + 1..];
      RefusedIsPositive(sys, st, e, k);
      FitsMeaning(sys, st, e, k);
      var n := Fits(sys, st.available, e.server, a);
      if n > 0 {
        TakenHere(sys, st, e, k, n, st');
      } else {
        assert !OneFits(sys, st, [], st'.allocations, e.server, a);
        ServeInTurn(sys, st, e, k + 1);
      }
    } else {
      NothingTaken(sys, st, e);
    }
  }

  lemma NothingTaken(sys: System, st: Store, e: Entry)
    requires e.server !in st.allocations
    ensures forall kind :: LeftBy(sys, st, [e], st.allocations, kind) == CountIn(st.available, kind)
  {
    forall kind ensures LeftBy(sys, st, [e], st.allocations, kind) == CountIn(st.available, kind) {
      HeldByFirst(sys, e, [], st.allocations, kind);
    }
  }

  lemma HeldByFirst(sys: System, e: Entry, es: seq<Entry>, allocations: map<Name, Allocation>, kind: Name)
    ensures HeldByEntries(sys, [e] + es, allocations, kind)
         == Held(sys, allocations, e.server, kind) + HeldByEntries(sys, es, allocations, kind)
    ensures HeldByEntries(sys, [e], allocations, kind) == Held(sys, allocations, e.server, kind)
  {
    assert ([e] + es)[1..] == es && [e][1..] == [];
    assert HeldByEntries(sys, [], allocations, kind) == 0;
  }

  lemma TakenHere(sys: System, st: Store, e: Entry, k: nat, n: int, st': Store)
    requires k < |e.candidates| && e.server !in st.allocations && Known(sys, e.server, e.candidates[k])
    requires var a := e.candidates[k];
             var units, left := UnitsPerReplica(sys, e.server, a), CountIn(st.available, Kind(sys, e.server, a));
             && 0 < n < a.numReplicas && 1 <= units && n * units <= left < (n + 1) * units
             && st' == Grant(st, e.server, Scaled(a, n), Kind(sys, e.server, a), n * units)
    requires forall j :: 0 <= j < k ==> !OneFits(sys, st, [], st'.allocations, e.server, e.candidates[j])
    ensures InTurn(sys, st, [], st'.allocations, e)
    ensures forall kind :: CountIn(st'.available, kind) == LeftBy(sys, st, [e], st'.allocations, kind)
  {
    var s, a := e.server, e.candidates[k];
    ScaledInFigures(a, n);
    var b := Scaled(a, n);
    assert Known(sys, s, b) && Kind(sys, s, b) == Kind(sys, s, a) && UnitsPerReplica(sys, s, b) == UnitsPerReplica(sys, s, a);
    assert n * UnitsPerReplica(sys, s, a) >= UnitsPerReplica(sys, s, a);
    assert TakesFirst(sys, st, [], st'.allocations, e, k);
    forall kind ensures CountIn(st'.available, kind) == LeftBy(sys, st, [e], st'.allocations, kind) {
      HeldByFirst(sys, e, [], st'.allocations, kind);
    }
  }

  /** Only what the earlier servers leave matters. */
  lemma SameTurn(sys: System, st: Store, earlier: seq<Entry>, now: map<Name, Allocation>,
                 st2: Store, earlier2: seq<Entry>, now2: map<Name, Allocation>, e: Entry)
    requires forall kind :: LeftBy(sys, st, earlier, now, kind) == LeftBy(sys, st2, earlier2, now2, kind)
    requires SameAllocation(e.server, now, now2)
    requires InTurn(sys, st, earlier, now, e)
    ensures InTurn(sys, st2, earlier2, now2, e)
  {
    hide LeftBy, ShareOf, TakesMost, Known, UnitsPerReplica, Kind;
    forall a ensures OneFits(sys, st, earlier, now, e.server, a) <==> OneFits(sys, st2, earlier2, now2, e.server, a) {
    }
    if i :| 0 <= i < |e.candidates| && TakesFirst(sys, st, earlier, now, e, i) {
      assert TakesFirst(sys, st2, earlier2, now2, e, i);
    }
  }

  /** The exhaustive policy serves its list in order, each server from what the ones before it left. */
  lemma {:induction false} RunMaximallyInTurn(sys: System, st: Store, entries: seq<Entry>)
    requires Leftover(sys, st, entries)
    ensures ServedInTurn(sys, entries, st, RunMaximally(sys, st, entries).allocations)
    decreases |entries|
  {
    hide Conserved, WellFormed, ServeMaximally, PartlyServed, Exhausted, InTurn, LeftBy, Held;
    if entries != [] {
      var e, rest := entries[0], entries[1..];
      assert entries == [e] + rest;
      assert UnallocatedOk(sys, st, e);
      var mid := ServeMaximally(sys, st, e.server, e.candidates);
      assert e.candidates[0..] == e.candidates;
      ServeMaximallyShares(sys, st, e, 0);
      ServeInTurn(sys, st, e, 0);
      LeftoverTail(sys, [e], rest, st, mid);
      RunMaximallyShares(sys, mid, rest);
      RunMaximallyInTurn(sys, mid, rest);
      var now := RunMaximally(sys, mid, rest);
      assert now == RunMaximally(sys, st, entries);
      PartsAreDisjoint([e], rest);
      assert forall i :: 0 <= i < |rest| ==> [e][0].server != rest[i].server;
      assert SameAllocation(e.server, mid.allocations, now.allocations);
      forall i | 0 <= i < |entries| ensures InTurn(sys, st, entries[..i], now.allocations, entries[i]) {
        if i == 0 {
          forall kind ensures LeftBy(sys, st, [], mid.allocations, kind) == LeftBy(sys, st, entries[..0], now.allocations, kind) {
            EmptyLeft(sys, st, mid.allocations, kind);
            EmptyLeft(sys, st, now.allocations, kind);
          }
          SameTurn(sys, st, [], mid.allocations, st, entries[..0], now.allocations, e);
        } else {
          assert entries[..i] == [e] + rest[..i - 1];
          forall kind ensures LeftBy(sys, mid, rest[..i - 1], now.allocations, kind) == LeftBy(sys, st, entries[..i], now.allocations, kind) {
            LeftStep(sys, st, mid, e, rest[..i - 1], now.allocations, kind);
          }
          assert InTurn(sys, mid, rest[..i - 1], now.allocations, rest[i - 1]);
          SameTurn(sys, mid, rest[..i - 1], now.allocations, st, entries[..i], now.allocations, entries[i]);
        }
      }
    }
  }

  lemma EmptyLeft(sys: System, st: Store, now: map<Name, Allocation>, kind: Name)
    ensures LeftBy(sys, st, [], now, kind) == CountIn(st.available, kind)
  {
  }

  lemma LeftStep(sys: System, st: Store, mid: Store, e: Entry, earlier: seq<Entry>, now: map<Name, Allocation>, kind: Name)
    requires forall k :: CountIn(mid.available, k) == LeftBy(sys, st, [e], mid.allocations, k)
    requires SameAllocation(e.server, mid.allocations, now)
    ensures LeftBy(sys, mid, earlier, now, kind) == LeftBy(sys, st, [e] + earlier, now, kind)
  {
    HeldByFirst(sys, e, earlier, mid.allocations, kind);
    HeldByFirst(sys, e, earlier, now, kind);
    assert CountIn(mid.available, kind) == LeftBy(sys, st, [e], mid.allocations, kind);
  }
}
