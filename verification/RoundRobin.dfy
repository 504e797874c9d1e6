/** Best effort in rounds: every member of a group takes one replica per round until it cannot.
    Proved here: the rounds end, they keep the promises of best effort, and they are fair. */
module RoundRobin {
  import opened Basics
  import opened GreedyModel
  import opened GreedyAllocate
  import opened BestEffort

  /** A member's place in the rounds. */
  datatype Ticket = Ticket(active: bool, kind: Name, units: int, numReplicas: int, finalAlloc: Allocation)

  /** What the rounds change: units left, members still in the rounds, members that got something. */
  datatype Rounds = Rounds(available: map<Name, int>, tickets: map<Name, Ticket>, served: map<Name, Ticket>)

  predicate HasRoom(sys: System, available: map<Name, int>, s: Name, a: Allocation) {
    && Known(sys, s, a)
    && UnitsPerReplica(sys, s, a) > 0
    && CountIn(available, Kind(sys, s, a)) >= UnitsPerReplica(sys, s, a)
  }

  /** The first candidate with room for one replica. */
  function FirstFit(sys: System, available: map<Name, int>, s: Name, candidates: seq<Allocation>): (i: nat)
    ensures i <= |candidates|
    ensures forall j :: 0 <= j < i ==> !HasRoom(sys, available, s, candidates[j])
    ensures i < |candidates| ==> HasRoom(sys, available, s, candidates[i])
  {
    if candidates == [] || HasRoom(sys, available, s, candidates[0]) then 0
    else 1 + FirstFit(sys, available, s, candidates[1..])
  }

  /** A member that is not in the rounds yet picks its candidate. */
  function Activate(sys: System, available: map<Name, int>, e: Entry, t: Ticket): Ticket {
    var i := FirstFit(sys, available, e.server, e.candidates);
    if i == |e.candidates| then t
    else
      var a := e.candidates[i];
      t.(active := true, kind := Kind(sys, e.server, a), units := UnitsPerReplica(sys, e.server, a), finalAlloc := a)
  }

  predicate TicketsOk(tickets: map<Name, Ticket>) {
    forall s :: s in tickets && tickets[s].active ==> tickets[s].units > 0
  }

  /** Visit one member: it takes one replica, or leaves the rounds. */
  function Visit(sys: System, e: Entry, r: Rounds): Rounds
    requires TicketsOk(r.tickets)
  {
    var s := e.server;
    if s !in r.tickets then r
    else
      var t := if r.tickets[s].active then r.tickets[s] else Activate(sys, r.available, e, r.tickets[s]);
      if !t.active then r.(tickets := r.tickets - {s})
      else if Min(CountIn(r.available, t.kind) / t.units, t.finalAlloc.numReplicas) > 0 then TakeOne(r, s, t)
      else r.(tickets := r.tickets - {s})
  }

  function TakeOne(r: Rounds, s: Name, t: Ticket): Rounds {
    var t' := t.(numReplicas := t.numReplicas + 1);
    Rounds(r.available[t.kind := CountIn(r.available, t.kind) - t.units],
           r.tickets[s := t'], r.served[s := t'])
  }

  // ---- The invariant of the rounds ----

  /** The ticket stands for a candidate of the entry. */
  ghost predicate Backed(sys: System, e: Entry, t: Ticket) {
    && t.finalAlloc in e.candidates
    && Known(sys, e.server, t.finalAlloc)
    && t.kind == Kind(sys, e.server, t.finalAlloc)
    && t.units == UnitsPerReplica(sys, e.server, t.finalAlloc)
    && 1 <= t.units && 1 <= t.finalAlloc.numReplicas
  }

  /** In round `k`, with `visited` telling whether its turn has passed. */
  ghost predicate MemberOk(sys: System, before: map<Name, int>, e: Entry, k: nat, visited: bool, r: Rounds) {
    var s := e.server;
    && (s in r.tickets ==> InRounds(r, s, k + if visited then 1 else 0))
    && (s in r.served ==> GotSome(sys, before, e, r.available, r.served[s]))
    && (s in r.served && s !in r.tickets ==> CountIn(r.available, r.served[s].kind) < r.served[s].units)
    && (s !in r.served && s !in r.tickets ==>
          forall i :: 0 <= i < |e.candidates| ==> NoRoom(sys, r.available, s, e.candidates[i]))
  }

  /** A member in the rounds has one replica for every turn it had. */
  ghost predicate InRounds(r: Rounds, s: Name, turns: nat)
    requires s in r.tickets
  {
    var t := r.tickets[s];
    && t.numReplicas == turns
    && (t.active <==> turns > 0)
    && (t.active ==> s in r.served && r.served[s] == t)
    && (!t.active ==> s !in r.served)
  }

  /** A member that got something did not get more than there was. */
  ghost predicate GotSome(sys: System, before: map<Name, int>, e: Entry, available: map<Name, int>, t: Ticket) {
    && t.active && 1 <= t.numReplicas
    && Backed(sys, e, t)
    && CountIn(available, t.kind) + t.numReplicas * t.units <= CountIn(before, t.kind)
  }

  /** Same kind and size: counts differ by at most one and the earlier member is not behind. */
  ghost predicate FairPair(served: map<Name, Ticket>, first: Name, second: Name) {
    first in served && second in served
    && served[first].kind == served[second].kind && served[first].units == served[second].units ==>
      served[second].numReplicas <= served[first].numReplicas <= served[second].numReplicas + 1
  }

  ghost predicate AllFair(entries: seq<Entry>, served: map<Name, Ticket>) {
    forall i, j :: 0 <= i < j < |entries| ==> FairPair(served, entries[i].server, entries[j].server)
  }

  /** What the members hold so far. */
  function Given(served: map<Name, Ticket>): map<Name, Allocation> {
    map s | s in served && served[s].finalAlloc.numReplicas != 0 ::
      Scaled(served[s].finalAlloc, served[s].numReplicas)
  }

  function StoreOf(st: Store, r: Rounds): Store {
    Store(r.available, st.allocations + Given(r.served))
  }

  ghost predicate OnlyMembers(entries: seq<Entry>, names: set<Name>) {
    forall s :: s in names ==> exists i :: 0 <= i < |entries| && entries[i].server == s
  }

  ghost predicate RoundOk(sys: System, entries: seq<Entry>, st: Store, k: nat, p: nat, r: Rounds) {
    && Leftover(sys, st, entries)
    && Conserved(sys, StoreOf(st, r))
    && NoMore(st.available, r.available)
    && OnlyMembers(entries, r.tickets.Keys) && OnlyMembers(entries, r.served.Keys)
    && TicketsOk(r.tickets)
    && (forall q :: 0 <= q < |entries| ==> MemberOk(sys, st.available, entries[q], k, q < p, r))
    && AllFair(entries, r.served)
  }

  /** A candidate of a left-over entry has positive size and is refused as asked. */
  lemma CandidateFacts(sys: System, st: Store, entries: seq<Entry>, q: nat, a: Allocation)
    requires Leftover(sys, st, entries) && q < |entries| && a in entries[q].candidates
    ensures var s := entries[q].server;
            && Known(sys, s, a) && Priced(sys, s, a)
            && 1 <= a.numReplicas && 1 <= UnitsPerReplica(sys, s, a)
            && CountIn(st.available, Kind(sys, s, a)) < a.numReplicas * UnitsPerReplica(sys, s, a)
  {
    hide Conserved, WellFormed, Priced;
    var e := entries[q];
    var i :| 0 <= i < |e.candidates| && e.candidates[i] == a;
    assert UnallocatedOk(sys, st, e);
    RefusedIsPositive(sys, st, e, i);
    assert Refuses(sys, st, e.server, e.candidates[i]);
  }

  /** A member that leaves the rounds: the others do not notice. */
  lemma LeaveKeeps(sys: System, entries: seq<Entry>, st: Store, k: nat, p: nat, r: Rounds)
    requires RoundOk(sys, entries, st, k, p, r) && p < |entries|
    requires var s := entries[p].server;
             && s in r.tickets
             && (r.tickets[s].active ==> CountIn(r.available, r.tickets[s].kind) < r.tickets[s].units)
             && (!r.tickets[s].active ==>
                   forall i :: 0 <= i < |entries[p].candidates| ==> NoRoom(sys, r.available, s, entries[p].candidates[i]))
    ensures RoundOk(sys, entries, st, k, p + 1, r.(tickets := r.tickets - {entries[p].server}))
  {
    hide Conserved, NoRoom, Backed, FairPair, NoMore;
    var r' := r.(tickets := r.tickets - {entries[p].server});
    forall q | 0 <= q < |entries| ensures MemberOk(sys, st.available, entries[q], k, q < p + 1, r') {
      assert MemberOk(sys, st.available, entries[q], k, q < p, r);
      assert q != p ==> entries[q].server != entries[p].server;
    }
  }

  /** Taking one replica conserves units. */
  lemma TakeConserves(sys: System, st: Store, e: Entry, r: Rounds, t: Ticket)
    requires Conserved(sys, StoreOf(st, r))
    requires Backed(sys, e, t) && t.units <= CountIn(r.available, t.kind) && 0 <= t.numReplicas
    requires e.server in r.served ==> r.served[e.server] == t
    requires e.server !in r.served ==> t.numReplicas == 0 && e.server !in st.allocations
    ensures Conserved(sys, StoreOf(st, TakeOne(r, e.server, t)))
  {
    hide HeldBy, Held, Used, Given, Backed, StoreOf, Scaled;
    var s, r' := e.server, TakeOne(r, e.server, t);
    var x, x' := StoreOf(st, r), StoreOf(st, r');
    UnitsPositive(sys, e, t);
    var t' := t.(numReplicas := t.numReplicas + 1);
    BackedAgain(sys, e, t, t.numReplicas + 1);
    var a := Scaled(t.finalAlloc, t.numReplicas + 1);
    StoreAfterTake(st, r, s, t);
    StoreOfAvailable(st, r);
    OneMore(t.numReplicas, t.units);
    forall kind ensures Balanced(sys, x', kind) {
      assert Balanced(sys, x, kind);
      UsedUpdate(sys, x.allocations, s, a, kind);
      HeldBefore(sys, st, e, r, t, kind);
      HeldBefore(sys, st, e, r', t', kind);
    }
  }

  lemma BackedAgain(sys: System, e: Entry, t: Ticket, n: int)
    requires Backed(sys, e, t)
    ensures Backed(sys, e, t.(numReplicas := n))
  {
  }

  lemma OneMore(n: int, units: int)
    ensures (n + 1) * units == n * units + units
  {
  }

  lemma StoreAfterTake(st: Store, r: Rounds, s: Name, t: Ticket)
    requires t.finalAlloc.numReplicas >= 1
    ensures StoreOf(st, TakeOne(r, s, t))
         == Store(r.available[t.kind := CountIn(r.available, t.kind) - t.units],
                  StoreOf(st, r).allocations[s := Scaled(t.finalAlloc, t.numReplicas + 1)])
  {
    hide Scaled;
    var r' := TakeOne(r, s, t);
    var a := Scaled(t.finalAlloc, t.numReplicas + 1);
    assert Given(r'.served) == Given(r.served)[s := a];
    assert st.allocations + Given(r.served)[s := a] == (st.allocations + Given(r.served))[s := a];
  }

  lemma HeldBefore(sys: System, st: Store, e: Entry, r: Rounds, t: Ticket, kind: Name)
    requires Backed(sys, e, t)
    requires e.server in r.served ==> r.served[e.server] == t
    requires e.server !in r.served ==> t.numReplicas == 0 && e.server !in st.allocations
    ensures Held(sys, StoreOf(st, r).allocations, e.server, kind) == if kind == t.kind then t.numReplicas * t.units else 0
  {
    var s := e.server;
    if s in r.served {
      var a := Scaled(t.finalAlloc, t.numReplicas);
      assert StoreOf(st, r).allocations[s] == a;
      assert Known(sys, s, a) && Kind(sys, s, a) == t.kind && UnitsPerReplica(sys, s, a) == t.units;
    }
  }

  /** The ticket a member plays in its turn. */
  ghost predicate Plays(sys: System, e: Entry, k: nat, r: Rounds, t: Ticket) {
    && e.server in r.tickets
    && t.active && Backed(sys, e, t) && t.numReplicas == k
    && t.units <= CountIn(r.available, t.kind)
    && (k > 0 ==> r.tickets[e.server] == t)
  }

  /** A member that takes its turn: everybody is still where the round says, and fairness holds. */
  lemma TakeKeeps(sys: System, entries: seq<Entry>, st: Store, k: nat, p: nat, r: Rounds, t: Ticket)
    requires RoundOk(sys, entries, st, k, p, r) && p < |entries|
    requires Plays(sys, entries[p], k, r, t)
    ensures RoundOk(sys, entries, st, k, p + 1, TakeOne(r, entries[p].server, t))
  {
    hide Conserved, NoMore, Backed, FairPair, NoRoom, StoreOf, TicketsOk, OnlyMembers, AllFair, UnallocatedOk, WellFormed;
    var e, r' := entries[p], TakeOne(r, entries[p].server, t);
    var s := e.server;
    assert MemberOk(sys, st.available, e, k, false, r);
    UnitsPositive(sys, e, t);
    TakeFrame(entries, p, st.available, r, t);
    NotAllocatedYet(sys, st, entries, p);
    TakeConserves(sys, st, e, r, t);
    TakeMember(sys, st, e, k, r, t);
    forall q | 0 <= q < |entries| ensures MemberOk(sys, st.available, entries[q], k, q < p + 1, r') {
      if q != p {
        assert entries[q].server != s;
        assert MemberOk(sys, st.available, entries[q], k, q < p, r);
        OtherMember(sys, st.available, entries[q], k, q < p, r, s, t);
      }
    }
    forall i, j | 0 <= i < j < |entries| ensures FairPair(r'.served, entries[i].server, entries[j].server) {
      TakeFair(sys, entries, st, k, p, r, t, i, j);
    }
    FairIntro(entries, r'.served);
  }

  lemma NotAllocatedYet(sys: System, st: Store, entries: seq<Entry>, p: nat)
    requires Leftover(sys, st, entries) && p < |entries|
    ensures entries[p].server !in st.allocations
  {
    assert UnallocatedOk(sys, st, entries[p]);
  }

  lemma FairIntro(entries: seq<Entry>, served: map<Name, Ticket>)
    requires forall i, j :: 0 <= i < j < |entries| ==> FairPair(served, entries[i].server, entries[j].server)
    ensures AllFair(entries, served)
  {
  }

  lemma UnitsPositive(sys: System, e: Entry, t: Ticket)
    requires Backed(sys, e, t)
    ensures 1 <= t.units && 1 <= t.finalAlloc.numReplicas
  {
  }

  /** The parts of the invariant that speak of the whole. */
  lemma TakeFrame(entries: seq<Entry>, p: nat, before: map<Name, int>, r: Rounds, t: Ticket)
    requires p < |entries| && 1 <= t.units
    requires NoMore(before, r.available) && TicketsOk(r.tickets)
    requires OnlyMembers(entries, r.tickets.Keys) && OnlyMembers(entries, r.served.Keys)
    ensures var r' := TakeOne(r, entries[p].server, t);
            && NoMore(before, r'.available)
            && TicketsOk(r'.tickets)
            && OnlyMembers(entries, r'.tickets.Keys) && OnlyMembers(entries, r'.served.Keys)
  {
    var r' := TakeOne(r, entries[p].server, t);
    forall k ensures CountIn(r'.available, k) <= CountIn(before, k) {
      assert CountIn(r.available, k) <= CountIn(before, k);
    }
  }

  /** The member whose turn it is. */
  lemma TakeMember(sys: System, st: Store, e: Entry, k: nat, r: Rounds, t: Ticket)
    requires MemberOk(sys, st.available, e, k, false, r) && NoMore(st.available, r.available)
    requires Plays(sys, e, k, r, t)
    ensures MemberOk(sys, st.available, e, k, true, TakeOne(r, e.server, t))
  {
    var s, r' := e.server, TakeOne(r, e.server, t);
    assert CountIn(r.available, t.kind) <= CountIn(st.available, t.kind);
    assert (k + 1) * t.units == k * t.units + t.units;
    if k > 0 {
      assert GotSome(sys, st.available, e, r.available, r.served[s]);
    }
    assert Backed(sys, e, r'.served[s]);
  }

  /** A member that is not concerned. */
  lemma OtherMember(sys: System, before: map<Name, int>, e: Entry, k: nat, visited: bool, r: Rounds, s: Name, t: Ticket)
    requires MemberOk(sys, before, e, k, visited, r) && e.server != s && 1 <= t.units
    ensures MemberOk(sys, before, e, k, visited, TakeOne(r, s, t))
  {
    var r' := TakeOne(r, s, t);
    forall kind ensures CountIn(r'.available, kind) <= CountIn(r.available, kind) {
    }
  }

  /** Fairness after a turn: as long as there is room for one more of this size, nobody of the same
      kind and size has left, so the earlier ones are one ahead and the later ones level. */
  lemma TakeFair(sys: System, entries: seq<Entry>, st: Store, k: nat, p: nat, r: Rounds, t: Ticket, i: nat, j: nat)
    requires RoundOk(sys, entries, st, k, p, r) && p < |entries|
    requires Plays(sys, entries[p], k, r, t)
    requires i < j < |entries|
    ensures FairPair(TakeOne(r, entries[p].server, t).served, entries[i].server, entries[j].server)
  {
    hide Conserved, NoMore, Backed, NoRoom, StoreOf, TicketsOk, OnlyMembers, UnallocatedOk, WellFormed;
    var a, b, s := entries[i].server, entries[j].server, entries[p].server;
    assert a != b;
    assert FairPair(r.served, a, b);
    assert MemberOk(sys, st.available, entries[i], k, i < p, r);
    assert MemberOk(sys, st.available, entries[j], k, j < p, r);
    assert i != p ==> a != s;
    assert j != p ==> b != s;
  }

  /** What a visit does to a member in the rounds. */
  lemma VisitKeeps(sys: System, entries: seq<Entry>, st: Store, k: nat, p: nat, r: Rounds)
    requires RoundOk(sys, entries, st, k, p, r) && p < |entries|
    ensures RoundOk(sys, entries, st, k, p + 1, Visit(sys, entries[p], r))
  {
    hide Conserved, NoMore, FairPair, StoreOf, OnlyMembers, UnallocatedOk, WellFormed, TakeOne, AllFair, InRounds, GotSome;
    var e := entries[p];
    var s := e.server;
    assert MemberOk(sys, st.available, e, k, false, r);
    if s !in r.tickets {
      SkipKeeps(sys, entries, st, k, p, r);
    } else {
      TurnFacts(sys, entries, st, k, p, r);
      if r.tickets[s].active {
        PlayOrLeave(sys, entries, st, k, p, r, r.tickets[s]);
      } else {
        var i := FirstFit(sys, r.available, s, e.candidates);
        if i == |e.candidates| {
          forall j | 0 <= j < |e.candidates| ensures NoRoom(sys, r.available, s, e.candidates[j]) {
            CandidateFacts(sys, st, entries, p, e.candidates[j]);
          }
          LeaveKeeps(sys, entries, st, k, p, r);
        } else {
          CandidateFacts(sys, st, entries, p, e.candidates[i]);
          PlayOrLeave(sys, entries, st, k, p, r, Activate(sys, r.available, e, r.tickets[s]));
        }
      }
    }
  }

  /** A member with a ticket has one replica per round, backed by what it got. */
  lemma TurnFacts(sys: System, entries: seq<Entry>, st: Store, k: nat, p: nat, r: Rounds)
    requires RoundOk(sys, entries, st, k, p, r) && p < |entries| && entries[p].server in r.tickets
    ensures var t := r.tickets[entries[p].server];
            && t.numReplicas == k
            && (t.active <==> k > 0)
            && (t.active ==> Backed(sys, entries[p], t))
  {
    hide Conserved, NoMore, FairPair, StoreOf, OnlyMembers, UnallocatedOk, WellFormed, AllFair, NoRoom, Backed;
    assert MemberOk(sys, st.available, entries[p], k, false, r);
  }

  lemma SkipKeeps(sys: System, entries: seq<Entry>, st: Store, k: nat, p: nat, r: Rounds)
    requires RoundOk(sys, entries, st, k, p, r) && p < |entries|
    requires entries[p].server !in r.tickets
    ensures RoundOk(sys, entries, st, k, p + 1, r)
  {
    hide Conserved, NoMore, FairPair, StoreOf, OnlyMembers, UnallocatedOk, WellFormed, AllFair, NoRoom, GotSome, InRounds;
    forall q | 0 <= q < |entries| ensures MemberOk(sys, st.available, entries[q], k, q < p + 1, r) {
      assert MemberOk(sys, st.available, entries[q], k, q < p, r);
    }
  }

  /** With a backed ticket in hand the member plays exactly when one more replica fits. */
  lemma PlayOrLeave(sys: System, entries: seq<Entry>, st: Store, k: nat, p: nat, r: Rounds, t: Ticket)
    requires RoundOk(sys, entries, st, k, p, r) && p < |entries| && entries[p].server in r.tickets
    requires t.active && Backed(sys, entries[p], t) && t.numReplicas == k
    requires r.tickets[entries[p].server].active ==> r.tickets[entries[p].server] == t
    requires k > 0 <==> r.tickets[entries[p].server].active
    requires k == 0 ==> t.units <= CountIn(r.available, t.kind)
    requires Visit(sys, entries[p], r)
          == if Min(CountIn(r.available, t.kind) / t.units, t.finalAlloc.numReplicas) > 0
             then TakeOne(r, entries[p].server, t)
             else r.(tickets := r.tickets - {entries[p].server})
    ensures RoundOk(sys, entries, st, k, p + 1, Visit(sys, entries[p], r))
  {
    hide NoMore, FairPair, OnlyMembers, UnallocatedOk, WellFormed, TakeOne, AllFair, InRounds, GotSome, Visit, Conserved, StoreOf;
    AvailableNonNegative(sys, StoreOf(st, r), t.kind);
    StoreOfAvailable(st, r);
    AtLeastOne(CountIn(r.available, t.kind), t.units);
    if t.units <= CountIn(r.available, t.kind) {
      TakeKeeps(sys, entries, st, k, p, r, t);
    } else {
      LeaveKeeps(sys, entries, st, k, p, r);
    }
  }

  lemma StoreOfAvailable(st: Store, r: Rounds)
    ensures StoreOf(st, r).available == r.available
  {
  }

  lemma AtLeastOne(left: int, units: int)
    requires 0 <= left && 1 <= units
    ensures left / units > 0 <==> units <= left
  {
  }

  /** A finished round is the start of the next one. */
  lemma NextRound(sys: System, entries: seq<Entry>, st: Store, k: nat, r: Rounds)
    requires RoundOk(sys, entries, st, k, |entries|, r)
    ensures RoundOk(sys, entries, st, k + 1, 0, r)
  {
    hide Conserved, NoMore, FairPair, StoreOf, OnlyMembers, UnallocatedOk, WellFormed, AllFair, NoRoom, GotSome;
    forall q | 0 <= q < |entries| ensures MemberOk(sys, st.available, entries[q], k + 1, q < 0, r) {
      assert MemberOk(sys, st.available, entries[q], k, q < |entries|, r);
    }
  }

  /** A round with members in it is bounded by the units there were. */
  lemma RoundsBounded(sys: System, entries: seq<Entry>, st: Store, k: nat, r: Rounds, bound: nat)
    requires RoundOk(sys, entries, st, k, 0, r) && r.tickets != map[]
    requires forall kind :: CountIn(st.available, kind) <= bound
    ensures k <= bound
  {
    hide FairPair, UnallocatedOk, WellFormed, AllFair, NoRoom, Conserved, StoreOf, Backed, NoMore, TicketsOk;
    var s :| s in r.tickets;
    var i :| 0 <= i < |entries| && entries[i].server == s;
    assert MemberOk(sys, st.available, entries[i], k, false, r);
    if k > 0 {
      var t := r.tickets[s];
      assert GotSome(sys, st.available, entries[i], r.available, t);
      AvailableNonNegative(sys, StoreOf(st, r), t.kind);
      StoreOfAvailable(st, r);
      UnitsPositive(sys, entries[i], t);
      AtLeastItself(k, t.units);
    }
  }

  lemma AtLeastItself(k: nat, units: int)
    requires 1 <= units
    ensures k <= k * units
  {
  }

  // ---- The outcome ----

  /** Fairness of the outcome: two members served with the same kind of accelerator and the same
      units per replica end with replica counts that differ by at most one, the earlier not behind. */
  ghost predicate FairShares(sys: System, entries: seq<Entry>, before: map<Name, Allocation>, after: map<Name, Allocation>) {
    forall i, j :: 0 <= i < j < |entries| ==> FairShare(sys, before, after, entries[i].server, entries[j].server)
  }

  ghost predicate FairShare(sys: System, before: map<Name, Allocation>, after: map<Name, Allocation>, x: Name, y: Name) {
    x in after && x !in before && y in after && y !in before
    && Known(sys, x, after[x]) && Known(sys, y, after[y])
    && Kind(sys, x, after[x]) == Kind(sys, y, after[y])
    && UnitsPerReplica(sys, x, after[x]) == UnitsPerReplica(sys, y, after[y]) ==>
      after[y].numReplicas <= after[x].numReplicas <= after[y].numReplicas + 1
  }

  /** A member that got something got a cut-down candidate. */
  lemma GotPartOnly(sys: System, entries: seq<Entry>, st: Store, k: nat, r: Rounds, q: nat)
    requires RoundOk(sys, entries, st, k, 0, r) && q < |entries| && entries[q].server in r.served
    ensures var t := r.served[entries[q].server];
            && Backed(sys, entries[q], t)
            && PartlyServed(sys, entries[q], Scaled(t.finalAlloc, t.numReplicas))
  {
    hide FairPair, UnallocatedOk, WellFormed, AllFair, NoRoom, Conserved, StoreOf;
    var e := entries[q];
    var t := r.served[e.server];
    assert MemberOk(sys, st.available, e, k, false, r);
    assert GotSome(sys, st.available, e, r.available, t);
    CandidateFacts(sys, st, entries, q, t.finalAlloc);
    AvailableNonNegative(sys, StoreOf(st, r), t.kind);
    StoreOfAvailable(st, r);
    CancelUnits(t.numReplicas, t.finalAlloc.numReplicas, t.units);
    ScaledPriced(sys, e.server, t.finalAlloc, t.numReplicas);
    var i :| 0 <= i < |e.candidates| && e.candidates[i] == t.finalAlloc;
    assert CutDown(sys, e.server, e.candidates[i], Scaled(t.finalAlloc, t.numReplicas));
  }

  /** When nobody is left in the rounds, best effort is done and it was fair. */
  lemma RoundsShare(sys: System, entries: seq<Entry>, st: Store, k: nat, r: Rounds)
    requires RoundOk(sys, entries, st, k, 0, r) && r.tickets == map[]
    ensures Shared(sys, entries, st, StoreOf(st, r))
    ensures FairShares(sys, entries, st.allocations, StoreOf(st, r).allocations)
  {
    hide FairPair, WellFormed, Conserved, PartlyServed, Exhausted, FairShare, MemberOk, AllFair, StoreOf, OnlyPartial;
    var st' := StoreOf(st, r);
    StoreOfAvailable(st, r);
    RoundsOnlyPartial(sys, entries, st, k, r);
    forall q | 0 <= q < |entries| ensures Exhausted(sys, st', entries[q]) {
      ExhaustedAtEnd(sys, entries, st, k, r, q);
    }
    forall i, j | 0 <= i < j < |entries|
      ensures FairShare(sys, st.allocations, st'.allocations, entries[i].server, entries[j].server)
    {
      FairAtEnd(sys, entries, st, k, r, i, j);
    }
  }

  lemma RoundsOnlyPartial(sys: System, entries: seq<Entry>, st: Store, k: nat, r: Rounds)
    requires RoundOk(sys, entries, st, k, 0, r)
    ensures OnlyPartial(sys, entries, st.allocations, StoreOf(st, r).allocations)
  {
    hide FairPair, WellFormed, Conserved, PartlyServed, MemberOk, AllFair, Scaled, Backed, Known, Refuses;
    var after := StoreOf(st, r).allocations;
    forall s | s in after && s !in st.allocations
      ensures exists i :: 0 <= i < |entries| && entries[i].server == s && PartlyServed(sys, entries[i], after[s])
    {
      assert s in r.served;
      var i :| 0 <= i < |entries| && entries[i].server == s;
      GotPartOnly(sys, entries, st, k, r, i);
      assert after[s] == Scaled(r.served[s].finalAlloc, r.served[s].numReplicas);
    }
    forall i | 0 <= i < |entries| ensures entries[i].server !in st.allocations {
      assert UnallocatedOk(sys, st, entries[i]);
    }
    assert forall s :: s in st.allocations ==> s !in r.served;
  }

  lemma ExhaustedAtEnd(sys: System, entries: seq<Entry>, st: Store, k: nat, r: Rounds, q: nat)
    requires RoundOk(sys, entries, st, k, 0, r) && r.tickets == map[] && q < |entries|
    ensures Exhausted(sys, StoreOf(st, r), entries[q])
  {
    hide FairPair, WellFormed, Conserved, AllFair, PartlyServed;
    var e, st' := entries[q], StoreOf(st, r);
    assert MemberOk(sys, st.available, e, k, false, r);
    assert UnallocatedOk(sys, st, e);
    if e.server in r.served {
      GotPartOnly(sys, entries, st, k, r, q);
      assert st'.allocations[e.server].accelerator == r.served[e.server].finalAlloc.accelerator;
    }
  }

  lemma FairAtEnd(sys: System, entries: seq<Entry>, st: Store, k: nat, r: Rounds, i: nat, j: nat)
    requires RoundOk(sys, entries, st, k, 0, r)
    requires i < j < |entries|
    ensures FairShare(sys, st.allocations, StoreOf(st, r).allocations, entries[i].server, entries[j].server)
  {
    hide WellFormed, Conserved, UnallocatedOk, NoMore, NoRoom, GotSome, InRounds, PartlyServed;
    var x, y, after := entries[i].server, entries[j].server, StoreOf(st, r).allocations;
    assert FairPair(r.served, x, y);
    if x in after && x !in st.allocations && y in after && y !in st.allocations {
      GotPartOnly(sys, entries, st, k, r, i);
      GotPartOnly(sys, entries, st, k, r, j);
      assert after[x].accelerator == r.served[x].finalAlloc.accelerator;
      assert after[y].accelerator == r.served[y].finalAlloc.accelerator;
    }
  }

  // ---- Start and end of the rounds ----

  const FRESH: Ticket := Ticket(false, 0, 0, 0, Allocation(0, 0, 0.0, 0.0))

  predicate ModelKnown(sys: System, s: Name) {
    s in sys.servers && sys.servers[s].model in sys.models
  }

  /** A fresh ticket for every member whose model is known starts the rounds. */
  lemma StartOk(sys: System, entries: seq<Entry>, st: Store, tickets: map<Name, Ticket>)
    requires Leftover(sys, st, entries)
    requires forall s :: s in tickets ==> tickets[s] == FRESH && HasEntry(entries, s)
    requires forall j :: 0 <= j < |entries| ==> (entries[j].server in tickets <==> ModelKnown(sys, entries[j].server))
    ensures RoundOk(sys, entries, st, 0, 0, Rounds(st.available, tickets, map[]))
  {
    hide Conserved, WellFormed;
    var r := Rounds(st.available, tickets, map[]);
    assert Given(map[]) == map[];
    assert StoreOf(st, r) == st;
    forall q | 0 <= q < |entries| ensures MemberOk(sys, st.available, entries[q], 0, q < 0, r) {
      var e := entries[q];
      assert UnallocatedOk(sys, st, e);
      assert |e.candidates| > 0 ==> Refuses(sys, st, e.server, e.candidates[0]);
    }
  }

  /** An upper bound on all counts of a map. */
  ghost function BoundOf(m: map<Name, int>): (b: nat)
    ensures forall k :: CountIn(m, k) <= b
    decreases |m.Keys|
  {
    if m == map[] then 0
    else
      var k :| k in m;
      var rest := m - {k};
      assert rest.Keys == m.Keys - {k};
      var b := BoundOf(rest);
      assert forall j :: j != k ==> CountIn(m, j) == CountIn(rest, j);
      if b < m[k] then m[k] else b
  }

  lemma ServedScalable(sys: System, entries: seq<Entry>, st: Store, k: nat, r: Rounds)
    requires RoundOk(sys, entries, st, k, 0, r)
    ensures forall s :: s in r.served ==> r.served[s].finalAlloc.numReplicas >= 1
  {
    forall s | s in r.served ensures r.served[s].finalAlloc.numReplicas >= 1 {
      var i :| 0 <= i < |entries| && entries[i].server == s;
      assert MemberOk(sys, st.available, entries[i], k, false, r);
    }
  }

  function Without(served: map<Name, Ticket>, todo: set<Name>): map<Name, Ticket> {
    map s | s in served && s !in todo :: served[s]
  }

  lemma WithoutStep(served: map<Name, Ticket>, todo: set<Name>, s: Name, base: map<Name, Allocation>)
    requires s in todo && s in served && served[s].finalAlloc.numReplicas != 0
    ensures base + Given(Without(served, todo - {s}))
         == (base + Given(Without(served, todo)))[s := Scaled(served[s].finalAlloc, served[s].numReplicas)]
  {
    hide Scaled;
    var before, after := Without(served, todo), Without(served, todo - {s});
    var a := Scaled(served[s].finalAlloc, served[s].numReplicas);
    assert after == before[s := served[s]];
    assert Given(after) == Given(before)[s := a];
    assert base + Given(before)[s := a] == (base + Given(before))[s := a];
  }

  lemma TicketsAreOk(sys: System, entries: seq<Entry>, st: Store, k: nat, p: nat, r: Rounds)
    requires RoundOk(sys, entries, st, k, p, r)
    ensures TicketsOk(r.tickets)
  {
  }
}
