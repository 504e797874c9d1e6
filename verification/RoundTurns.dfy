/** The rounds turn by turn: exactly what every member of a group ends up with, from what was available
    and the order of the group.  A member picks at its first turn, and has a replica for every turn at
    which one more fitted in what all turns before had left. */
module RoundTurns {
  import opened Basics
  import opened GreedyModel
  import opened GreedyAllocate
  import opened BestEffort
  import opened RoundRobin

  // ---- What has been taken before a turn ----

  /** Turns that member `q` has had before the turn of member `p` in round `k`. */
  function TurnsOf(q: nat, k: nat, p: nat): nat {
    if q < p then k + 1 else k
  }

  /** Units of a kind that a server has taken in its first turns, one replica a turn, by what it ends up
      holding. */
  ghost function TakenIn(sys: System, s: Name, now: map<Name, Allocation>, turns: nat, kind: Name): int {
    if s in now && Known(sys, s, now[s]) && Kind(sys, s, now[s]) == kind
    then Min(now[s].numReplicas, turns) * UnitsPerReplica(sys, s, now[s]) else 0
  }

  /** Units taken by the first `n` members before the turn of member `p` in round `k`. */
  ghost function TakenBefore(sys: System, entries: seq<Entry>, now: map<Name, Allocation>, k: nat, p: nat, kind: Name, n: nat): int
    requires n <= |entries|
  {
    if n == 0 then 0
    else TakenBefore(sys, entries, now, k, p, kind, n - 1)
         + TakenIn(sys, entries[n - 1].server, now, TurnsOf(n - 1, k, p), kind)
  }

  /** Units left at that turn. */
  ghost function LeftAt(sys: System, entries: seq<Entry>, st: Store, now: map<Name, Allocation>, k: nat, p: nat, kind: Name): int {
    CountIn(st.available, kind) - TakenBefore(sys, entries, now, k, p, kind, |entries|)
  }

  /** One replica of the candidate fits at that turn. */
  ghost predicate FitsAt(sys: System, entries: seq<Entry>, st: Store, now: map<Name, Allocation>, k: nat, p: nat, s: Name, a: Allocation) {
    Known(sys, s, a) && 1 <= UnitsPerReplica(sys, s, a) <= LeftAt(sys, entries, st, now, k, p, Kind(sys, s, a))
  }

  /** Candidate `i` is the first that fits at the first turn of member `p`. */
  ghost predicate FirstAt(sys: System, entries: seq<Entry>, st: Store, now: map<Name, Allocation>, p: nat, i: nat)
    requires p < |entries| && i < |entries[p].candidates|
  {
    var e := entries[p];
    && FitsAt(sys, entries, st, now, 0, p, e.server, e.candidates[i])
    && forall j :: 0 <= j < i ==> !FitsAt(sys, entries, st, now, 0, p, e.server, e.candidates[j])
  }

  ghost predicate NoneAt(sys: System, entries: seq<Entry>, st: Store, now: map<Name, Allocation>, p: nat)
    requires p < |entries|
  {
    forall j :: 0 <= j < |entries[p].candidates| ==> !FitsAt(sys, entries, st, now, 0, p, entries[p].server, entries[p].candidates[j])
  }

  /** In round `k` member `p` takes a replica exactly when one fits. */
  ghost predicate TakesIff(sys: System, entries: seq<Entry>, st: Store, now: map<Name, Allocation>, k: nat, p: nat)
    requires p < |entries| && entries[p].server in now
  {
    var s := entries[p].server;
    k < now[s].numReplicas <==> FitsAt(sys, entries, st, now, k, p, s, now[s])
  }

  ghost predicate PicksFirst(sys: System, entries: seq<Entry>, st: Store, now: map<Name, Allocation>, p: nat)
    requires p < |entries| && entries[p].server in now
  {
    exists i :: 0 <= i < |entries[p].candidates|
             && FirstAt(sys, entries, st, now, p, i) && ShareOf(entries[p].candidates[i], now[entries[p].server])
  }

  /** The outcome of the rounds: every member has a share of the first candidate that fitted at its first
      turn, one replica for each turn at which one fitted; or nothing fitted at its first turn, and it
      has nothing. */
  ghost predicate RoundsInTurn(sys: System, entries: seq<Entry>, st: Store, now: map<Name, Allocation>) {
    forall p :: 0 <= p < |entries| ==> MemberInTurn(sys, entries, st, now, p)
  }

  ghost predicate MemberInTurn(sys: System, entries: seq<Entry>, st: Store, now: map<Name, Allocation>, p: nat)
    requires p < |entries|
  {
    if entries[p].server in now then
      && PicksFirst(sys, entries, st, now, p)
      && forall k: nat :: TakesIff(sys, entries, st, now, k, p)
    else
      NoneAt(sys, entries, st, now, p)
  }

  // ---- The invariant ----

  /** What is on record of a turn that has passed. */
  ghost predicate TurnOk(sys: System, entries: seq<Entry>, st: Store, r: Rounds, k: nat, p: nat)
    requires p < |entries|
  {
    var e, now := entries[p], StoreOf(st, r).allocations;
    if e.server in now then
      && TakesIff(sys, entries, st, now, k, p)
      && (k == 0 ==> ChoseFirst(sys, entries, st, r, p))
    else
      k == 0 ==> NoneAt(sys, entries, st, now, p)
  }

  ghost predicate ChoseFirst(sys: System, entries: seq<Entry>, st: Store, r: Rounds, p: nat)
    requires p < |entries|
  {
    var e, now := entries[p], StoreOf(st, r).allocations;
    && e.server in r.served
    && exists i :: 0 <= i < |e.candidates| && FirstAt(sys, entries, st, now, p, i) && e.candidates[i] == r.served[e.server].finalAlloc
  }

  /** The turn of `p'` in round `k'` comes before that of `p` in round `k`. */
  predicate Past(k': nat, p': nat, k: nat, p: nat) {
    k' < k || (k' == k && p' < p)
  }

  ghost predicate TurnsOk(sys: System, entries: seq<Entry>, st: Store, k: nat, p: nat, r: Rounds) {
    var now := StoreOf(st, r).allocations;
    && (forall kind :: CountIn(r.available, kind) == LeftAt(sys, entries, st, now, k, p, kind))
    && (forall q :: 0 <= q < |entries| && entries[q].server in now ==> now[entries[q].server].numReplicas <= TurnsOf(q, k, p))
    && (forall k', p' :: 0 <= p' < |entries| && Past(k', p', k, p) ==> TurnOk(sys, entries, st, r, k', p'))
  }

  /** Sums over members agree when every member's part does, but for the part of member `x`. */
  lemma {:induction false} TakenDiffers(sys: System, entries: seq<Entry>, a: map<Name, Allocation>, b: map<Name, Allocation>,
                                        k: nat, p: nat, k2: nat, p2: nat, kind: Name, n: nat, x: nat, d: int)
    requires n <= |entries|
    requires forall q :: 0 <= q < n && q != x ==>
               TakenIn(sys, entries[q].server, b, TurnsOf(q, k2, p2), kind) == TakenIn(sys, entries[q].server, a, TurnsOf(q, k, p), kind)
    requires x < n ==>
               TakenIn(sys, entries[x].server, b, TurnsOf(x, k2, p2), kind) == TakenIn(sys, entries[x].server, a, TurnsOf(x, k, p), kind) + d
    ensures TakenBefore(sys, entries, b, k2, p2, kind, n)
         == TakenBefore(sys, entries, a, k, p, kind, n) + if x < n then d else 0
  {
    hide TakenIn, TurnsOf;
    if n > 0 {
      TakenDiffers(sys, entries, a, b, k, p, k2, p2, kind, n - 1, x, d);
    }
  }

  /** What member `s` holds in terms of its ticket. */
  lemma MemberHolds(sys: System, entries: seq<Entry>, st: Store, k: nat, p: nat, r: Rounds, q: nat)
    requires RoundOk(sys, entries, st, k, p, r) && q < |entries|
    ensures var s, now := entries[q].server, StoreOf(st, r).allocations;
            && (s in now <==> s in r.served)
            && (s in r.served ==>
                  var t := r.served[s];
                  && Backed(sys, entries[q], t) && 1 <= t.numReplicas
                  && now[s] == Scaled(t.finalAlloc, t.numReplicas) && now[s].numReplicas == t.numReplicas
                  && Known(sys, s, now[s]) && Kind(sys, s, now[s]) == t.kind && UnitsPerReplica(sys, s, now[s]) == t.units)
  {
    hide Conserved, WellFormed, FairPair, AllFair, NoRoom, NoMore, OnlyMembers;
    assert MemberOk(sys, st.available, entries[q], k, q < p, r);
    NotAllocatedYet(sys, st, entries, q);
  }

  // ---- Every turn keeps it ----

  /** A turn in which nothing is taken. */
  lemma TurnPasses(sys: System, entries: seq<Entry>, st: Store, k: nat, p: nat, r: Rounds, r': Rounds)
    requires RoundOk(sys, entries, st, k, p, r) && TurnsOk(sys, entries, st, k, p, r) && p < |entries|
    requires r'.available == r.available && r'.served == r.served
    requires entries[p].server in StoreOf(st, r).allocations ==>
               StoreOf(st, r).allocations[entries[p].server].numReplicas <= k
    requires TurnOk(sys, entries, st, r, k, p)
    ensures TurnsOk(sys, entries, st, k, p + 1, r')
  {
    hide RoundOk, TakenIn, TurnOk;
    var now := StoreOf(st, r).allocations;
    assert StoreOf(st, r').allocations == now;
    forall kind ensures CountIn(r'.available, kind) == LeftAt(sys, entries, st, now, k, p + 1, kind) {
      forall q | 0 <= q < |entries|
        ensures TakenIn(sys, entries[q].server, now, TurnsOf(q, k, p + 1), kind) == TakenIn(sys, entries[q].server, now, TurnsOf(q, k, p), kind)
      {
        if q == p {
          EnoughTurns(sys, entries[q].server, now, k, k + 1, kind);
        }
      }
      TakenDiffers(sys, entries, now, now, k, p, k, p + 1, kind, |entries|, |entries|, 0);
    }
    forall k', p' | 0 <= p' < |entries| && Past(k', p', k, p + 1) ensures TurnOk(sys, entries, st, r', k', p') {
      SameRecord(sys, entries, st, r, r', k', p');
      assert Past(k', p', k, p) || (k' == k && p' == p);
    }
  }

  lemma SameRecord(sys: System, entries: seq<Entry>, st: Store, r: Rounds, r': Rounds, k: nat, p: nat)
    requires p < |entries| && r'.served == r.served
    ensures TurnOk(sys, entries, st, r, k, p) <==> TurnOk(sys, entries, st, r', k, p)
  {
    assert StoreOf(st, r').allocations == StoreOf(st, r).allocations;
  }

  lemma EnoughTurns(sys: System, s: Name, now: map<Name, Allocation>, turns: nat, turns': nat, kind: Name)
    requires s in now ==> now[s].numReplicas <= turns && turns <= turns'
    ensures TakenIn(sys, s, now, turns', kind) == TakenIn(sys, s, now, turns, kind)
  {
  }

  /** Left at a past turn does not depend on what is taken now. */
  lemma PastLeft(sys: System, entries: seq<Entry>, st: Store, now: map<Name, Allocation>, now': map<Name, Allocation>,
                 k: nat, p: nat, k': nat, p': nat, kind: Name)
    requires p < |entries| && p' < |entries| && DistinctServers(entries)
    requires Past(k', p', k, p) || (k' == k && p' == p)
    requires forall q :: 0 <= q < |entries| && q != p ==> SameAllocation(entries[q].server, now, now')
    requires OneMoreOf(sys, entries[p].server, now, now', k)
    ensures LeftAt(sys, entries, st, now', k', p', kind) == LeftAt(sys, entries, st, now, k', p', kind)
  {
    hide OneMoreOf, DistinctServers;
    forall q | 0 <= q < |entries|
      ensures TakenIn(sys, entries[q].server, now', TurnsOf(q, k', p'), kind) == TakenIn(sys, entries[q].server, now, TurnsOf(q, k', p'), kind)
    {
      if q == p {
        TakenEarlier(sys, entries[p].server, now, now', k, TurnsOf(p, k', p'), kind);
      } else {
        assert SameAllocation(entries[q].server, now, now');
      }
    }
    TakenDiffers(sys, entries, now, now', k', p', k', p', kind, |entries|, |entries|, 0);
  }

  /** The server goes from `k` replicas (nothing, if `k` is zero) to one more of the same. */
  ghost predicate OneMoreOf(sys: System, s: Name, now: map<Name, Allocation>, now': map<Name, Allocation>, k: nat) {
    && s in now' && Known(sys, s, now'[s]) && now'[s].numReplicas == k + 1
    && (s in now <==> k > 0)
    && (s in now ==>
          && now[s].numReplicas == k && Known(sys, s, now[s])
          && Kind(sys, s, now[s]) == Kind(sys, s, now'[s]) && UnitsPerReplica(sys, s, now[s]) == UnitsPerReplica(sys, s, now'[s]))
  }

  lemma TakenEarlier(sys: System, s: Name, now: map<Name, Allocation>, now': map<Name, Allocation>, k: nat, turns: nat, kind: Name)
    requires OneMoreOf(sys, s, now, now', k) && turns <= k
    ensures TakenIn(sys, s, now', turns, kind) == TakenIn(sys, s, now, turns, kind)
  {
    hide Kind, UnitsPerReplica, Known;
  }

  lemma TakenNow(sys: System, s: Name, now: map<Name, Allocation>, now': map<Name, Allocation>, k: nat, kind: Name)
    requires OneMoreOf(sys, s, now, now', k)
    ensures TakenIn(sys, s, now', k + 1, kind)
         == TakenIn(sys, s, now, k, kind) + if kind == Kind(sys, s, now'[s]) then UnitsPerReplica(sys, s, now'[s]) else 0
  {
    hide Kind, UnitsPerReplica, Known;
    if s in now {
      OneMore(k, UnitsPerReplica(sys, s, now'[s]));
    }
  }

  /** A past turn stays on record. */
  lemma RecordStays(sys: System, entries: seq<Entry>, st: Store, k: nat, p: nat, r: Rounds, r': Rounds, k': nat, p': nat)
    requires p < |entries| && p' < |entries| && DistinctServers(entries) && Past(k', p', k, p)
    requires TurnOk(sys, entries, st, r, k', p')
    requires var now, now' := StoreOf(st, r).allocations, StoreOf(st, r').allocations;
             && (forall q :: 0 <= q < |entries| && q != p ==> SameAllocation(entries[q].server, now, now'))
             && OneMoreOf(sys, entries[p].server, now, now', k)
    requires forall s :: s in r.served ==> s in r'.served && r'.served[s].finalAlloc == r.served[s].finalAlloc
    ensures TurnOk(sys, entries, st, r', k', p')
  {
    hide LeftAt, DistinctServers, StoreOf, Kind, UnitsPerReplica, Known;
    var now, now' := StoreOf(st, r).allocations, StoreOf(st, r').allocations;
    forall kind, kk, pp | 0 <= pp < |entries| && (Past(kk, pp, k, p) || (kk == k && pp == p))
      ensures LeftAt(sys, entries, st, now', kk, pp, kind) == LeftAt(sys, entries, st, now, kk, pp, kind)
    {
      PastLeft(sys, entries, st, now, now', k, p, kk, pp, kind);
    }
    var s := entries[p'].server;
    if p' != p {
      assert SameAllocation(s, now, now');
    }
    forall a ensures FitsAt(sys, entries, st, now', k', p', s, a) <==> FitsAt(sys, entries, st, now, k', p', s, a) {
    }
    if s in now && k' == 0 {
      var i :| 0 <= i < |entries[p'].candidates| && FirstAt(sys, entries, st, now, p', i)
               && entries[p'].candidates[i] == r.served[s].finalAlloc;
      assert FirstAt(sys, entries, st, now', p', i);
    }
    if s in now {
      FitsAlike(sys, entries, st, now', k', p', s, now[s], now'[s]);
    }
  }

  /** Whether one more fits depends on kind and size alone. */
  lemma FitsAlike(sys: System, entries: seq<Entry>, st: Store, now: map<Name, Allocation>, k: nat, p: nat, s: Name, a: Allocation, b: Allocation)
    requires Known(sys, s, a) == Known(sys, s, b)
    requires Known(sys, s, a) ==> Kind(sys, s, a) == Kind(sys, s, b) && UnitsPerReplica(sys, s, a) == UnitsPerReplica(sys, s, b)
    ensures FitsAt(sys, entries, st, now, k, p, s, a) <==> FitsAt(sys, entries, st, now, k, p, s, b)
  {
  }

  /** What the playing member holds before and after it takes a replica. */
  lemma TakenByPlayer(sys: System, entries: seq<Entry>, st: Store, k: nat, p: nat, r: Rounds, t: Ticket)
    requires RoundOk(sys, entries, st, k, p, r) && p < |entries| && Plays(sys, entries[p], k, r, t)
    ensures var s, r' := entries[p].server, TakeOne(r, entries[p].server, t);
            var now, now' := StoreOf(st, r).allocations, StoreOf(st, r').allocations;
            && OneMoreOf(sys, s, now, now', k)
            && Kind(sys, s, now'[s]) == t.kind && UnitsPerReplica(sys, s, now'[s]) == t.units
            && (forall q :: 0 <= q < |entries| && q != p ==> SameAllocation(entries[q].server, now, now'))
            && r'.served == r.served[s := t.(numReplicas := k + 1)]
            && (s in r.served ==> r.served[s].finalAlloc == t.finalAlloc)
  {
    hide Conserved, WellFormed, FairPair, AllFair, NoRoom, NoMore, OnlyMembers, StoreOf, TakeOne, UnallocatedOk;
    var e := entries[p];
    var s := e.server;
    MemberHolds(sys, entries, st, k, p, r, p);
    assert MemberOk(sys, st.available, e, k, false, r);
    StoreAfterTake(st, r, s, t);
    TakeServed(r, s, t);
    ScaledInFigures(t.finalAlloc, k + 1);
    forall q | 0 <= q < |entries| && q != p ensures entries[q].server != s {
    }
  }

  lemma TakeServed(r: Rounds, s: Name, t: Ticket)
    ensures TakeOne(r, s, t).served == r.served[s := t.(numReplicas := t.numReplicas + 1)]
    ensures TakeOne(r, s, t).available == r.available[t.kind := CountIn(r.available, t.kind) - t.units]
  {
  }

  /** A turn in which a replica is taken. */
  lemma TurnTakes(sys: System, entries: seq<Entry>, st: Store, k: nat, p: nat, r: Rounds, t: Ticket)
    requires RoundOk(sys, entries, st, k, p, r) && TurnsOk(sys, entries, st, k, p, r) && p < |entries|
    requires Plays(sys, entries[p], k, r, t)
    requires k == 0 ==> FirstNow(sys, entries[p], r, t)
    ensures TurnsOk(sys, entries, st, k, p + 1, TakeOne(r, entries[p].server, t))
  {
    hide RoundOk, TakenIn, TurnOk, OneMoreOf, StoreOf, TakeOne, Backed, DistinctServers, LeftAt, FirstNow;
    var s, r' := entries[p].server, TakeOne(r, entries[p].server, t);
    var now, now' := StoreOf(st, r).allocations, StoreOf(st, r').allocations;
    TakenByPlayer(sys, entries, st, k, p, r, t);
    TakeServed(r, s, t);
    EntriesDistinct(sys, entries, st, k, p, r);
    forall kind ensures CountIn(r'.available, kind) == LeftAt(sys, entries, st, now', k, p + 1, kind) {
      LeftAfter(sys, entries, st, now, now', k, p, kind);
    }
    MoreTurns(sys, entries, now, now', k, p);
    forall k', p' | 0 <= p' < |entries| && Past(k', p', k, p + 1) ensures TurnOk(sys, entries, st, r', k', p') {
      if Past(k', p', k, p) {
        RecordStays(sys, entries, st, k, p, r, r', k', p');
      } else {
        NewRecord(sys, entries, st, k, p, r, t);
      }
    }
  }

  /** The ticket is for the first candidate that has room now. */
  ghost predicate FirstNow(sys: System, e: Entry, r: Rounds, t: Ticket) {
    exists i :: 0 <= i < |e.candidates| && e.candidates[i] == t.finalAlloc && HasRoom(sys, r.available, e.server, e.candidates[i])
             && forall j :: 0 <= j < i ==> !HasRoom(sys, r.available, e.server, e.candidates[j])
  }

  lemma EntriesDistinct(sys: System, entries: seq<Entry>, st: Store, k: nat, p: nat, r: Rounds)
    requires RoundOk(sys, entries, st, k, p, r)
    ensures DistinctServers(entries)
  {
  }

  lemma LeftAfter(sys: System, entries: seq<Entry>, st: Store, now: map<Name, Allocation>, now': map<Name, Allocation>, k: nat, p: nat, kind: Name)
    requires p < |entries| && OneMoreOf(sys, entries[p].server, now, now', k)
    requires forall q :: 0 <= q < |entries| && q != p ==> SameAllocation(entries[q].server, now, now')
    ensures var s := entries[p].server;
            var d := if kind == Kind(sys, s, now'[s]) then UnitsPerReplica(sys, s, now'[s]) else 0;
            LeftAt(sys, entries, st, now', k, p + 1, kind) == LeftAt(sys, entries, st, now, k, p, kind) - d
  {
    var s := entries[p].server;
    var d := if kind == Kind(sys, s, now'[s]) then UnitsPerReplica(sys, s, now'[s]) else 0;
    forall q | 0 <= q < |entries| && q != p
      ensures TakenIn(sys, entries[q].server, now', TurnsOf(q, k, p + 1), kind) == TakenIn(sys, entries[q].server, now, TurnsOf(q, k, p), kind)
    {
      assert SameAllocation(entries[q].server, now, now');
    }
    TakenNow(sys, s, now, now', k, kind);
    TakenDiffers(sys, entries, now, now', k, p, k, p + 1, kind, |entries|, p, d);
  }

  lemma MoreTurns(sys: System, entries: seq<Entry>, now: map<Name, Allocation>, now': map<Name, Allocation>, k: nat, p: nat)
    requires p < |entries| && OneMoreOf(sys, entries[p].server, now, now', k)
    requires forall q :: 0 <= q < |entries| && q != p ==> SameAllocation(entries[q].server, now, now')
    requires forall q :: 0 <= q < |entries| && entries[q].server in now ==> now[entries[q].server].numReplicas <= TurnsOf(q, k, p)
    ensures forall q :: 0 <= q < |entries| && entries[q].server in now' ==> now'[entries[q].server].numReplicas <= TurnsOf(q, k, p + 1)
  {
    forall q | 0 <= q < |entries| && entries[q].server in now' ensures now'[entries[q].server].numReplicas <= TurnsOf(q, k, p + 1) {
      if q != p {
        assert SameAllocation(entries[q].server, now, now');
      }
    }
  }

  /** The record of the turn just taken. */
  lemma NewRecord(sys: System, entries: seq<Entry>, st: Store, k: nat, p: nat, r: Rounds, t: Ticket)
    requires RoundOk(sys, entries, st, k, p, r) && TurnsOk(sys, entries, st, k, p, r) && p < |entries|
    requires Plays(sys, entries[p], k, r, t) && (k == 0 ==> FirstNow(sys, entries[p], r, t))
    ensures TurnOk(sys, entries, st, TakeOne(r, entries[p].server, t), k, p)
  {
    hide RoundOk, OneMoreOf, StoreOf, TakeOne, DistinctServers, LeftAt, Known, Kind, UnitsPerReplica, TurnOk;
    var e, s, r' := entries[p], entries[p].server, TakeOne(r, entries[p].server, t);
    var now, now' := StoreOf(st, r).allocations, StoreOf(st, r').allocations;
    TakenByPlayer(sys, entries, st, k, p, r, t);
    EntriesDistinct(sys, entries, st, k, p, r);
    forall kind ensures CountIn(r.available, kind) == LeftAt(sys, entries, st, now', k, p, kind) {
      PastLeft(sys, entries, st, now, now', k, p, k, p, kind);
    }
    PlayerHolds(sys, s, now, now', k);
    assert TakesIff(sys, entries, st, now', k, p);
    if k == 0 {
      var i :| 0 <= i < |e.candidates| && e.candidates[i] == t.finalAlloc && HasRoom(sys, r.available, s, e.candidates[i])
               && forall j :: 0 <= j < i ==> !HasRoom(sys, r.available, s, e.candidates[j]);
      forall a ensures HasRoom(sys, r.available, s, a) <==> FitsAt(sys, entries, st, now', 0, p, s, a) {
      }
      assert FirstAt(sys, entries, st, now', p, i);
    }
    RecordOf(sys, entries, st, r', k, p);
  }

  lemma PlayerHolds(sys: System, s: Name, now: map<Name, Allocation>, now': map<Name, Allocation>, k: nat)
    requires OneMoreOf(sys, s, now, now', k)
    ensures s in now' && Known(sys, s, now'[s]) && now'[s].numReplicas == k + 1
  {
  }

  lemma RecordOf(sys: System, entries: seq<Entry>, st: Store, r: Rounds, k: nat, p: nat)
    requires p < |entries| && entries[p].server in StoreOf(st, r).allocations
    requires TakesIff(sys, entries, st, StoreOf(st, r).allocations, k, p) && (k == 0 ==> ChoseFirst(sys, entries, st, r, p))
    ensures TurnOk(sys, entries, st, r, k, p)
  {
  }

  /** A turn at which the member leaves, or is not in the rounds any more. */
  lemma TurnLeaves(sys: System, entries: seq<Entry>, st: Store, k: nat, p: nat, r: Rounds, r': Rounds)
    requires RoundOk(sys, entries, st, k, p, r) && TurnsOk(sys, entries, st, k, p, r) && p < |entries|
    requires r'.available == r.available && r'.served == r.served
    requires entries[p].server in r.served ==>
               r.served[entries[p].server].numReplicas <= k
               && CountIn(r.available, r.served[entries[p].server].kind) < r.served[entries[p].server].units
    requires entries[p].server !in r.served ==>
               forall i :: 0 <= i < |entries[p].candidates| ==> NoRoom(sys, r.available, entries[p].server, entries[p].candidates[i])
    ensures TurnsOk(sys, entries, st, k, p + 1, r')
  {
    hide RoundOk, StoreOf, LeftAt, Kind, UnitsPerReplica, Known, TurnOk;
    var e, s, now := entries[p], entries[p].server, StoreOf(st, r).allocations;
    MemberHolds(sys, entries, st, k, p, r, p);
    if s in now {
      assert TakesIff(sys, entries, st, now, k, p);
      if k == 0 {
        assert false;
      }
      RecordOf(sys, entries, st, r, k, p);
    } else {
      if k == 0 {
        forall j | 0 <= j < |e.candidates| ensures !FitsAt(sys, entries, st, now, 0, p, s, e.candidates[j]) {
          assert NoRoom(sys, r.available, s, e.candidates[j]);
        }
      }
      NoRecord(sys, entries, st, r, k, p);
    }
    TurnPasses(sys, entries, st, k, p, r, r');
  }

  lemma NoRecord(sys: System, entries: seq<Entry>, st: Store, r: Rounds, k: nat, p: nat)
    requires p < |entries| && entries[p].server !in StoreOf(st, r).allocations
    requires k == 0 ==> NoneAt(sys, entries, st, StoreOf(st, r).allocations, p)
    ensures TurnOk(sys, entries, st, r, k, p)
  {
  }

  /** A visit is a turn. */
  lemma VisitInTurn(sys: System, entries: seq<Entry>, st: Store, k: nat, p: nat, r: Rounds)
    requires RoundOk(sys, entries, st, k, p, r) && TurnsOk(sys, entries, st, k, p, r) && p < |entries|
    ensures TurnsOk(sys, entries, st, k, p + 1, Visit(sys, entries[p], r))
  {
    hide Conserved, NoMore, FairPair, StoreOf, OnlyMembers, UnallocatedOk, WellFormed, TakeOne, AllFair, TurnsOk, Known, Kind, UnitsPerReplica,
         Leftover, FirstFit;
    var e, s := entries[p], entries[p].server;
    assert MemberOk(sys, st.available, e, k, false, r);
    if s !in r.tickets {
      ReplicasSoFar(sys, entries, st, k, p, r);
      TurnLeaves(sys, entries, st, k, p, r, r);
    } else {
      TurnFacts(sys, entries, st, k, p, r);
      RoomNow(sys, entries, st, k, p, r);
      var r' := r.(tickets := r.tickets - {s});
      if r.tickets[s].active {
        var t := r.tickets[s];
        if t.units <= CountIn(r.available, t.kind) {
          TurnTakes(sys, entries, st, k, p, r, t);
        } else {
          TurnLeaves(sys, entries, st, k, p, r, r');
        }
      } else {
        var i := FirstFit(sys, r.available, s, e.candidates);
        if i == |e.candidates| {
          forall j | 0 <= j < |e.candidates| ensures NoRoom(sys, r.available, s, e.candidates[j]) {
            CandidateFacts(sys, st, entries, p, e.candidates[j]);
          }
          TurnLeaves(sys, entries, st, k, p, r, r');
        } else {
          CandidateFacts(sys, st, entries, p, e.candidates[i]);
          var t := Activate(sys, r.available, e, r.tickets[s]);
          assert Backed(sys, e, t);
          AvailableNonNegative(sys, StoreOf(st, r), t.kind);
          StoreOfAvailable(st, r);
          AtLeastOne(CountIn(r.available, t.kind), t.units);
          TurnTakes(sys, entries, st, k, p, r, t);
        }
      }
    }
  }

  /** With a backed ticket, one more is allocatable exactly when its units are there. */
  lemma RoomNow(sys: System, entries: seq<Entry>, st: Store, k: nat, p: nat, r: Rounds)
    requires RoundOk(sys, entries, st, k, p, r) && p < |entries| && entries[p].server in r.tickets
    ensures var t := r.tickets[entries[p].server];
            t.active ==>
              && t.units != 0
              && (Min(CountIn(r.available, t.kind) / t.units, t.finalAlloc.numReplicas) > 0 <==> t.units <= CountIn(r.available, t.kind))
  {
    hide Conserved, NoMore, FairPair, StoreOf, OnlyMembers, UnallocatedOk, WellFormed, AllFair, NoRoom, MemberOk;
    TurnFacts(sys, entries, st, k, p, r);
    var t := r.tickets[entries[p].server];
    if t.active {
      AvailableNonNegative(sys, StoreOf(st, r), t.kind);
      StoreOfAvailable(st, r);
      AtLeastOne(CountIn(r.available, t.kind), t.units);
    }
  }

  lemma ReplicasSoFar(sys: System, entries: seq<Entry>, st: Store, k: nat, p: nat, r: Rounds)
    requires RoundOk(sys, entries, st, k, p, r) && TurnsOk(sys, entries, st, k, p, r) && p < |entries|
    ensures entries[p].server in r.served ==> r.served[entries[p].server].numReplicas <= k
  {
    hide RoundOk, StoreOf, LeftAt, TurnOk;
    MemberHolds(sys, entries, st, k, p, r, p);
  }

  /** The turns before the first. */
  lemma TurnsStart(sys: System, entries: seq<Entry>, st: Store, r: Rounds)
    requires RoundOk(sys, entries, st, 0, 0, r) && r.available == st.available && r.served == map[]
    ensures TurnsOk(sys, entries, st, 0, 0, r)
  {
    hide TurnOk, TakenIn;
    var now := StoreOf(st, r).allocations;
    assert now == st.allocations;
    forall q | 0 <= q < |entries| ensures entries[q].server !in now {
      NotAllocatedYet(sys, st, entries, q);
    }
    forall kind ensures TakenBefore(sys, entries, now, 0, 0, kind, |entries|) == 0 {
      NothingYet(sys, entries, now, kind, |entries|);
    }
  }

  lemma {:induction false} NothingYet(sys: System, entries: seq<Entry>, now: map<Name, Allocation>, kind: Name, n: nat)
    requires n <= |entries| && forall q :: 0 <= q < |entries| ==> entries[q].server !in now
    ensures TakenBefore(sys, entries, now, 0, 0, kind, n) == 0
  {
    if n > 0 {
      NothingYet(sys, entries, now, kind, n - 1);
    }
  }

  /** The end of a round is the start of the next. */
  lemma TurnsNext(sys: System, entries: seq<Entry>, st: Store, k: nat, r: Rounds)
    requires TurnsOk(sys, entries, st, k, |entries|, r)
    ensures TurnsOk(sys, entries, st, k + 1, 0, r)
  {
    hide TurnOk, TakenIn, StoreOf;
    var now := StoreOf(st, r).allocations;
    forall kind ensures LeftAt(sys, entries, st, now, k + 1, 0, kind) == LeftAt(sys, entries, st, now, k, |entries|, kind) {
      TakenDiffers(sys, entries, now, now, k, |entries|, k + 1, 0, kind, |entries|, |entries|, 0);
    }
    forall k', p' | 0 <= p' < |entries| && Past(k', p', k + 1, 0) ensures TurnOk(sys, entries, st, r, k', p') {
      assert Past(k', p', k, |entries|);
    }
  }

  /** When nobody is left in the rounds, the record is complete. */
  lemma TurnsEnd(sys: System, entries: seq<Entry>, st: Store, k: nat, r: Rounds)
    requires RoundOk(sys, entries, st, k, 0, r) && TurnsOk(sys, entries, st, k, 0, r) && r.tickets == map[]
    ensures RoundsInTurn(sys, entries, st, StoreOf(st, r).allocations)
  {
    hide RoundOk, StoreOf, LeftAt, Kind, UnitsPerReplica, Known, TakesIff, FirstAt, TurnsOk;
    var now := StoreOf(st, r).allocations;
    forall p | 0 <= p < |entries| ensures MemberInTurn(sys, entries, st, now, p) {
      MemberHolds(sys, entries, st, k, 0, r, p);
      if k > 0 {
        RecordAt(sys, entries, st, k, r, 0, p);
      } else {
        NobodyPlayed(sys, entries, st, r, p);
      }
      if entries[p].server in now {
        var i :| 0 <= i < |entries[p].candidates| && FirstAt(sys, entries, st, now, p, i)
                 && entries[p].candidates[i] == r.served[entries[p].server].finalAlloc;
        UnitsPositive(sys, entries[p], r.served[entries[p].server]);
        ScaledInFigures(entries[p].candidates[i], r.served[entries[p].server].numReplicas);
        forall kk: nat ensures TakesIff(sys, entries, st, now, kk, p) {
          if kk < k {
            RecordAt(sys, entries, st, k, r, kk, p);
          } else {
            AfterTheRounds(sys, entries, st, k, r, kk, p);
          }
        }
      }
    }
  }

  /** Without a first round nobody has anything, and nothing fits. */
  lemma NobodyPlayed(sys: System, entries: seq<Entry>, st: Store, r: Rounds, p: nat)
    requires RoundOk(sys, entries, st, 0, 0, r) && TurnsOk(sys, entries, st, 0, 0, r) && r.tickets == map[] && p < |entries|
    ensures entries[p].server !in StoreOf(st, r).allocations
    ensures NoneAt(sys, entries, st, StoreOf(st, r).allocations, p)
  {
    hide Conserved, WellFormed, FairPair, AllFair, NoMore, OnlyMembers, UnallocatedOk, StoreOf, TakenIn, Kind, UnitsPerReplica, Known, TurnOk;
    var now := StoreOf(st, r).allocations;
    forall q | 0 <= q < |entries| ensures entries[q].server !in now {
      MemberHolds(sys, entries, st, 0, 0, r, q);
    }
    assert MemberOk(sys, st.available, entries[p], 0, false, r);
    MemberHolds(sys, entries, st, 0, 0, r, p);
    forall kind ensures LeftAt(sys, entries, st, now, 0, p, kind) == CountIn(r.available, kind) {
      forall q | 0 <= q < |entries|
        ensures TakenIn(sys, entries[q].server, now, TurnsOf(q, 0, p), kind) == TakenIn(sys, entries[q].server, now, TurnsOf(q, 0, 0), kind)
      {
        EnoughTurns(sys, entries[q].server, now, TurnsOf(q, 0, 0), TurnsOf(q, 0, p), kind);
      }
      TakenDiffers(sys, entries, now, now, 0, 0, 0, p, kind, |entries|, |entries|, 0);
    }
    forall j | 0 <= j < |entries[p].candidates| ensures !FitsAt(sys, entries, st, now, 0, p, entries[p].server, entries[p].candidates[j]) {
      assert NoRoom(sys, r.available, entries[p].server, entries[p].candidates[j]);
    }
  }

  lemma RecordAt(sys: System, entries: seq<Entry>, st: Store, k: nat, r: Rounds, kk: nat, p: nat)
    requires TurnsOk(sys, entries, st, k, 0, r) && p < |entries| && kk < k
    ensures TurnOk(sys, entries, st, r, kk, p)
  {
    assert Past(kk, p, k, 0);
  }

  /** Turns after the last round: everything taken is taken, and there is no room. */
  lemma AfterTheRounds(sys: System, entries: seq<Entry>, st: Store, k: nat, r: Rounds, kk: nat, p: nat)
    requires RoundOk(sys, entries, st, k, 0, r) && TurnsOk(sys, entries, st, k, 0, r) && r.tickets == map[]
    requires p < |entries| && k <= kk && entries[p].server in StoreOf(st, r).allocations
    ensures TakesIff(sys, entries, st, StoreOf(st, r).allocations, kk, p)
  {
    hide Conserved, WellFormed, FairPair, AllFair, NoRoom, NoMore, OnlyMembers, UnallocatedOk, StoreOf, TakenIn, Kind, UnitsPerReplica, Known, TurnOk;
    var now := StoreOf(st, r).allocations;
    MemberHolds(sys, entries, st, k, 0, r, p);
    assert MemberOk(sys, st.available, entries[p], k, false, r);
    forall kind ensures LeftAt(sys, entries, st, now, kk, p, kind) == CountIn(r.available, kind) {
      forall q | 0 <= q < |entries|
        ensures TakenIn(sys, entries[q].server, now, TurnsOf(q, kk, p), kind) == TakenIn(sys, entries[q].server, now, TurnsOf(q, k, 0), kind)
      {
        EnoughTurns(sys, entries[q].server, now, TurnsOf(q, k, 0), TurnsOf(q, kk, p), kind);
      }
      TakenDiffers(sys, entries, now, now, k, 0, kk, p, kind, |entries|, |entries|, 0);
    }
  }
}
