/** The queue at the start: one entry per server, its candidates cheapest first. */
module GreedyEntries {
  import opened Basics
  import opened GreedyModel
  import opened GreedyAllocate

  function DeltaOf(candidates: seq<Allocation>): real {
    if |candidates| > 1 then candidates[1].value - candidates[0].value else MAX_FLOAT32
  }

  function NewEntry(s: Name, priority: int, candidates: seq<Allocation>): Entry {
    Entry(s, priority, 0, candidates, DeltaOf(candidates))
  }

  ghost predicate ByValue(candidates: seq<Allocation>) {
    forall i, j :: 0 <= i < j < |candidates| ==> candidates[i].value <= candidates[j].value
  }

  /** The entry of a server at the start: all its candidates, cheapest first. */
  ghost predicate FreshEntry(sys: System, e: Entry) {
    && e.server in sys.servers
    && e == NewEntry(e.server, sys.servers[e.server].priority, e.candidates)
    && e.candidates != []
    && ByValue(e.candidates)
    && forall a :: a in e.candidates <==> a in sys.servers[e.server].candidates.Values
  }

  /** One fresh entry for every server with candidates, and no other. */
  ghost predicate FreshEntries(sys: System, entries: seq<Entry>) {
    && DistinctServers(entries)
    && (forall i :: 0 <= i < |entries| ==> FreshEntry(sys, entries[i]))
    && (forall s :: s in sys.servers && sys.servers[s].candidates != map[] ==> HasEntry(entries, s))
  }

  lemma EmptySorted()
    ensures Sorted([])
  {
  }

  /** Inserting the entry of a new server. */
  lemma InsertedEntry(entries: seq<Entry>, i: nat, e: Entry)
    requires i <= |entries| && DistinctServers(entries)
    requires forall j :: 0 <= j < |entries| ==> entries[j].server != e.server
    ensures DistinctServers(InsertAt(entries, i, e))
    ensures forall j :: 0 <= j < |InsertAt(entries, i, e)| ==>
              InsertAt(entries, i, e)[j] == e || InsertAt(entries, i, e)[j] in entries
    ensures forall s :: HasEntry(entries, s) || s == e.server ==> HasEntry(InsertAt(entries, i, e), s)
  {
    var r := InsertAt(entries, i, e);
    forall j | 0 <= j < |r| ensures r[j] == if j < i then entries[j] else if j == i then e else entries[j - 1] {
    }
    forall s | HasEntry(entries, s) || s == e.server ensures HasEntry(r, s) {
      if s == e.server {
        assert r[i].server == s;
      } else {
        var j :| 0 <= j < |entries| && entries[j].server == s;
        assert r[if j < i then j else j + 1] == entries[j];
      }
    }
  }

  /** A fresh queue on full capacity satisfies the invariant of the run. */
  lemma FreshRunOk(sys: System, entries: seq<Entry>)
    requires WellFormed(sys) && FreshEntries(sys, entries)
    ensures AllLive(entries)
    ensures RunOk(sys, Config(entries, Store(sys.capacity, map[]), []))
    ensures forall i :: 0 <= i < |entries| ==> DeltaOk(entries[i])
  {
    hide Conserved, WellFormed;
    var st := Store(sys.capacity, map[]);
    InitiallyConserved(sys);
    assert entries + [] == entries;
    forall i | 0 <= i < |entries| ensures QueuedOk(sys, st, entries[i]) && entries[i].Live() && DeltaOk(entries[i]) {
      assert FreshEntry(sys, entries[i]);
      FreshIsOk(sys, entries[i]);
    }
  }

  lemma FreshIsOk(sys: System, e: Entry)
    requires FreshEntry(sys, e)
    ensures EntryOk(sys, e)
  {
    forall i | 0 <= i < |e.candidates| ensures e.candidates[i] in sys.servers[e.server].candidates.Values {
      assert e.candidates[i] in e.candidates;
    }
  }

  lemma NoDuplicates()
    ensures DistinctServers([])
  {
  }

  lemma InsertByValue(sorted: seq<Allocation>, i: nat, a: Allocation)
    requires ByValue(sorted) && i <= |sorted|
    requires i > 0 ==> sorted[i - 1].value <= a.value
    requires forall j :: i <= j < |sorted| ==> a.value < sorted[j].value
    ensures ByValue(sorted[..i] + [a] + sorted[i..])
  {
  }

  lemma NewEntryFresh(sys: System, s: Name, candidates: seq<Allocation>)
    requires s in sys.servers && sys.servers[s].candidates != map[]
    requires ByValue(candidates) && |candidates| == |sys.servers[s].candidates|
    requires forall a :: a in candidates <==> a in sys.servers[s].candidates.Values
    ensures FreshEntry(sys, NewEntry(s, sys.servers[s].priority, candidates))
  {
    var g :| g in sys.servers[s].candidates;
    assert sys.servers[s].candidates[g] in candidates;
  }
}
