/**
 What every run of the import cache keeps: the tree of fork servers, the accounting of children
 and hits, and that each provisioned process holds what importing the request would give.
 */
module ImportCacheProofs {
  import opened Collections
  import opened SubsetMatcher
  import opened ImportCache

  // ----- counting children and their hits

  predicate IsChild(table: seq<ForkServer>, k: Fid, e: Fid) {
    k < |table| && table[k].parent == Some(e)
  }

  /** How many of the servers `ids` have `e` as parent. */
  function Kids(table: seq<ForkServer>, ids: seq<Fid>, e: Fid): nat {
    if ids == [] then 0 else (if IsChild(table, ids[0], e) then 1 else 0) + Kids(table, ids[1..], e)
  }

  /** The summed hits of those children. */
  function KidHits(table: seq<ForkServer>, ids: seq<Fid>, e: Fid): nat {
    if ids == [] then 0
    else (if IsChild(table, ids[0], e) then table[ids[0]].hits else 0) + KidHits(table, ids[1..], e)
  }

  /** Two tables in which the servers `ids` have the same parents. */
  predicate SameParents(t: seq<ForkServer>, t': seq<ForkServer>, ids: seq<Fid>) {
    forall k :: k in ids ==> k < |t| && k < |t'| && t[k].parent == t'[k].parent
  }

  lemma {:induction false} KidsFrame(t: seq<ForkServer>, t': seq<ForkServer>, ids: seq<Fid>, e: Fid)
    requires SameParents(t, t', ids)
    ensures Kids(t, ids, e) == Kids(t', ids, e)
  {
    if ids != [] {
      assert ids[0] in ids;
      assert forall k :: k in ids[1..] ==> k in ids;
      KidsFrame(t, t', ids[1..], e);
    }
  }

  lemma {:induction false} KidHitsFrame(t: seq<ForkServer>, t': seq<ForkServer>, ids: seq<Fid>, e: Fid)
    requires SameParents(t, t', ids)
    requires forall k :: k in ids ==> t[k].hits == t'[k].hits
    ensures KidHits(t, ids, e) == KidHits(t', ids, e)
  {
    if ids != [] {
      assert ids[0] in ids;
      assert forall k :: k in ids[1..] ==> k in ids;
      KidHitsFrame(t, t', ids[1..], e);
    }
  }

  lemma {:induction false} KidsBack(table: seq<ForkServer>, ids: seq<Fid>, k: Fid, e: Fid)
    ensures Kids(table, ids + [k], e) == Kids(table, ids, e) + (if IsChild(table, k, e) then 1 else 0)
    ensures KidHits(table, ids + [k], e)
         == KidHits(table, ids, e) + (if IsChild(table, k, e) then table[k].hits else 0)
  {
    if ids == [] {
      assert ids + [k] == [k] && [k][1..] == [];
    } else {
      assert (ids + [k])[1..] == ids[1..] + [k];
      KidsBack(table, ids[1..], k, e);
    }
  }

  lemma {:induction false} KidsWithout(table: seq<ForkServer>, ids: seq<Fid>, k: Fid, e: Fid)
    requires k in ids
    ensures Kids(table, Without(ids, k), e) == Kids(table, ids, e) - (if IsChild(table, k, e) then 1 else 0)
    ensures KidHits(table, Without(ids, k), e) <= KidHits(table, ids, e)
  {
    if ids[0] != k {
      assert k in ids[1..];
      KidsWithout(table, ids[1..], k, e);
      var w := Without(ids[1..], k);
      assert ([ids[0]] + w)[1..] == w;
    }
  }

  lemma {:induction false} KidsPositive(table: seq<ForkServer>, ids: seq<Fid>, k: Fid, e: Fid)
    requires k in ids && IsChild(table, k, e)
    ensures Kids(table, ids, e) > 0
  {
    if ids[0] != k {
      assert k in ids[1..];
      KidsPositive(table, ids[1..], k, e);
    }
  }

  lemma {:induction false} NoKids(table: seq<ForkServer>, ids: seq<Fid>, e: Fid)
    requires forall k :: k in ids ==> !IsChild(table, k, e)
    ensures Kids(table, ids, e) == 0 && KidHits(table, ids, e) == 0
  {
    if ids != [] {
      assert ids[0] in ids;
      assert forall k :: k in ids[1..] ==> k in ids;
      NoKids(table, ids[1..], e);
    }
  }

  // ----- the chain of ancestors that a hit walks

  predicate InChain(table: seq<ForkServer>, k: Fid, e: Fid)
    requires Tree(table) && e < |table|
    decreases e
  {
    k == e || (table[e].parent.Some? && InChain(table, k, table[e].parent.value))
  }

  lemma {:induction false} ChainFrame(t: seq<ForkServer>, t': seq<ForkServer>, k: Fid, e: Fid)
    requires Tree(t) && Tree(t') && |t| == |t'| && e < |t|
    requires forall i :: 0 <= i < |t| ==> t[i].parent == t'[i].parent
    ensures InChain(t, k, e) == InChain(t', k, e)
    decreases e
  {
    if t[e].parent.Some? {
      ChainFrame(t, t', k, t[e].parent.value);
    }
  }

  lemma {:induction false} ChainIsOlder(table: seq<ForkServer>, k: Fid, e: Fid)
    requires Tree(table) && e < |table| && InChain(table, k, e)
    ensures k <= e
    decreases e
  {
    if k != e {
      ChainIsOlder(table, k, table[e].parent.value);
    }
  }

  lemma {:induction false} ChainHoldsParent(table: seq<ForkServer>, k: Fid, e: Fid)
    requires Tree(table) && e < |table| && k < |table| && InChain(table, k, e) && table[k].parent.Some?
    ensures InChain(table, table[k].parent.value, e)
    decreases e
  {
    if k != e {
      ChainHoldsParent(table, k, table[e].parent.value);
    } else {
      assert InChain(table, table[k].parent.value, table[e].parent.value);
    }
  }

  /** A chain holds at most one child of each server. */
  lemma {:induction false} OneChildInChain(table: seq<ForkServer>, k1: Fid, k2: Fid, p: Fid, e: Fid)
    requires Tree(table) && e < |table|
    requires InChain(table, k1, e) && InChain(table, k2, e)
    requires IsChild(table, k1, p) && IsChild(table, k2, p)
    ensures k1 == k2
    decreases e
  {
    if k1 == e && k2 != e {
      ChainIsOlder(table, k2, table[e].parent.value);
    } else if k2 == e && k1 != e {
      ChainIsOlder(table, k1, table[e].parent.value);
    } else if k1 != e {
      OneChildInChain(table, k1, k2, p, table[e].parent.value);
    }
  }

  /** Hit adds one hit to the server and to each of its ancestors, and changes nothing else. */
  lemma {:induction false} HitEffect(table: seq<ForkServer>, e: Fid, k: Fid)
    requires Tree(table) && e < |table| && k < |table|
    ensures HitFrom(table, e)[k] == if InChain(table, k, e) then AddHit(table[k]) else table[k]
    decreases e
  {
    var t := table[e := AddHit(table[e])];
    assert Tree(t);
    if table[e].parent.Some? {
      var p := table[e].parent.value;
      HitEffect(t, p, k);
      ChainFrame(table, t, k, p);
      if k == e && InChain(table, e, p) {
        ChainIsOlder(table, e, p);
      }
    }
  }

  /** The children of `p` gain at most the hit that `p` gains. */
  lemma {:induction false} KidHitsAfterHit(table: seq<ForkServer>, ids: seq<Fid>, p: Fid, e: Fid)
    requires Tree(table) && e < |table| && p < |table| && Distinct(ids)
    requires forall k :: k in ids ==> k < |table|
    ensures
      var t := HitFrom(table, e);
      && KidHits(t, ids, p) <= KidHits(table, ids, p) + (if InChain(table, p, e) then 1 else 0)
      && ((forall k :: k in ids ==> !(IsChild(table, k, p) && InChain(table, k, e))) ==>
            KidHits(t, ids, p) == KidHits(table, ids, p))
  {
    if ids != [] {
      var k := ids[0];
      assert k in ids;
      assert forall x :: x in ids[1..] ==> x in ids;
      KidHitsAfterHit(table, ids[1..], p, e);
      HitEffect(table, e, k);
      if IsChild(table, k, p) && InChain(table, k, e) {
        ChainHoldsParent(table, k, e);
        forall x | x in ids[1..] ensures !(IsChild(table, x, p) && InChain(table, x, e)) {
          if IsChild(table, x, p) && InChain(table, x, e) {
            OneChildInChain(table, k, x, p, e);
          }
        }
      }
    }
  }

  // ----- the invariant

  predicate EntryOk(c: Cache, e: Fid)
    requires e < |c.table|
  {
    var s := c.table[e];
    && s.loaded == s.imports * c.importable
    && (e == 0 ==> s.parent == None && s.imports == {})
    && (e != 0 ==> s.parent.Some? && s.parent.value < e && c.table[s.parent.value].imports < s.imports)
  }

  ghost predicate TableOk(c: Cache) {
    c.table != [] && forall e {:trigger c.table[e]} :: 0 <= e < |c.table| ==> EntryOk(c, e)
  }

  ghost predicate ServersOk(c: Cache) {
    && c.servers != [] && c.servers[0] == 0 && Distinct(c.servers)
    && (forall e :: e in c.servers ==> e < |c.table| && !c.table[e].dead)
    && (forall e :: e in c.servers && c.table[e].parent.Some? ==> c.table[e].parent.value in c.servers)
  }

  ghost predicate UniqueOk(c: Cache)
    requires ServersOk(c)
  {
    forall e, f :: e in c.servers && f in c.servers && e != f ==> c.table[e].imports != c.table[f].imports
  }

  ghost predicate KillsOk(c: Cache) {
    && Distinct(c.kills)
    && (forall e :: e in c.kills ==>
          && 0 < e < |c.table| && e !in c.servers && !c.table[e].dead
          && c.table[e].parent.Some? && c.table[e].parent.value in c.servers)
  }

  ghost predicate ChildrenOk(c: Cache) {
    forall e {:trigger c.table[e]} :: 0 <= e < |c.table| ==>
      c.table[e].children == Kids(c.table, c.servers, e) + Kids(c.table, c.kills, e) + c.table[e].failed
  }

  /** Only a request without duplicates can count on the matcher. */
  predicate FlightOk(c: Cache, f: Flight) {
    && f.server in c.servers && f.server < |c.table|
    && (Distinct(f.request) ==> c.table[f.server].imports + Elements(f.toCache) == Elements(f.request))
  }

  ghost predicate FlightsOk(c: Cache) {
    && (forall i :: 0 <= i < |c.flights| ==> FlightOk(c, c.flights[i]))
    && (forall i, j :: 0 <= i < j < |c.flights| ==> c.flights[i].server != c.flights[j].server)
  }

  ghost predicate EvictingOk(c: Cache) {
    c.evicting.Some? ==>
      var v := c.evicting.value;
      v in c.servers && 0 < v < |c.table| && c.table[v].children == 0 && c.table[v].size != 0.0
  }

  ghost predicate HitsOk(c: Cache) {
    && c.table != [] && c.table[0].hits == c.totalHits
    && forall e {:trigger c.table[e]} :: 0 <= e < |c.table| ==> KidHits(c.table, c.servers, e) <= c.table[e].hits
  }

  predicate ProcessOk(c: Cache, p: Process) {
    Distinct(p.request) ==> p.modules == FromScratch(p.request, c.importable)
  }

  ghost predicate ProcessesOk(c: Cache) {
    forall p :: p in c.processes ==> ProcessOk(c, p)
  }

  ghost predicate Inv(c: Cache) {
    && TableOk(c) && ServersOk(c) && UniqueOk(c) && KillsOk(c) && ChildrenOk(c) && FlightsOk(c)
    && EvictingOk(c) && HitsOk(c) && ProcessesOk(c)
  }

  lemma InvShaped(c: Cache)
    requires TableOk(c) && ServersOk(c) && KillsOk(c) && FlightsOk(c) && EvictingOk(c)
    ensures Shaped(c)
  {
    assert forall e :: 0 <= e < |c.table| ==> EntryOk(c, e);
    forall i | 0 <= i < |c.flights| ensures c.flights[i].server < |c.table| {
      assert FlightOk(c, c.flights[i]);
    }
  }

  lemma {:induction false} InvInitial(importable: set<Module>)
    ensures Inv(Initial(importable))
  {
    var c := Initial(importable);
    forall k | k in c.servers ensures !IsChild(c.table, k, 0) {}
    NoKids(c.table, c.servers, 0);
  }

  // ----- frames

  /** What never changes of an entry once it exists. */
  predicate SameEntry(s: ForkServer, t: ForkServer) {
    s.imports == t.imports && s.loaded == t.loaded && s.parent == t.parent && s.size == t.size
  }

  ghost predicate SameEntries(c: Cache, d: Cache) {
    && |c.table| == |d.table| && c.importable == d.importable
    && forall e {:trigger d.table[e]} {:trigger c.table[e]} :: 0 <= e < |c.table| ==> SameEntry(c.table[e], d.table[e])
  }

  lemma TableFrame(c: Cache, d: Cache)
    requires TableOk(c) && SameEntries(c, d)
    ensures TableOk(d)
  {
    forall e | 0 <= e < |d.table| ensures EntryOk(d, e) {
      assert EntryOk(c, e);
    }
  }

  lemma ListsFrame(c: Cache, d: Cache)
    requires ServersOk(c) && UniqueOk(c) && KillsOk(c) && SameEntries(c, d)
    requires d.servers == c.servers && d.kills == c.kills
    requires forall e {:trigger d.table[e]} :: 0 <= e < |d.table| ==> d.table[e].dead == c.table[e].dead
    ensures ServersOk(d) && UniqueOk(d) && KillsOk(d)
  {
    assert forall e :: e in c.servers || e in c.kills ==> SameEntry(c.table[e], d.table[e]);
  }

  lemma FlightsFrame(c: Cache, d: Cache)
    requires FlightsOk(c) && d.flights == c.flights
    requires forall e :: e in c.servers ==> e in d.servers && e < |d.table|
    requires forall e {:trigger d.table[e]} :: 0 <= e < |c.table| && e < |d.table| ==> d.table[e].imports == c.table[e].imports
    ensures FlightsOk(d)
  {
    forall i | 0 <= i < |d.flights| ensures FlightOk(d, d.flights[i]) {
      assert FlightOk(c, c.flights[i]);
    }
  }

  lemma ChildrenFrame(c: Cache, d: Cache)
    requires TableOk(c) && ServersOk(c) && KillsOk(c) && ChildrenOk(c) && SameEntries(c, d)
    requires d.servers == c.servers && d.kills == c.kills
    requires forall e {:trigger d.table[e]} :: 0 <= e < |d.table| ==>
               d.table[e].children - d.table[e].failed == c.table[e].children - c.table[e].failed
    ensures ChildrenOk(d)
  {
    forall e | 0 <= e < |d.table|
      ensures d.table[e].children == Kids(d.table, d.servers, e) + Kids(d.table, d.kills, e) + d.table[e].failed
    {
      KidsFrame(c.table, d.table, c.servers, e);
      KidsFrame(c.table, d.table, c.kills, e);
    }
  }

  lemma HitsFrame(c: Cache, d: Cache)
    requires ServersOk(c) && HitsOk(c) && SameEntries(c, d) && d.servers == c.servers && d.totalHits == c.totalHits
    requires forall e {:trigger d.table[e]} :: 0 <= e < |d.table| ==> d.table[e].hits == c.table[e].hits
    ensures HitsOk(d)
  {
    forall e | 0 <= e < |d.table| ensures KidHits(d.table, d.servers, e) <= d.table[e].hits {
      KidHitsFrame(c.table, d.table, c.servers, e);
    }
  }

  // ----- Begin

  lemma RootIsEmpty(c: Cache)
    requires TableOk(c) && ServersOk(c) && Shaped(c)
    ensures ImportsOf(c)[0] == {}
  {
    assert EntryOk(c, 0);
  }

  lemma ChosenCovers(c: Cache, request: seq<Module>)
    requires TableOk(c) && ServersOk(c) && Shaped(c) && Distinct(request)
    ensures
      var base := Chosen(c, request);
      var toCache := ToCache(ImportsOf(c), request);
      && base in c.servers
      && c.table[base].imports + Elements(toCache) == Elements(request)
      && c.table[base].imports !! Elements(toCache)
  {
    RootIsEmpty(c);
    BestCovers(ImportsOf(c), request);
  }

  /** When something remains to be imported, the new entry has more imports than the chosen server, and
      other imports than every listed one. */
  lemma EntryIsNew(c: Cache, request: seq<Module>, e: Fid)
    requires TableOk(c) && ServersOk(c) && Shaped(c) && e in c.servers
    requires ToCache(ImportsOf(c), request) != []
    ensures
      var base := c.table[Chosen(c, request)];
      var imports := base.imports + Elements(ToCache(ImportsOf(c), request));
      base.imports < imports && c.table[e].imports != imports
  {
    RootIsEmpty(c);
    var i :| 0 <= i < |c.servers| && c.servers[i] == e;
    BestIsNew(ImportsOf(c), request, i);
  }

  lemma AddFlight(c: Cache, f: Flight)
    requires Inv(c) && FlightOk(c, f) && !Locked(c, f.server)
    ensures Inv(c.(flights := c.flights + [f]))
  {
    var d := c.(flights := c.flights + [f]);
    forall i | 0 <= i < |d.flights| ensures FlightOk(d, d.flights[i]) {
      if i < |c.flights| { assert FlightOk(c, c.flights[i]); }
    }
    TableFrame(c, d);
  }

  lemma BeginReuse(c: Cache, request: seq<Module>)
    requires Inv(c) && Shaped(c) && !Locked(c, Chosen(c, request))
    ensures
      Inv(c.(flights := c.flights + [Flight(Chosen(c, request), ToCache(ImportsOf(c), request), request)]))
  {
    if Distinct(request) {
      ChosenCovers(c, request);
    }
    AddFlight(c, Flight(Chosen(c, request), ToCache(ImportsOf(c), request), request));
  }

  function CreationFailed(c: Cache, b: Fid): Cache
    requires b < |c.table|
  {
    c.(table := c.table[b := c.table[b].(children := c.table[b].children + 1, failed := c.table[b].failed + 1)])
  }

  /** A failed creation counts for good as a child of its base. */
  lemma BeginFails(c: Cache, b: Fid)
    requires Inv(c) && b < |c.table| && c.evicting.None?
    ensures Inv(CreationFailed(c, b))
  {
    var d := CreationFailed(c, b);
    assert SameEntries(c, d);
    TableFrame(c, d);
    ListsFrame(c, d);
    FlightsFrame(c, d);
    ChildrenFrame(c, d);
    HitsFrame(c, d);
  }

  /** What BeginStep does to the table and the list when it adds an entry. */
  ghost predicate Created(c: Cache, d: Cache, base: Fid) {
    var n := |c.table|;
    && base < n && |d.table| == n + 1
    && (forall e {:trigger d.table[e]} :: 0 <= e < n && e != base ==> d.table[e] == c.table[e])
    && d.table[base] == c.table[base].(children := c.table[base].children + 1)
    && d.table[n].parent == Some(base) && d.table[n].hits == 0 && d.table[n].children == 0 && d.table[n].failed == 0
    && !d.table[n].dead
    && d.servers == c.servers + [n] && d.kills == c.kills && d.totalHits == c.totalHits
    && d.importable == c.importable
  }

  lemma CreateTable(c: Cache, d: Cache, base: Fid)
    requires TableOk(c) && Created(c, d, base)
    requires c.table[base].imports < d.table[|c.table|].imports
    requires d.table[|c.table|].loaded == d.table[|c.table|].imports * c.importable
    ensures TableOk(d)
  {
    forall e | 0 <= e < |d.table| ensures EntryOk(d, e) {
      if e < |c.table| { assert EntryOk(c, e); }
    }
  }

  lemma CreateLists(c: Cache, d: Cache, base: Fid)
    requires TableOk(c) && ServersOk(c) && UniqueOk(c) && KillsOk(c) && Created(c, d, base) && base in c.servers
    requires forall e :: e in c.servers ==> c.table[e].imports != d.table[|c.table|].imports
    ensures ServersOk(d) && UniqueOk(d) && KillsOk(d)
  {
    var n := |c.table|;
    assert forall e :: e in d.servers <==> e in c.servers || e == n;
    assert n !in c.servers && n !in c.kills;
    assert d.servers[0] == 0;
    assert forall e :: e in c.servers || e in c.kills ==> SameEntry(c.table[e], d.table[e]) && d.table[e].dead == c.table[e].dead;
  }

  lemma CreateChildren(c: Cache, d: Cache, base: Fid)
    requires TableOk(c) && ServersOk(c) && KillsOk(c) && ChildrenOk(c) && Created(c, d, base)
    ensures ChildrenOk(d)
  {
    var n := |c.table|;
    forall e | 0 <= e < |d.table|
      ensures d.table[e].children == Kids(d.table, d.servers, e) + Kids(d.table, d.kills, e) + d.table[e].failed
    {
      KidsBack(d.table, c.servers, n, e);
      KidsFrame(c.table, d.table, c.servers, e);
      KidsFrame(c.table, d.table, c.kills, e);
      if e == n {
        forall k | k in c.servers || k in c.kills ensures !IsChild(d.table, k, n) {
          assert EntryOk(c, k);
        }
        NoKids(d.table, c.servers, n);
        NoKids(d.table, c.kills, n);
      }
    }
  }

  lemma CreateHits(c: Cache, d: Cache, base: Fid)
    requires TableOk(c) && ServersOk(c) && HitsOk(c) && Created(c, d, base)
    ensures HitsOk(d)
  {
    var n := |c.table|;
    forall e | 0 <= e < |d.table| ensures KidHits(d.table, d.servers, e) <= d.table[e].hits {
      KidsBack(d.table, c.servers, n, e);
      KidHitsFrame(c.table, d.table, c.servers, e);
      if e == n {
        forall k | k in c.servers ensures !IsChild(d.table, k, n) {
          assert EntryOk(c, k);
        }
        NoKids(d.table, c.servers, n);
      }
    }
  }

  lemma CreateFlights(c: Cache, d: Cache, base: Fid, request: seq<Module>)
    requires FlightsOk(c) && ServersOk(c) && Created(c, d, base)
    requires Distinct(request) ==> d.table[|c.table|].imports == Elements(request)
    requires d.flights == c.flights + [Flight(|c.table|, [], request)]
    ensures FlightsOk(d)
  {
    assert |c.table| in d.servers;
    forall i | 0 <= i < |d.flights| ensures FlightOk(d, d.flights[i]) {
      if i < |c.flights| {
        assert FlightOk(c, c.flights[i]);
      } else {
        assert Elements<Module>([]) == {};
      }
    }
    forall i, j | 0 <= i < j < |d.flights| ensures d.flights[i].server != d.flights[j].server {
      assert FlightOk(c, c.flights[i]);
    }
  }

  lemma CreateIsCreated(c: Cache, request: seq<Module>, size: Size)
    requires TableOk(c) && ServersOk(c) && Shaped(c)
    requires ToCache(ImportsOf(c), request) != [] && !c.full
    ensures
      var d := BeginStep(c, request, true, size);
      var base := Chosen(c, request);
      && Created(c, d, base) && base in c.servers
      && d.table[|c.table|].imports == c.table[base].imports + Elements(ToCache(ImportsOf(c), request))
      && d.table[|c.table|].loaded == d.table[|c.table|].imports * c.importable
      && d.flights == c.flights + [Flight(|c.table|, [], request)]
      && d.evicting == c.evicting && d.processes == c.processes
  {
    var base := Chosen(c, request);
    var toCache := ToCache(ImportsOf(c), request);
    assert EntryOk(c, base);
    var entry := NewEntry(c, base, toCache, size);
    assert entry.loaded == entry.imports * c.importable;
  }

  lemma BeginCreate(c: Cache, request: seq<Module>, size: Size)
    requires Inv(c) && Shaped(c) && c.evicting.None?
    requires ToCache(ImportsOf(c), request) != [] && !c.full
    ensures Inv(BeginStep(c, request, true, size))
  {
    var d := BeginStep(c, request, true, size);
    var base := Chosen(c, request);
    CreateIsCreated(c, request, size);
    forall e | e in c.servers ensures c.table[e].imports != d.table[|c.table|].imports {
      EntryIsNew(c, request, e);
    }
    EntryIsNew(c, request, base);
    CreateTable(c, d, base);
    CreateLists(c, d, base);
    CreateChildren(c, d, base);
    CreateHits(c, d, base);
    if Distinct(request) {
      ChosenCovers(c, request);
    }
    CreateFlights(c, d, base, request);
  }

  lemma FailedBegin(c: Cache, request: seq<Module>, size: Size)
    requires Shaped(c) && ToCache(ImportsOf(c), request) != [] && !c.full
    ensures BeginStep(c, request, false, size) == CreationFailed(c, Chosen(c, request))
  {
  }

  lemma ReusingBegin(c: Cache, request: seq<Module>, createOk: bool, size: Size)
    requires Shaped(c) && (ToCache(ImportsOf(c), request) == [] || c.full)
    ensures
      BeginStep(c, request, createOk, size)
      == c.(flights := c.flights + [Flight(Chosen(c, request), ToCache(ImportsOf(c), request), request)])
  {
  }

  lemma InvBegin(c: Cache, request: seq<Module>, createOk: bool, size: Size)
    requires Inv(c) && Shaped(c) && c.evicting.None? && !Locked(c, Chosen(c, request))
    ensures Inv(BeginStep(c, request, createOk, size))
  {
    if ToCache(ImportsOf(c), request) == [] || c.full {
      ReusingBegin(c, request, createOk, size);
      BeginReuse(c, request);
    } else if createOk {
      BeginCreate(c, request, size);
    } else {
      FailedBegin(c, request, size);
      BeginFails(c, Chosen(c, request));
    }
  }

  // ----- Fork

  lemma {:induction false} RootInChain(c: Cache, e: Fid)
    requires TableOk(c) && Tree(c.table) && e < |c.table|
    ensures InChain(c.table, 0, e)
    decreases e
  {
    assert EntryOk(c, e);
    if e != 0 {
      RootInChain(c, c.table[e].parent.value);
    }
  }

  lemma HitTable(table: seq<ForkServer>, e: Fid)
    requires Tree(table) && e < |table|
    ensures forall k: Fid :: k < |table| ==>
              HitFrom(table, e)[k] == if InChain(table, k, e) then AddHit(table[k]) else table[k]
  {
    forall k: Fid | k < |table|
      ensures HitFrom(table, e)[k] == if InChain(table, k, e) then AddHit(table[k]) else table[k]
    {
      HitEffect(table, e, k);
    }
  }

  lemma HitHits(c: Cache, e: Fid)
    requires TableOk(c) && ServersOk(c) && HitsOk(c) && Tree(c.table) && e < |c.table|
    ensures HitsOk(c.(table := HitFrom(c.table, e), totalHits := c.totalHits + 1))
  {
    var d := c.(table := HitFrom(c.table, e), totalHits := c.totalHits + 1);
    HitTable(c.table, e);
    RootInChain(c, e);
    forall k | 0 <= k < |d.table| ensures KidHits(d.table, d.servers, k) <= d.table[k].hits {
      KidHitsAfterHit(c.table, c.servers, k, e);
    }
  }

  lemma HitSame(c: Cache, d: Cache, e: Fid)
    requires Tree(c.table) && e < |c.table|
    requires d == c.(table := HitFrom(c.table, e), totalHits := c.totalHits + 1)
    ensures SameEntries(c, d)
    ensures forall k {:trigger d.table[k]} :: 0 <= k < |d.table| ==>
              && d.table[k].children == c.table[k].children && d.table[k].failed == c.table[k].failed
              && d.table[k].dead == c.table[k].dead
  {
    HitTable(c.table, e);
  }

  lemma InvHit(c: Cache, e: Fid)
    requires Inv(c) && Tree(c.table) && e < |c.table|
    ensures Inv(c.(table := HitFrom(c.table, e), totalHits := c.totalHits + 1))
  {
    var d := c.(table := HitFrom(c.table, e), totalHits := c.totalHits + 1);
    HitSame(c, d, e);
    HitHits(c, e);
    TableFrame(c, d);
    ListsFrame(c, d);
    FlightsFrame(c, d);
    ChildrenFrame(c, d);
  }

  /** The forked process holds what importing the whole request would give. */
  lemma ForkedHoldsRequest(c: Cache, i: nat)
    requires TableOk(c) && FlightsOk(c) && i < |c.flights| && Distinct(c.flights[i].request)
    ensures
      var f := c.flights[i];
      && f.server < |c.table|
      && LoadedAfter(c.table[f.server].loaded, f.toCache, c.importable) == FromScratch(f.request, c.importable)
  {
    var f := c.flights[i];
    assert FlightOk(c, f);
    assert EntryOk(c, f.server);
  }

  /** A flight lands, and perhaps leaves a process behind. */
  lemma InvLand(c: Cache, i: nat, ps: seq<Process>)
    requires Inv(c) && i < |c.flights|
    requires forall p :: p in ps ==> p in c.processes || ProcessOk(c, p)
    ensures Inv(c.(flights := c.flights[..i] + c.flights[i + 1..], processes := ps))
  {
    var d := c.(flights := c.flights[..i] + c.flights[i + 1..], processes := ps);
    TableFrame(c, d);
    forall j | 0 <= j < |d.flights| ensures FlightOk(d, d.flights[j]) {
      assert FlightOk(c, c.flights[if j < i then j else j + 1]);
    }
  }

  lemma ForkIsHitAndLanding(c: Cache, i: nat, forkOk: bool)
    requires Shaped(c) && i < |c.flights|
    ensures
      var b := c.(table := HitFrom(c.table, c.flights[i].server), totalHits := c.totalHits + 1);
      var d := ForkStep(c, i, forkOk);
      d == b.(flights := b.flights[..i] + b.flights[i + 1..], processes := d.processes)
  {
  }

  lemma InvFork(c: Cache, i: nat, forkOk: bool)
    requires Inv(c) && Shaped(c) && i < |c.flights|
    ensures Inv(ForkStep(c, i, forkOk))
  {
    if Distinct(c.flights[i].request) {
      ForkedHoldsRequest(c, i);
    }
    InvHit(c, c.flights[i].server);
    ForkIsHitAndLanding(c, i, forkOk);
    InvLand(c.(table := HitFrom(c.table, c.flights[i].server), totalHits := c.totalHits + 1), i,
            ForkStep(c, i, forkOk).processes);
  }

  // ----- which servers are locked

  lemma FlightsWithout(flights: seq<Flight>, i: nat, f: Fid)
    requires i < |flights| && forall j, k :: 0 <= j < k < |flights| ==> flights[j].server != flights[k].server
    ensures
      var rest := flights[..i] + flights[i + 1..];
      (exists j :: 0 <= j < |rest| && rest[j].server == f)
        <==> (exists j :: 0 <= j < |flights| && flights[j].server == f) && f != flights[i].server
  {
    var rest := flights[..i] + flights[i + 1..];
    if j :| 0 <= j < |flights| && flights[j].server == f && j != i {
      assert rest[if j < i then j else j - 1].server == f;
    }
    if j :| 0 <= j < |rest| && rest[j].server == f {
      assert flights[if j < i then j else j + 1].server == f;
    }
  }

  lemma ForkUnlocks(c: Cache, i: nat, ok: bool)
    requires Shaped(c) && FlightsOk(c) && i < |c.flights|
    ensures forall f :: Locked(ForkStep(c, i, ok), f) <==> Locked(c, f) && f != c.flights[i].server
  {
    forall f ensures Locked(ForkStep(c, i, ok), f) <==> Locked(c, f) && f != c.flights[i].server {
      FlightsWithout(c.flights, i, f);
    }
  }

  lemma FlightLocks(c: Cache, d: Cache, fl: Flight)
    requires d.flights == c.flights + [fl]
    ensures forall f :: Locked(d, f) <==> Locked(c, f) || f == fl.server
  {
    forall f ensures Locked(d, f) <==> Locked(c, f) || f == fl.server {
      if Locked(c, f) {
        var j :| 0 <= j < |c.flights| && c.flights[j].server == f;
        assert d.flights[j].server == f;
      }
      if f == fl.server {
        assert d.flights[|c.flights|].server == f;
      }
    }
  }

  // ----- eviction

  /** The scan finds the first evictable server of least ratio, never the root. */
  ghost predicate IsVictim(c: Cache, n: nat, idx: nat)
    requires Shaped(c) && n <= |c.servers|
  {
    if idx == 0 then
      forall k :: 1 <= k < n ==> c.servers[k] < |c.table| && !Evictable(c.table[c.servers[k]])
    else
      && idx < n && c.servers[idx] < |c.table| && Evictable(c.table[c.servers[idx]])
      && (forall k :: 1 <= k < n ==>
            && c.servers[k] < |c.table|
            && (Evictable(c.table[c.servers[k]]) ==>
                  && Ratio(c.table[c.servers[idx]]) <= Ratio(c.table[c.servers[k]])
                  && (k < idx ==> Ratio(c.table[c.servers[idx]]) < Ratio(c.table[c.servers[k]]))))
  }

  lemma {:induction false} ScanFindsVictim(c: Cache, n: nat)
    requires Shaped(c) && n <= |c.servers|
    ensures IsVictim(c, n, VictimUpTo(c, n))
  {
    assert forall k :: 0 <= k < |c.servers| ==> c.servers[k] in c.servers;
    if n > 1 {
      ScanFindsVictim(c, n - 1);
    }
  }

  lemma InvVictim(c: Cache, full: bool, evicting: Option<Fid>)
    requires Inv(c)
    requires evicting.Some? ==>
               var v := evicting.value;
               v in c.servers && 0 < v < |c.table| && c.table[v].children == 0 && c.table[v].size != 0.0
    ensures Inv(c.(full := full, evicting := evicting))
  {
    var d := c.(full := full, evicting := evicting);
    TableFrame(c, d);
    FlightsFrame(c, d);
  }

  lemma InvCheckUsage(c: Cache, over: bool)
    requires Inv(c) && Shaped(c) && c.evicting.None?
    ensures Inv(CheckUsageStep(c, over))
  {
    var idx := VictimUpTo(c, |c.servers|);
    if over && idx != 0 {
      assert c.servers[idx] in c.servers;
      assert c.servers[0] != c.servers[idx];
      InvVictim(c, over, Some(c.servers[idx]));
    } else {
      InvVictim(c, over, c.evicting);
    }
  }

  lemma KidsOf(c: Cache, e: Fid, v: Fid)
    requires ChildrenOk(c) && v < |c.table| && IsChild(c.table, e, v) && (e in c.servers || e in c.kills)
    ensures c.table[v].children > 0
  {
    if e in c.servers {
      KidsPositive(c.table, c.servers, e, v);
    } else {
      KidsPositive(c.table, c.kills, e, v);
    }
  }

  lemma UnlistLists(c: Cache, v: Fid)
    requires TableOk(c) && ServersOk(c) && UniqueOk(c) && KillsOk(c) && 0 < v < |c.table| && v in c.servers
    requires forall e :: e in c.servers || e in c.kills ==> !IsChild(c.table, e, v)
    ensures
      var d := UnlistStep(c, v);
      && ServersOk(d) && UniqueOk(d) && KillsOk(d)
      && forall e :: e in d.servers <==> e in c.servers && e != v
  {
    var d := UnlistStep(c, v);
    WithoutDistinct(c.servers, v);
    assert d.servers == [0] + Without(c.servers[1..], v);
    forall e ensures e in d.servers <==> e in c.servers && e != v {
      assert e in d.servers <==> e in Elements(d.servers);
      assert e in c.servers <==> e in Elements(c.servers);
    }
    assert EntryOk(c, v);
    assert v !in c.kills;
    assert forall e :: e in d.kills <==> e in c.kills || e == v;
  }

  lemma UnlistCounts(c: Cache, v: Fid)
    requires ChildrenOk(c) && HitsOk(c) && v in c.servers
    ensures ChildrenOk(UnlistStep(c, v)) && HitsOk(UnlistStep(c, v))
  {
    var d := UnlistStep(c, v);
    forall e | 0 <= e < |d.table|
      ensures d.table[e].children == Kids(d.table, d.servers, e) + Kids(d.table, d.kills, e) + d.table[e].failed
      ensures KidHits(d.table, d.servers, e) <= d.table[e].hits
    {
      KidsWithout(c.table, c.servers, v, e);
      KidsBack(c.table, c.kills, v, e);
    }
  }

  /** Unlisting a server without children keeps the list closed under parents and the root first. */
  lemma InvUnlist(c: Cache)
    requires Inv(c) && c.evicting.Some? && !Locked(c, c.evicting.value)
    ensures Inv(UnlistStep(c, c.evicting.value))
  {
    var v := c.evicting.value;
    var d := UnlistStep(c, v);
    forall e | e in c.servers || e in c.kills ensures !IsChild(c.table, e, v) {
      if IsChild(c.table, e, v) {
        KidsOf(c, e, v);
      }
    }
    UnlistLists(c, v);
    UnlistCounts(c, v);
    TableFrame(c, d);
    forall i | 0 <= i < |d.flights| ensures FlightOk(d, d.flights[i]) {
      assert FlightOk(c, c.flights[i]);
    }
  }

  // ----- kills

  /** What KillStep does: one pending kill less, its parent counts one child less. */
  ghost predicate Killed(c: Cache, d: Cache, v: Fid, p: Fid) {
    && v in c.kills && v < |c.table| && p < |c.table| && v != p && c.table[v].parent == Some(p)
    && d == c.(kills := Without(c.kills, v),
               table := c.table[v := c.table[v].(dead := true)][p := c.table[p].(children := c.table[p].children - 1)])
  }

  lemma KillChildren(c: Cache, d: Cache, v: Fid, p: Fid)
    requires TableOk(c) && ServersOk(c) && KillsOk(c) && ChildrenOk(c) && Killed(c, d, v, p)
    ensures ChildrenOk(d)
  {
    WithoutElements(c.kills, v);
    forall e | 0 <= e < |d.table|
      ensures d.table[e].children == Kids(d.table, d.servers, e) + Kids(d.table, d.kills, e) + d.table[e].failed
    {
      KidsFrame(c.table, d.table, c.servers, e);
      KidsFrame(c.table, d.table, d.kills, e);
      KidsWithout(c.table, c.kills, v, e);
    }
  }

  lemma KillLists(c: Cache, d: Cache, v: Fid, p: Fid)
    requires ServersOk(c) && UniqueOk(c) && KillsOk(c) && Killed(c, d, v, p)
    ensures ServersOk(d) && UniqueOk(d) && KillsOk(d)
  {
    WithoutDistinct(c.kills, v);
    forall e ensures e in d.kills <==> e in c.kills && e != v {
      assert e in d.kills <==> e in Elements(d.kills);
      assert e in c.kills <==> e in Elements(c.kills);
    }
    assert p in c.servers && v !in c.servers && p !in c.kills;
  }

  lemma KillSame(c: Cache, d: Cache, v: Fid, p: Fid)
    requires Killed(c, d, v, p)
    ensures SameEntries(c, d)
    ensures forall e {:trigger d.table[e]} :: 0 <= e < |d.table| ==> d.table[e].hits == c.table[e].hits
    ensures forall e {:trigger d.table[e]} :: 0 <= e < |d.table| && e != p ==> d.table[e].children == c.table[e].children
  {
  }

  lemma KillIsKilled(c: Cache, v: Fid)
    requires TableOk(c) && KillsOk(c) && Shaped(c) && v in c.kills
    ensures c.table[v].parent.Some? && Killed(c, KillStep(c, v), v, c.table[v].parent.value)
  {
    assert EntryOk(c, v);
  }

  lemma KilledInv(c: Cache, d: Cache, v: Fid, p: Fid)
    requires Inv(c) && Killed(c, d, v, p)
    ensures Inv(d)
  {
    KillSame(c, d, v, p);
    TableFrame(c, d);
    KillLists(c, d, v, p);
    KillChildren(c, d, v, p);
    HitsFrame(c, d);
    FlightsFrame(c, d);
    KidsOf(c, v, p);
  }

  lemma InvKill(c: Cache, v: Fid)
    requires Inv(c) && Shaped(c) && v in c.kills
    ensures Inv(KillStep(c, v))
  {
    KillIsKilled(c, v);
    KilledInv(c, KillStep(c, v), v, c.table[v].parent.value);
  }

  // ----- runs

  lemma InvStep(c: Cache, st: Step)
    requires Inv(c) && Shaped(c) && Enabled(c, st)
    ensures Inv(Apply(c, st))
  {
    match st {
      case Begin(request, createOk, size) => InvBegin(c, request, createOk, size);
      case Fork(i, forkOk) => InvFork(c, i, forkOk);
      case CheckUsage(over) => InvCheckUsage(c, over);
      case Unlist => InvUnlist(c);
      case Kill(victim) => InvKill(c, victim);
    }
  }

  /** A step that is not enabled leaves the cache alone. */
  ghost function Next(c: Cache, st: Step): Cache {
    if Shaped(c) && Enabled(c, st) then Apply(c, st) else c
  }

  ghost function Exec(c: Cache, run: seq<Step>): Cache {
    if run == [] then c else Next(Exec(c, run[..|run| - 1]), run[|run| - 1])
  }

  lemma {:induction false} InvRun(c: Cache, run: seq<Step>)
    requires Inv(c)
    ensures Inv(Exec(c, run)) && Shaped(Exec(c, run))
  {
    if run != [] {
      var d := Exec(c, run[..|run| - 1]);
      InvRun(c, run[..|run| - 1]);
      if Enabled(d, run[|run| - 1]) {
        InvStep(d, run[|run| - 1]);
      }
    }
    InvShaped(Exec(c, run));
  }

  /** The states of all runs, with any import lists. */
  ghost predicate Reachable(c: Cache) {
    exists importable: set<Module>, run: seq<Step> :: c == Exec(Initial(importable), run)
  }

  lemma ReachableInv(c: Cache)
    requires Reachable(c)
    ensures Inv(c) && Shaped(c)
  {
    var importable: set<Module>, run: seq<Step> :| c == Exec(Initial(importable), run);
    InvInitial(importable);
    InvRun(Initial(importable), run);
  }

  lemma ReachableStep(c: Cache, st: Step)
    requires Reachable(c) && Shaped(c) && Enabled(c, st)
    ensures Reachable(Apply(c, st)) && Shaped(Apply(c, st))
  {
    var importable: set<Module>, run: seq<Step> :| c == Exec(Initial(importable), run);
    assert (run + [st])[..|run|] == run;
    assert Apply(c, st) == Exec(Initial(importable), run + [st]);
    ReachableInv(Apply(c, st));
  }

  // ----- the results

  /** Whatever was asked of the cache, however full it was, and whatever was evicted meanwhile: each
      process whose own request has no duplicate holds exactly what a fresh process would after
      importing the request itself, and each fork server has loaded what it records, as far as it can
      be imported. */
  lemma CacheIsTransparent(c: Cache)
    requires Reachable(c)
    ensures forall p :: p in c.processes && Distinct(p.request) ==> p.modules == FromScratch(p.request, c.importable)
    ensures forall e {:trigger c.table[e]} :: 0 <= e < |c.table| ==>
              c.table[e].loaded == c.table[e].imports * c.importable
  {
    ReachableInv(c);
    forall p | p in c.processes && Distinct(p.request) ensures p.modules == FromScratch(p.request, c.importable) {
      assert ProcessOk(c, p);
    }
    forall e | 0 <= e < |c.table| ensures c.table[e].loaded == c.table[e].imports * c.importable {
      assert EntryOk(c, e);
    }
  }

  /** A request on its way has locked a listed server that nobody else has locked, and that server
      plus the list it is sent make up the request when that has no duplicate. */
  lemma FlightsUseListedServers(c: Cache, i: nat)
    requires Reachable(c) && i < |c.flights|
    ensures
      var f := c.flights[i];
      && f.server in c.servers && f.server < |c.table| && !c.table[f.server].dead && f.server !in c.kills
      && (Distinct(f.request) ==> c.table[f.server].imports + Elements(f.toCache) == Elements(f.request))
      && forall j :: 0 <= j < |c.flights| && j != i ==> c.flights[j].server != f.server
  {
    ReachableInv(c);
    assert FlightOk(c, c.flights[i]);
  }

  /** `Children` counts the listed children, those that wait to be killed, and the creations that
      failed. So a server whose count is zero has no listed child. */
  lemma ChildrenAccounting(c: Cache, e: Fid)
    requires Reachable(c) && e < |c.table|
    ensures c.table[e].children == Kids(c.table, c.servers, e) + Kids(c.table, c.kills, e) + c.table[e].failed
    ensures c.table[e].children == 0 ==> forall k :: k in c.servers || k in c.kills ==> !IsChild(c.table, k, e)
  {
    ReachableInv(c);
    if c.table[e].children == 0 {
      forall k | k in c.servers || k in c.kills ensures !IsChild(c.table, k, e) {
        if IsChild(c.table, k, e) {
          KidsOf(c, k, e);
        }
      }
    }
  }

  /** The root stays first, the list holds the parent of each of its servers, no two listed servers
      have the same imports, and each has strictly more than its parent. */
  lemma ListIsATree(c: Cache)
    requires Reachable(c)
    ensures c.servers != [] && c.servers[0] == 0 && Distinct(c.servers)
    ensures forall e :: e in c.servers && e != 0 ==>
              && e < |c.table| && c.table[e].parent.Some?
              && c.table[e].parent.value in c.servers && c.table[e].parent.value < |c.table|
              && c.table[c.table[e].parent.value].imports < c.table[e].imports
    ensures forall e, f :: e in c.servers && f in c.servers && e != f ==>
              e < |c.table| && f < |c.table| && c.table[e].imports != c.table[f].imports
  {
    ReachableInv(c);
    forall e | e in c.servers && e != 0
      ensures e < |c.table| && c.table[e].parent.Some?
           && c.table[e].parent.value in c.servers && c.table[e].parent.value < |c.table|
           && c.table[c.table[e].parent.value].imports < c.table[e].imports
    {
      assert EntryOk(c, e);
    }
  }

  /** The root's hits are all hits ever made, and no server has fewer than its listed children. */
  lemma HitAccounting(c: Cache)
    requires Reachable(c)
    ensures c.table != [] && c.table[0].hits == c.totalHits
    ensures forall e {:trigger c.table[e]} :: 0 <= e < |c.table| ==> KidHits(c.table, c.servers, e) <= c.table[e].hits
  {
    ReachableInv(c);
  }
}
