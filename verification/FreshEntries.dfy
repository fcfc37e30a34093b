/**
 Entries that were never hit: each is still locked by the request that made it, and nothing was made or
 tried below it.
 */
module FreshEntries {
  import opened Collections
  import opened SubsetMatcher
  import opened ImportCache
  import opened ImportCacheProofs
  import opened CacheEvictions

  predicate NeverHit(c: Cache, e: Fid) {
    0 < e < |c.table| && c.table[e].hits == 0
  }

  ghost predicate FreshOk(c: Cache) {
    forall e: Fid {:trigger NeverHit(c, e)} :: NeverHit(c, e) ==>
      Locked(c, e) && c.table[e].children == 0 && c.table[e].failed == 0
  }

  /** The list is in the order of creation. */
  predicate Ascending(s: seq<Fid>) {
    forall i, j :: 0 <= i < j < |s| ==> s[i] < s[j]
  }

  lemma {:induction false} WithoutAscending(s: seq<Fid>, x: Fid)
    requires Ascending(s)
    ensures Ascending(Without(s, x))
  {
    if s != [] && s[0] != x {
      WithoutAscending(s[1..], x);
      WithoutElements(s[1..], x);
      var w := Without(s[1..], x);
      assert forall i :: 0 <= i < |w| ==> w[i] in s[1..];
    }
  }

  lemma AscendingStep(c: Cache, st: Step)
    requires Shaped(c) && Enabled(c, st) && Ascending(c.servers)
    ensures Ascending(Apply(c, st).servers)
  {
    match st {
      case Begin(_, _, _) => assert forall i :: 0 <= i < |c.servers| ==> c.servers[i] in c.servers;
      case Unlist => WithoutAscending(c.servers, c.evicting.value);
      case _ =>
    }
  }

  /** Hits are never taken back. */
  ghost predicate HitsGrow(c: Cache, d: Cache) {
    && |c.table| <= |d.table|
    && forall e {:trigger c.table[e]} {:trigger d.table[e]} :: 0 <= e < |c.table| ==> d.table[e].hits >= c.table[e].hits
  }

  lemma HitsGrowStep(c: Cache, st: Step)
    requires Shaped(c) && Enabled(c, st)
    ensures HitsGrow(c, Apply(c, st))
  {
    match st {
      case Fork(i, _) => HitTable(c.table, c.flights[i].server);
      case _ =>
    }
  }

  lemma FreshBegin(c: Cache, request: seq<Module>, createOk: bool, size: Size)
    requires Shaped(c) && FreshOk(c) && !Locked(c, Chosen(c, request))
    ensures FreshOk(BeginStep(c, request, createOk, size))
  {
    var d := BeginStep(c, request, createOk, size);
    if d.flights != c.flights {
      FlightLocks(c, d, d.flights[|d.flights| - 1]);
    } else {
      assert forall e :: Locked(d, e) <==> Locked(c, e);
    }
    forall e: Fid | NeverHit(d, e) ensures Locked(d, e) && d.table[e].children == 0 && d.table[e].failed == 0 {
      if e < |c.table| {
        assert NeverHit(c, e);
      }
    }
  }

  lemma FreshFork(c: Cache, i: nat, ok: bool)
    requires Shaped(c) && FlightsOk(c) && FreshOk(c) && i < |c.flights|
    ensures FreshOk(ForkStep(c, i, ok))
  {
    var d := ForkStep(c, i, ok);
    var f := c.flights[i].server;
    ForkUnlocks(c, i, ok);
    HitTable(c.table, f);
    assert d.table[f] == AddHit(c.table[f]);
    forall e: Fid | NeverHit(d, e) ensures Locked(d, e) && d.table[e].children == 0 && d.table[e].failed == 0 {
      assert NeverHit(c, e);
    }
  }

  lemma FreshKill(c: Cache, v: Fid)
    requires Shaped(c) && TableOk(c) && KillsOk(c) && ChildrenOk(c) && FreshOk(c) && v in c.kills
    ensures FreshOk(KillStep(c, v))
  {
    KillIsKilled(c, v);
    var d := KillStep(c, v);
    var p := c.table[v].parent.value;
    KidsOf(c, v, p);
    assert forall e :: Locked(d, e) <==> Locked(c, e);
    forall e: Fid | NeverHit(d, e) ensures Locked(d, e) && d.table[e].children == 0 && d.table[e].failed == 0 {
      assert NeverHit(c, e);
    }
  }

  lemma FreshOther(c: Cache, d: Cache)
    requires FreshOk(c) && d.table == c.table && d.flights == c.flights
    ensures FreshOk(d)
  {
    assert forall e :: Locked(d, e) <==> Locked(c, e);
    forall e: Fid | NeverHit(d, e) ensures Locked(d, e) && d.table[e].children == 0 && d.table[e].failed == 0 {
      assert NeverHit(c, e);
    }
  }

  lemma FreshStep(c: Cache, st: Step)
    requires Reachable(c) && Shaped(c) && Enabled(c, st) && FreshOk(c)
    ensures FreshOk(Apply(c, st))
  {
    ReachableInv(c);
    match st {
      case Begin(request, createOk, size) => FreshBegin(c, request, createOk, size);
      case Fork(i, ok) => FreshFork(c, i, ok);
      case Kill(v) => FreshKill(c, v);
      case _ => FreshOther(c, Apply(c, st));
    }
  }

  lemma {:induction false} FreshRun(importable: set<Module>, run: seq<Step>)
    ensures
      var c := Exec(Initial(importable), run);
      Reachable(c) && Shaped(c) && FreshOk(c) && Ascending(c.servers)
  {
    var c := Exec(Initial(importable), run);
    assert Reachable(c);
    ReachableInv(c);
    if run != [] {
      var d := Exec(Initial(importable), run[..|run| - 1]);
      FreshRun(importable, run[..|run| - 1]);
      if Enabled(d, run[|run| - 1]) {
        FreshStep(d, run[|run| - 1]);
        AscendingStep(d, run[|run| - 1]);
      }
    }
  }

  /** In every reachable state the list is in the order of creation, and an entry that was never hit is
      locked, has no child and saw no creation fail. */
  lemma NeverHitIsLocked(c: Cache)
    requires Reachable(c)
    ensures FreshOk(c) && Ascending(c.servers)
  {
    var importable: set<Module>, run: seq<Step> :| c == Exec(Initial(importable), run);
    FreshRun(importable, run);
  }

  // ----- who is hit by a fork

  lemma {:induction false} ChildInChain(table: seq<ForkServer>, k: Fid, e: Fid) returns (x: Fid)
    requires Tree(table) && e < |table| && InChain(table, k, e) && k != e
    ensures IsChild(table, x, k) && InChain(table, x, e)
    decreases e
  {
    var p := table[e].parent.value;
    if p == k {
      x := e;
    } else {
      x := ChildInChain(table, k, p);
    }
  }

  /** A fork from one listed server leaves each other one alone that was never hit. */
  lemma ForkElsewhere(c: Cache, e: Fid, f: Fid)
    requires Reachable(c) && Shaped(c) && NeverHit(c, e) && f in c.servers && f != e
    ensures !InChain(c.table, e, f)
  {
    if InChain(c.table, e, f) {
      var x := ChildInChain(c.table, e, f);
      AncestorsAreListed(c, x, f);
      NeverHitIsLocked(c);
      ChildrenAccounting(c, e);
    }
  }

  lemma ForkKeepsFresh(c: Cache, i: nat, ok: bool, e: Fid)
    requires Reachable(c) && Shaped(c) && NeverHit(c, e) && i < |c.flights| && c.flights[i].server != e
    ensures NeverHit(ForkStep(c, i, ok), e)
  {
    ReachableInv(c);
    assert FlightOk(c, c.flights[i]);
    ForkElsewhere(c, e, c.flights[i].server);
    HitTable(c.table, c.flights[i].server);
  }
}
