/**
 Import lists that name a module twice. The cache serves a list rightly in every reachable state if
 and only if the list has no duplicate.
 */
module CacheDuplicates {
  import opened Collections
  import opened SubsetMatcher
  import opened ImportCache
  import opened ImportCacheProofs
  import opened CacheEvictions

  /** The process that this request is going to be forked into holds what a fresh process would. */
  ghost predicate ServedRight(c: Cache, request: seq<Module>)
    requires Shaped(c)
  {
    var d := BeginStep(c, request, true, 0.0);
    && d.flights != []
    && var f := d.flights[|d.flights| - 1];
       && f.server < |d.table|
       && LoadedAfter(d.table[f.server].loaded, f.toCache, c.importable) == FromScratch(request, c.importable)
  }

  lemma BeginFlight(c: Cache, request: seq<Module>)
    requires Shaped(c)
    ensures
      var d := BeginStep(c, request, true, 0.0);
      d.flights != [] && d.flights[|d.flights| - 1].request == request && d.importable == c.importable
  {
  }

  lemma LastIsServedRight(d: Cache, importable: set<Module>)
    requires TableOk(d) && FlightsOk(d) && d.flights != [] && d.importable == importable
    requires Distinct(d.flights[|d.flights| - 1].request)
    ensures
      var f := d.flights[|d.flights| - 1];
      && f.server < |d.table|
      && LoadedAfter(d.table[f.server].loaded, f.toCache, importable) == FromScratch(f.request, importable)
  {
    ForkedHoldsRequest(d, |d.flights| - 1);
  }

  lemma DistinctIsServedRight(c: Cache, request: seq<Module>)
    requires Inv(c) && Shaped(c) && Enabled(c, Begin(request, true, 0.0)) && Distinct(request)
    ensures ServedRight(c, request)
  {
    InvBegin(c, request, true, 0.0);
    BeginFlight(c, request);
    LastIsServedRight(BeginStep(c, request, true, 0.0), c.importable);
  }

  function Deduplicated(s: seq<Module>): seq<Module> {
    if s == [] then []
    else
      var init := Deduplicated(s[..|s| - 1]);
      if s[|s| - 1] in init then init else init + [s[|s| - 1]]
  }

  lemma {:induction false} DeduplicatedIsDistinct(s: seq<Module>)
    ensures Distinct(Deduplicated(s)) && Elements(Deduplicated(s)) == Elements(s)
  {
    if s != [] {
      var n := |s| - 1;
      DeduplicatedIsDistinct(s[..n]);
      assert s == s[..n] + [s[n]];
      assert Elements(s) == Elements(s[..n]) + {s[n]};
    }
  }

  lemma DuplicateIsServedWrong(c: Cache, request: seq<Module>, extra: Module, first: seq<Module>)
    requires !Distinct(request) && extra !in request && Elements(first) == Elements(request) + {extra}
    requires Shaped(c) && OneEntry(c, first, 0.0) && extra in c.importable
    ensures Enabled(c, Begin(request, true, 0.0)) && !ServedRight(c, request)
  {
    assert ImportsOf(c) == [{}, Elements(request) + {extra}];
    DuplicateMatches(request, extra);
    assert Chosen(c, request) == 1;
    var d := BeginStep(c, request, true, 0.0);
    assert d.flights == [Flight(1, [], request)] && d.table == c.table;
    assert extra in LoadedAfter(d.table[1].loaded, [], c.importable);
    assert extra !in FromScratch(request, c.importable);
  }

  /** Whatever was asked of the cache before, by whomever: it serves a request rightly in all its states
      if and only if the request itself has no duplicate. */
  lemma AlwaysServedRightIffDistinct(request: seq<Module>)
    ensures (forall c: Cache :: Reachable(c) && Shaped(c) && Enabled(c, Begin(request, true, 0.0)) ==> ServedRight(c, request))
       <==> Distinct(request)
  {
    if Distinct(request) {
      forall c: Cache | Reachable(c) && Shaped(c) && Enabled(c, Begin(request, true, 0.0)) ensures ServedRight(c, request) {
        ReachableInv(c);
        DistinctIsServedRight(c, request);
      }
    } else {
      var extra := FreshName(request);
      DeduplicatedIsDistinct(request);
      var first := Deduplicated(request) + [extra];
      assert extra !in Elements(Deduplicated(request));
      assert Elements(first) == Elements(request) + {extra};
      var run := OneEntryIsReached(Elements(first), first, 0.0);
      var c := Exec(Initial(Elements(first)), run);
      DuplicateIsServedWrong(c, request, extra, first);
    }
  }
}
