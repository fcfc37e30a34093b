/**
 The matcher of the import cache: among the fork servers it picks the one from which the
 fewest modules remain to be imported.
 */
module SubsetMatcher {
  import opened Collections

  type Module = string

  // ----- what the loops compute

  /** How many positions of the request name a module that the server has imported. */
  function Matched(imports: set<Module>, request: seq<Module>): nat {
    if request == [] then 0
    else Matched(imports, request[..|request| - 1]) + (if request[|request| - 1] in imports then 1 else 0)
  }

  /** The modules of the request that the server lacks, in order. */
  function Remainder(imports: set<Module>, request: seq<Module>): seq<Module> {
    if request == [] then []
    else
      Remainder(imports, request[..|request| - 1])
      + (if request[|request| - 1] in imports then [] else [request[|request| - 1]])
  }

  /** The matcher's subset test. */
  predicate Passes(imports: set<Module>, request: seq<Module>) {
    |imports| <= Matched(imports, request)
  }

  /** Among the servers `1..n`, the first of greatest count that passes; 0, the root, if none. */
  function BestUpTo(servers: seq<set<Module>>, request: seq<Module>, n: nat): (best: nat)
    requires n <= |servers|
    ensures best == 0 || best < n
  {
    if n <= 1 then 0
    else
      var best := BestUpTo(servers, request, n - 1);
      if Passes(servers[n - 1], request)
         && (best == 0 || Matched(servers[n - 1], request) > Matched(servers[best], request))
      then n - 1 else best
  }

  function Best(servers: seq<set<Module>>, request: seq<Module>): nat {
    BestUpTo(servers, request, |servers|)
  }

  /** The list that is sent to the chosen server. */
  function ToCache(servers: seq<set<Module>>, request: seq<Module>): seq<Module> {
    var best := Best(servers, request);
    if 0 < best < |servers| then Remainder(servers[best], request) else request
  }

  // ----- the matcher

  method Match(servers: seq<set<Module>>, imports: seq<Module>)
    returns (best: nat, toCache: seq<Module>, hit: bool)
    requires servers != []
    ensures best == Best(servers, imports) && best < |servers|
    ensures toCache == ToCache(servers, imports)
    ensures hit <==> best != 0
  {
    best := 0;
    var bestScore := -1;
    toCache := imports;
    for i := 1 to |servers|
      invariant best == BestUpTo(servers, imports, i) && best < i
      invariant bestScore == if best == 0 then -1 else Matched(servers[best], imports)
      invariant toCache == if best == 0 then imports else Remainder(servers[best], imports)
    {
      var matched := 0;
      var rest: seq<Module> := [];
      for j := 0 to |imports|
        invariant matched == Matched(servers[i], imports[..j])
        invariant rest == Remainder(servers[i], imports[..j])
      {
        assert imports[..j + 1][..j] == imports[..j];
        if imports[j] in servers[i] {
          matched := matched + 1;
        } else {
          rest := rest + [imports[j]];
        }
      }
      assert imports[..|imports|] == imports;
      if matched > bestScore && |servers[i]| <= matched {
        best, bestScore, toCache := i, matched, rest;
      }
    }
    hit := bestScore != -1;
  }

  // ----- what the choice means

  /** The earliest non-root server of greatest count among those that pass. */
  ghost predicate IsBest(servers: seq<set<Module>>, request: seq<Module>, n: nat, best: nat)
    requires n <= |servers|
  {
    if best == 0 then
      forall i :: 1 <= i < n ==> !Passes(servers[i], request)
    else
      && best < n
      && Passes(servers[best], request)
      && (forall i :: 1 <= i < n && Passes(servers[i], request) ==>
            Matched(servers[i], request) <= Matched(servers[best], request))
      && (forall i :: 1 <= i < best && Passes(servers[i], request) ==>
            Matched(servers[i], request) < Matched(servers[best], request))
  }

  lemma {:induction false} BestUpToIsBest(servers: seq<set<Module>>, request: seq<Module>, n: nat)
    requires n <= |servers|
    ensures IsBest(servers, request, n, BestUpTo(servers, request, n))
  {
    if n > 1 {
      BestUpToIsBest(servers, request, n - 1);
    }
  }

  lemma IntersectionGrows(imports: set<Module>, s: set<Module>, m: Module)
    requires m !in s
    ensures |imports * (s + {m})| == |imports * s| + (if m in imports then 1 else 0)
  {
    if m in imports {
      assert imports * (s + {m}) == imports * s + {m};
    } else {
      assert imports * (s + {m}) == imports * s;
    }
  }

  /** On duplicate-free requests the count is the size of the intersection. */
  lemma {:induction false} MatchedIsIntersection(imports: set<Module>, request: seq<Module>)
    requires Distinct(request)
    ensures Matched(imports, request) == |imports * Elements(request)|
  {
    if request != [] {
      var n := |request| - 1;
      var init := request[..n];
      MatchedIsIntersection(imports, init);
      assert request == init + [request[n]];
      assert Elements(request) == Elements(init) + {request[n]};
      IntersectionGrows(imports, Elements(init), request[n]);
    }
  }

  lemma SubsetOfSameSize(a: set<Module>, b: set<Module>)
    requires a <= b && |b| <= |a|
    ensures a == b
  {
    assert b == a + (b - a);
    assert |b| == |a| + |b - a|;
  }

  lemma PassesIffSubset(imports: set<Module>, request: seq<Module>)
    requires Distinct(request)
    ensures Passes(imports, request) <==> imports <= Elements(request)
    ensures imports <= Elements(request) ==> Matched(imports, request) == |imports|
  {
    MatchedIsIntersection(imports, request);
    if Passes(imports, request) {
      SubsetOfSameSize(imports * Elements(request), imports);
    }
    if imports <= Elements(request) {
      assert imports * Elements(request) == imports;
    }
  }

  /** The remainder is what the server lacks, in the order of the request. */
  lemma {:induction false} RemainderSound(imports: set<Module>, request: seq<Module>)
    ensures Elements(Remainder(imports, request)) == Elements(request) - imports
    ensures Distinct(request) ==> Distinct(Remainder(imports, request))
    ensures |Remainder(imports, request)| + Matched(imports, request) == |request|
  {
    if request != [] {
      var n := |request| - 1;
      var init := request[..n];
      RemainderSound(imports, init);
      assert request == init + [request[n]];
      assert Elements(request) == Elements(init) + {request[n]};
      var r := Remainder(imports, init);
      if request[n] !in imports {
        assert Elements(r + [request[n]]) == Elements(r) + {request[n]};
        if Distinct(request) {
          assert request[n] !in init;
          assert request[n] !in Elements(r);
          assert forall k :: 0 <= k < |r| ==> r[k] in Elements(r);
        }
      } else {
        assert r + [] == r;
      }
    }
  }

  /** `r` keeps the order of `s`: it is `s` with some positions left out. */
  predicate Subsequence(r: seq<Module>, s: seq<Module>) {
    if s == [] then r == []
    else if r == [] then true
    else
      (r[|r| - 1] == s[|s| - 1] && Subsequence(r[..|r| - 1], s[..|s| - 1])) || Subsequence(r, s[..|s| - 1])
  }

  lemma {:induction false} RemainderInOrder(imports: set<Module>, request: seq<Module>)
    ensures Subsequence(Remainder(imports, request), request)
  {
    if request != [] {
      var n := |request| - 1;
      RemainderInOrder(imports, request[..n]);
      var r := Remainder(imports, request[..n]);
      if request[n] !in imports {
        assert (r + [request[n]])[..|r|] == r;
      } else {
        assert r + [] == r;
      }
    }
  }

  /** On a duplicate-free request the matcher chooses the earliest non-root server of greatest
      import count among those whose imports the request includes, reports a hit exactly when one
      exists, and leaves the request minus the chosen server's imports, in order. */
  lemma MatchOnDistinct(servers: seq<set<Module>>, request: seq<Module>)
    requires servers != [] && Distinct(request)
    ensures
      var best := Best(servers, request);
      && best < |servers|
      && (best == 0 <==> forall i :: 1 <= i < |servers| ==> !(servers[i] <= Elements(request)))
      && (best != 0 ==>
            && servers[best] <= Elements(request)
            && (forall i :: 1 <= i < |servers| && servers[i] <= Elements(request) ==> |servers[i]| <= |servers[best]|)
            && (forall i :: 1 <= i < best && servers[i] <= Elements(request) ==> |servers[i]| < |servers[best]|)
            && Elements(ToCache(servers, request)) == Elements(request) - servers[best])
      && (best == 0 ==> ToCache(servers, request) == request)
      && Distinct(ToCache(servers, request))
      && Subsequence(ToCache(servers, request), request)
  {
    var best := Best(servers, request);
    BestUpToIsBest(servers, request, |servers|);
    forall i | 0 <= i < |servers|
      ensures Passes(servers[i], request) <==> servers[i] <= Elements(request)
      ensures servers[i] <= Elements(request) ==> Matched(servers[i], request) == |servers[i]|
    {
      PassesIffSubset(servers[i], request);
    }
    if best != 0 {
      RemainderSound(servers[best], request);
      RemainderInOrder(servers[best], request);
    } else {
      SubsequenceRefl(request);
    }
  }

  /** With an empty root, the chosen server and the list that is sent to it split the request. */
  lemma BestCovers(servers: seq<set<Module>>, request: seq<Module>)
    requires servers != [] && servers[0] == {} && Distinct(request)
    ensures
      var best := Best(servers, request);
      && best < |servers|
      && servers[best] + Elements(ToCache(servers, request)) == Elements(request)
      && servers[best] !! Elements(ToCache(servers, request))
  {
    MatchOnDistinct(servers, request);
  }

  /** The imports of an entry for the list that remains pass the subset test, also when the request has
      duplicates, and match every position of it. */
  lemma NewImportsPass(servers: seq<set<Module>>, request: seq<Module>)
    requires servers != [] && servers[0] == {}
    ensures
      var best := Best(servers, request);
      best < |servers| &&
      var imports := servers[best] + Elements(ToCache(servers, request));
      Passes(imports, request) && Matched(imports, request) == |request|
  {
    var best := Best(servers, request);
    BestUpToIsBest(servers, request, |servers|);
    var toCache := ToCache(servers, request);
    RemainderSound(servers[best], request);
    DistinctIffSize(toCache);
    var imports := servers[best] + Elements(toCache);
    assert Elements(request) <= imports;
    forall i | 0 <= i < |request| ensures request[i] in imports {
      assert request[i] in Elements(request);
    }
    MatchedAll(imports, request);
    assert |imports| <= |servers[best]| + |Elements(toCache)|;
  }

  /** When something remains to be imported, a new entry has more imports than the chosen server, and
      other imports than every server: one with the same would have been chosen. */
  lemma BestIsNew(servers: seq<set<Module>>, request: seq<Module>, i: nat)
    requires servers != [] && servers[0] == {} && i < |servers|
    requires ToCache(servers, request) != []
    ensures
      var best := Best(servers, request);
      best < |servers| &&
      var imports := servers[best] + Elements(ToCache(servers, request));
      servers[best] < imports && servers[i] != imports
  {
    var best := Best(servers, request);
    var toCache := ToCache(servers, request);
    var imports := servers[best] + Elements(toCache);
    NewImportsPass(servers, request);
    RemainderSound(servers[best], request);
    BestUpToIsBest(servers, request, |servers|);
    assert toCache[0] in Elements(toCache);
    assert toCache[0] !in servers[best];
    assert toCache[0] in imports;
  }

  lemma {:induction false} SubsequenceRefl(s: seq<Module>)
    ensures Subsequence(s, s)
  {
    if s != [] {
      SubsequenceRefl(s[..|s| - 1]);
    }
  }

  // ----- duplicates

  /** The imports of the chosen server are part of the request. */
  predicate Sound(servers: seq<set<Module>>, request: seq<Module>)
    requires servers != []
  {
    var best := Best(servers, request);
    best < |servers| && (best == 0 || servers[best] <= Elements(request))
  }

  lemma {:induction false} MatchedAll(imports: set<Module>, request: seq<Module>)
    requires forall i :: 0 <= i < |request| ==> request[i] in imports
    ensures Matched(imports, request) == |request|
  {
    if request != [] {
      MatchedAll(imports, request[..|request| - 1]);
    }
  }

  /** With a duplicate, a server that holds the request and one module more passes the subset test,
      and nothing remains to be imported. */
  lemma DuplicateMatches(request: seq<Module>, extra: Module)
    requires !Distinct(request) && extra !in request
    ensures
      var servers := [{}, Elements(request) + {extra}];
      Best(servers, request) == 1 && ToCache(servers, request) == []
  {
    var bad := Elements(request) + {extra};
    DistinctIffSize(request);
    MatchedAll(bad, request);
    RemainderSound(bad, request);
    var servers := [{}, bad];
    assert Passes(bad, request);
    assert BestUpTo(servers, request, 1) == 0;
  }

  /** The matcher is right on every cache exactly for the requests without duplicates. */
  lemma SoundForEveryCacheIffDistinct(request: seq<Module>)
    ensures (forall servers: seq<set<Module>> :: servers != [] ==> Sound(servers, request)) <==> Distinct(request)
  {
    if Distinct(request) {
      forall servers: seq<set<Module>> | servers != [] ensures Sound(servers, request) {
        MatchOnDistinct(servers, request);
      }
    } else {
      var extra := FreshName(request);
      DuplicateMatches(request, extra);
      var servers := [{}, Elements(request) + {extra}];
      assert extra in servers[1] && extra !in Elements(request);
      assert !Sound(servers, request);
    }
  }
}
