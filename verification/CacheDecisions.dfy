/**
 What the import cache decides at each step, in terms of the run: when a Provision adds a server and below
 which one, what a fork leaves behind, and which victim a check of the usage chooses.
 */
module CacheDecisions {
  import opened Collections
  import opened SubsetMatcher
  import opened ImportCache
  import opened ImportCacheProofs

  // ----- the last reading of the usage

  /** Whether the last check of the usage in the run found it over the limit; without a check it did not. */
  ghost predicate LastReading(importable: set<Module>, run: seq<Step>) {
    run != [] &&
    var init := run[..|run| - 1];
    var c := Exec(Initial(importable), init);
    if run[|run| - 1].CheckUsage? && Shaped(c) && Enabled(c, run[|run| - 1]) then run[|run| - 1].over
    else LastReading(importable, init)
  }

  lemma {:induction false} FullIsLastReading(importable: set<Module>, run: seq<Step>)
    ensures Exec(Initial(importable), run).full <==> LastReading(importable, run)
  {
    if run != [] {
      FullIsLastReading(importable, run[..|run| - 1]);
    }
  }

  // ----- what a Provision does

  /** A server past the root whose imports the request includes. */
  predicate Serves(c: Cache, request: seq<Module>, i: nat) {
    0 < i < |c.servers| && c.servers[i] < |c.table| && c.table[c.servers[i]].imports <= Elements(request)
  }

  function SizeAt(c: Cache, i: nat): nat {
    if i < |c.servers| && c.servers[i] < |c.table| then |c.table[c.servers[i]].imports| else 0
  }

  /** The place of the earliest server of those with the most imports that the request includes; that of
      the root if there is none. */
  ghost predicate BestPlace(c: Cache, request: seq<Module>, j: nat) {
    && j < |c.servers|
    && (j == 0 ==> forall i: nat :: !Serves(c, request, i))
    && (j != 0 ==>
          && Serves(c, request, j)
          && forall i: nat :: Serves(c, request, i) ==>
               SizeAt(c, i) <= SizeAt(c, j) && (i < j ==> SizeAt(c, i) < SizeAt(c, j)))
  }

  ghost predicate BestFor(c: Cache, request: seq<Module>, e: Fid) {
    exists j: nat :: BestPlace(c, request, j) && c.servers[j] == e
  }

  lemma ChosenIsBest(c: Cache, request: seq<Module>)
    requires Shaped(c) && Distinct(request)
    ensures BestFor(c, request, Chosen(c, request))
  {
    var servers := ImportsOf(c);
    MatchOnDistinct(servers, request);
    var best := Best(servers, request);
    assert forall i: nat :: Serves(c, request, i) ==> servers[i] <= Elements(request) && SizeAt(c, i) == |servers[i]|;
    assert best != 0 ==> SizeAt(c, best) == |servers[best]|;
    assert BestPlace(c, request, best);
  }

  /** Something remains to be imported unless a server has just the modules of the request. */
  lemma RemainsIff(c: Cache, request: seq<Module>)
    requires Inv(c) && Shaped(c) && Distinct(request)
    ensures ToCache(ImportsOf(c), request) == [] <==>
              exists e :: e in c.servers && e < |c.table| && c.table[e].imports == Elements(request)
  {
    ChosenCovers(c, request);
    var e := Chosen(c, request);
    var rest := ToCache(ImportsOf(c), request);
    if rest == [] {
      assert Elements(rest) == {};
      assert e in c.servers && c.table[e].imports == Elements(request);
    } else {
      forall f | f in c.servers ensures c.table[f].imports != Elements(request) {
        EntryIsNew(c, request, f);
      }
    }
  }

  /** What remains is what the chosen server lacks. */
  lemma RestIsMissing(c: Cache, request: seq<Module>)
    requires Inv(c) && Shaped(c)
    ensures
      var rest := ToCache(ImportsOf(c), request);
      Elements(rest) == Elements(request) - c.table[Chosen(c, request)].imports
  {
    RootIsEmpty(c);
    var best := Best(ImportsOf(c), request);
    if best != 0 {
      RemainderSound(ImportsOf(c)[best], request);
    }
  }

  ghost predicate SameBut(c: Cache, d: Cache, e: Fid) {
    && |c.table| <= |d.table|
    && forall k {:trigger d.table[k]} :: 0 <= k < |c.table| && k != e ==> d.table[k] == c.table[k]
  }

  /** A server is added below `e`, at the end of the list, and the request is on its way with it. */
  ghost predicate Added(c: Cache, d: Cache, request: seq<Module>, e: Fid, size: Size)
    requires e < |c.table|
  {
    var n := |c.table|;
    && d.servers == c.servers + [n] && |d.table| == n + 1 && SameBut(c, d, e)
    && d.table[e] == c.table[e].(children := c.table[e].children + 1)
    && d.table[n].parent == Some(e) && d.table[n].hits == 0 && d.table[n].size == size
    && d.table[n].imports == c.table[e].imports + Elements(request)
    && d.flights == c.flights + [Flight(n, [], request)]
  }

  /** Only the counts of `e` change. */
  ghost predicate Failed(c: Cache, d: Cache, e: Fid)
    requires e < |c.table|
  {
    d == c.(table := c.table[e := c.table[e].(children := c.table[e].children + 1, failed := c.table[e].failed + 1)])
  }

  /** The request is on its way with `e` and the modules that this one lacks. */
  ghost predicate Reused(c: Cache, d: Cache, request: seq<Module>, e: Fid)
    requires e < |c.table|
  {
    && |d.flights| == |c.flights| + 1 && d == c.(flights := d.flights) && d.flights[..|c.flights|] == c.flights
    && var f := d.flights[|c.flights|];
       f.server == e && f.request == request && Elements(f.toCache) == Elements(request) - c.table[e].imports
  }

  lemma AddingBegin(c: Cache, request: seq<Module>, size: Size)
    requires Inv(c) && Shaped(c) && ToCache(ImportsOf(c), request) != [] && !c.full
    ensures
      var e := Chosen(c, request);
      Added(c, BeginStep(c, request, true, size), request, e, size)
  {
    RestIsMissing(c, request);
    CreateIsCreated(c, request, size);
    var e := Chosen(c, request);
    var rest := ToCache(ImportsOf(c), request);
    assert c.table[e].imports + Elements(rest) == c.table[e].imports + Elements(request);
    assert BeginStep(c, request, true, size).table[|c.table|] == NewEntry(c, e, rest, size);
  }

  lemma ReusingIsReused(c: Cache, request: seq<Module>, ok: bool, size: Size)
    requires Inv(c) && Shaped(c) && (ToCache(ImportsOf(c), request) == [] || c.full)
    ensures Reused(c, BeginStep(c, request, ok, size), request, Chosen(c, request))
  {
    RestIsMissing(c, request);
    ReusingBegin(c, request, ok, size);
  }

  /** A list of which something remains to be imported: of a list without duplicates, when no server has just
      its modules. */
  ghost predicate Remains(c: Cache, request: seq<Module>)
    requires Shaped(c)
  {
    ToCache(ImportsOf(c), request) != []
  }

  /** Over any run, a Provision adds a server exactly when the last reading of the usage was within the limit,
      something of its list remains to be imported, and the creation succeeds. The server goes below the one
      that the matcher chooses, with the modules of both. When the creation fails, only the counts of the
      chosen server change. In the other cases the request is on its way with the chosen server. */
  lemma BeginDecides(importable: set<Module>, run: seq<Step>, request: seq<Module>, ok: bool, size: Size)
    requires
      var c := Exec(Initial(importable), run);
      Shaped(c) && Enabled(c, Begin(request, ok, size))
    ensures
      var c := Exec(Initial(importable), run);
      var d := Next(c, Begin(request, ok, size));
      var e := Chosen(c, request);
      if Remains(c, request) && !LastReading(importable, run) then
        if ok then Added(c, d, request, e, size) else Failed(c, d, e)
      else Reused(c, d, request, e)
  {
    var c := Exec(Initial(importable), run);
    assert Reachable(c);
    ReachableInv(c);
    FullIsLastReading(importable, run);
    if !Remains(c, request) || c.full {
      ReusingIsReused(c, request, ok, size);
    } else if ok {
      AddingBegin(c, request, size);
    } else {
      FailedBegin(c, request, size);
    }
  }

  /** What decides about it, for a list without duplicates: the chosen server is the earliest of those with
      the most imports that the list includes, and nothing remains exactly when some server has just the
      modules of the list. */
  lemma BeginChooses(c: Cache, request: seq<Module>)
    requires Reachable(c) && Shaped(c) && Distinct(request)
    ensures BestFor(c, request, Chosen(c, request))
    ensures !Remains(c, request) <==> exists e :: e in c.servers && e < |c.table| && c.table[e].imports == Elements(request)
  {
    ReachableInv(c);
    ChosenIsBest(c, request);
    RemainsIff(c, request);
  }

  // ----- what a fork leaves behind

  ghost function Steps(importable: set<Module>, run: seq<Step>, kind: (Cache, Step) -> bool): nat {
    if run == [] then 0
    else
      var init := run[..|run| - 1];
      Steps(importable, init, kind) + (if kind(Exec(Initial(importable), init), run[|run| - 1]) then 1 else 0)
  }

  ghost function Forks(): (Cache, Step) -> bool {
    (c: Cache, st: Step) => st.Fork? && Shaped(c) && Enabled(c, st)
  }

  ghost function ForksThatSucceed(): (Cache, Step) -> bool {
    (c: Cache, st: Step) => st.Fork? && st.forkOk && Shaped(c) && Enabled(c, st)
  }

  /** A fork request takes its request off the way, whether it succeeds or not; a process of that request is
      left behind exactly when it does. */
  lemma ForkDecides(c: Cache, i: nat, ok: bool)
    requires Shaped(c) && i < |c.flights|
    ensures
      var d := Next(c, Fork(i, ok));
      && d.flights == c.flights[..i] + c.flights[i + 1..] && d.servers == c.servers && d.kills == c.kills
      && |d.table| == |c.table|
      && (if ok then |d.processes| == |c.processes| + 1 && d.processes[..|c.processes|] == c.processes
            && d.processes[|c.processes|].request == c.flights[i].request
          else d.processes == c.processes)
  {
  }

  /** Over any run, each fork request counts as one hit of the root, whether it succeeds or not, and each that
      succeeds has left a process behind. */
  lemma {:induction false} HitsAreForks(importable: set<Module>, run: seq<Step>)
    ensures
      var c := Exec(Initial(importable), run);
      && c.table != [] && c.table[0].hits == Steps(importable, run, Forks())
      && |c.processes| == Steps(importable, run, ForksThatSucceed())
  {
    var c := Exec(Initial(importable), run);
    assert Reachable(c);
    HitAccounting(c);
    TotalsAreForks(importable, run);
  }

  lemma TotalsStep(c: Cache, st: Step)
    requires Shaped(c) && Enabled(c, st)
    ensures Apply(c, st).totalHits == c.totalHits + (if st.Fork? then 1 else 0)
    ensures |Apply(c, st).processes| == |c.processes| + (if st.Fork? && st.forkOk then 1 else 0)
  {
  }

  lemma {:induction false} TotalsAreForks(importable: set<Module>, run: seq<Step>)
    ensures
      var c := Exec(Initial(importable), run);
      && c.totalHits == Steps(importable, run, Forks())
      && |c.processes| == Steps(importable, run, ForksThatSucceed())
  {
    if run != [] {
      var d := Exec(Initial(importable), run[..|run| - 1]);
      TotalsAreForks(importable, run[..|run| - 1]);
      if Shaped(d) && Enabled(d, run[|run| - 1]) {
        TotalsStep(d, run[|run| - 1]);
      }
    }
  }

  // ----- what a check chooses

  /** A server that can be evicted: it is listed, not the root, without children, and was given a size. */
  predicate Leaf(c: Cache, k: nat) {
    && 0 < k < |c.servers| && c.servers[k] < |c.table|
    && c.table[c.servers[k]].children == 0 && c.table[c.servers[k]].size > 0.0
  }

  lemma RatioLess(s: ForkServer, t: ForkServer)
    requires s.size > 0.0 && t.size > 0.0
    ensures Ratio(s) < Ratio(t) <==> s.hits as real * t.size < t.hits as real * s.size
    ensures Ratio(s) <= Ratio(t) <==> s.hits as real * t.size <= t.hits as real * s.size
  {
    var a, b := Ratio(s), Ratio(t);
    var x := s.size * t.size;
    Positive(s.size, t.size);
    Cancel(s.hits as real, s.size);
    Cancel(t.hits as real, t.size);
    assert s.hits as real * t.size == a * x;
    assert t.hits as real * s.size == b * x;
    Scale(a, b, x);
  }

  lemma Positive(a: real, b: real)
    requires a > 0.0 && b > 0.0
    ensures a * b > 0.0
  {
  }

  lemma Cancel(a: real, b: real)
    requires b != 0.0
    ensures a / b * b == a
  {
  }

  lemma Scale(a: real, b: real, x: real)
    requires x > 0.0
    ensures a < b <==> a * x < b * x
  {
    if a < b {
      Positive(b - a, x);
    } else if b < a {
      Positive(a - b, x);
    }
  }

  /** Fewer hits for its size, or as many and earlier in the list. */
  predicate Worse(c: Cache, v: nat, k: nat)
    requires v < |c.servers| && k < |c.servers| && c.servers[v] < |c.table| && c.servers[k] < |c.table|
  {
    var s, t := c.table[c.servers[v]], c.table[c.servers[k]];
    && s.hits as real * t.size <= t.hits as real * s.size
    && (k < v ==> s.hits as real * t.size < t.hits as real * s.size)
  }

  lemma WorseByRatio(c: Cache, v: nat, k: nat)
    requires Leaf(c, v) && Leaf(c, k)
    requires
      var a, b := Ratio(c.table[c.servers[v]]), Ratio(c.table[c.servers[k]]);
      a <= b && (k < v ==> a < b)
    ensures Worse(c, v, k)
  {
    RatioLess(c.table[c.servers[v]], c.table[c.servers[k]]);
  }

  lemma LeafIsEvictable(c: Cache, k: nat)
    requires Shaped(c)
    ensures Leaf(c, k) <==>
              0 < k < |c.servers| && c.servers[k] < |c.table| && Evictable(c.table[c.servers[k]])
  {
  }

  lemma ScanIsWorst(c: Cache)
    requires Shaped(c)
    ensures
      var v := VictimUpTo(c, |c.servers|);
      && (v != 0 <==> exists k: nat :: Leaf(c, k))
      && (v != 0 ==> Leaf(c, v) && forall k: nat :: Leaf(c, k) ==> Worse(c, v, k))
  {
    var n := |c.servers|;
    var v := VictimUpTo(c, n);
    ScanFindsVictim(c, n);
    LeafIsEvictable(c, v);
    forall k: nat | Leaf(c, k) ensures v != 0 && Worse(c, v, k) {
      LeafIsEvictable(c, k);
      WorseByRatio(c, v, k);
    }
  }

  /** A check notes whether the usage is over the limit, and chooses a victim exactly when it is and some
      server can be evicted: the first of those with the fewest hits for their size. */
  lemma CheckDecides(c: Cache, over: bool)
    requires Shaped(c) && c.evicting.None?
    ensures
      var d := Next(c, CheckUsage(over));
      && d == c.(full := over, evicting := d.evicting)
      && (d.evicting.Some? <==> over && exists k: nat :: Leaf(c, k))
      && (d.evicting.Some? ==>
            exists v: nat :: Leaf(c, v) && d.evicting == Some(c.servers[v]) && forall k: nat :: Leaf(c, k) ==> Worse(c, v, k))
  {
    ScanIsWorst(c);
  }

  // ----- where an entry is

  /** Each entry is listed, or waits to be killed, or is dead; and entries are numbered as they are made. */
  ghost predicate Placed(c: Cache) {
    && (forall e: Fid :: e < |c.table| ==> e in c.servers || e in c.kills || c.table[e].dead)
    && |c.table| == 1 + c.seqNo
  }

  lemma PlacedFork(c: Cache, i: nat, ok: bool)
    requires Shaped(c) && Placed(c) && i < |c.flights|
    ensures Placed(ForkStep(c, i, ok))
  {
    HitTable(c.table, c.flights[i].server);
  }

  lemma PlacedUnlist(c: Cache, v: Fid)
    requires ServersOk(c) && Placed(c)
    ensures Placed(UnlistStep(c, v))
  {
    var d := UnlistStep(c, v);
    WithoutDistinct(c.servers, v);
    forall e: Fid | e < |d.table| ensures e in d.servers || e in d.kills || d.table[e].dead {
      assert e in c.servers && e != v ==> e in Elements(d.servers);
      assert d.kills[|c.kills|] == v;
    }
  }

  lemma PlacedKill(c: Cache, v: Fid)
    requires TableOk(c) && KillsOk(c) && Shaped(c) && Placed(c) && v in c.kills
    ensures Placed(KillStep(c, v))
  {
    KillIsKilled(c, v);
    var d := KillStep(c, v);
    WithoutDistinct(c.kills, v);
    forall e: Fid | e < |d.table| ensures e in d.servers || e in d.kills || d.table[e].dead {
      assert e in c.kills && e != v ==> e in Elements(d.kills);
    }
  }

  lemma PlacedBegin(c: Cache, request: seq<Module>, ok: bool, size: Size)
    requires Shaped(c) && Placed(c)
    ensures Placed(BeginStep(c, request, ok, size))
  {
    var d := BeginStep(c, request, ok, size);
    forall e: Fid | e < |d.table| ensures e in d.servers || e in d.kills || d.table[e].dead {
      assert e < |c.table| ==> d.table[e].dead == c.table[e].dead;
    }
  }

  lemma PlacedStep(c: Cache, st: Step)
    requires Inv(c) && Shaped(c) && Enabled(c, st) && Placed(c)
    ensures Placed(Apply(c, st))
  {
    match st {
      case Begin(request, ok, size) => PlacedBegin(c, request, ok, size);
      case Fork(i, ok) => PlacedFork(c, i, ok);
      case Unlist => PlacedUnlist(c, c.evicting.value);
      case Kill(v) => PlacedKill(c, v);
      case _ =>
    }
  }

  lemma {:induction false} EntriesArePlaced(importable: set<Module>, run: seq<Step>)
    ensures Placed(Exec(Initial(importable), run))
  {
    if run != [] {
      var d := Exec(Initial(importable), run[..|run| - 1]);
      EntriesArePlaced(importable, run[..|run| - 1]);
      assert Reachable(d);
      ReachableInv(d);
      if Enabled(d, run[|run| - 1]) {
        PlacedStep(d, run[|run| - 1]);
      }
    }
  }
}
