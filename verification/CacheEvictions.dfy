/**
 Which fork servers the evictor can ever take off the list: an entry without a size is never chosen,
 and a failed creation counts as a child of its base for good.
 */
module CacheEvictions {
  import opened Collections
  import opened SubsetMatcher
  import opened ImportCache
  import opened ImportCacheProofs

  // ----- one check

  predicate SizedLeaf(c: Cache, e: Fid) {
    e in c.servers && 0 < e < |c.table| && c.table[e].children == 0 && c.table[e].size != 0.0
  }

  lemma ScanFindsLeaf(c: Cache)
    requires Shaped(c) && c.servers[0] == 0 && Distinct(c.servers)
    ensures VictimUpTo(c, |c.servers|) != 0 <==> exists e: Fid :: SizedLeaf(c, e)
  {
    var idx := VictimUpTo(c, |c.servers|);
    ScanFindsVictim(c, |c.servers|);
    if idx != 0 {
      var v := c.servers[idx];
      assert v in c.servers && c.servers[0] != v;
      assert SizedLeaf(c, v);
    }
    if e: Fid :| SizedLeaf(c, e) {
      var k :| 0 <= k < |c.servers| && c.servers[k] == e;
      assert k != 0 && Evictable(c.table[c.servers[k]]);
    }
  }

  /** A check over the limit chooses a victim if and only if some listed server other than the root has
      no children and was given a size. */
  lemma VictimFoundIff(c: Cache)
    requires Reachable(c) && Shaped(c) && c.evicting.None?
    ensures CheckUsageStep(c, true).evicting.Some? <==> exists e: Fid :: SizedLeaf(c, e)
    ensures IsVictim(c, |c.servers|, VictimUpTo(c, |c.servers|))
  {
    ListIsATree(c);
    ScanFindsLeaf(c);
    ScanFindsVictim(c, |c.servers|);
  }

  // ----- what a run keeps of an entry

  /** From `c` on to `d`: entries stay, with their parents and sizes, and failures add up. */
  ghost predicate Later(c: Cache, d: Cache) {
    && |c.table| <= |d.table|
    && forall e {:trigger c.table[e]} {:trigger d.table[e]} :: 0 <= e < |c.table| ==>
         && d.table[e].parent == c.table[e].parent && d.table[e].size == c.table[e].size
         && d.table[e].failed >= c.table[e].failed
  }

  lemma LaterStep(c: Cache, st: Step)
    requires Shaped(c) && Enabled(c, st)
    ensures Later(c, Apply(c, st))
  {
    match st {
      case Fork(i, _) => HitTable(c.table, c.flights[i].server);
      case _ =>
    }
  }

  lemma NextStep(c: Cache, st: Step)
    requires Reachable(c) && Shaped(c)
    ensures Reachable(Next(c, st)) && Shaped(Next(c, st)) && Later(c, Next(c, st))
  {
    if Enabled(c, st) {
      ReachableStep(c, st);
      LaterStep(c, st);
    }
  }

  lemma {:induction false} LaterRun(c: Cache, run: seq<Step>)
    requires Reachable(c) && Shaped(c)
    ensures Reachable(Exec(c, run)) && Shaped(Exec(c, run)) && Later(c, Exec(c, run))
  {
    if run != [] {
      LaterRun(c, run[..|run| - 1]);
      NextStep(Exec(c, run[..|run| - 1]), run[|run| - 1]);
    }
  }

  lemma {:induction false} LaterChain(t: seq<ForkServer>, t': seq<ForkServer>, k: Fid, e: Fid)
    requires Tree(t) && Tree(t') && e < |t| <= |t'|
    requires forall i {:trigger t[i]} :: 0 <= i < |t| ==> t[i].parent == t'[i].parent
    ensures InChain(t, k, e) == InChain(t', k, e)
    decreases e
  {
    if t[e].parent.Some? {
      LaterChain(t, t', k, t[e].parent.value);
    }
  }

  // ----- entries that stay

  /** The evictor never chooses this server. */
  predicate Pinned(c: Cache, e: Fid) {
    e in c.servers && e < |c.table| && (c.table[e].failed > 0 || c.table[e].size == 0.0)
  }

  lemma PinnedUnlist(c: Cache, e: Fid)
    requires ServersOk(c) && ChildrenOk(c) && EvictingOk(c) && c.evicting.Some? && Pinned(c, e)
    ensures e in Without(c.servers, c.evicting.value)
  {
    var v := c.evicting.value;
    WithoutDistinct(c.servers, v);
    assert c.table[e].failed > 0 ==> c.table[e].children > 0;
    assert e in Elements(c.servers) - {v};
  }

  lemma PinnedStep(c: Cache, e: Fid, st: Step)
    requires Reachable(c) && Shaped(c) && Enabled(c, st) && Pinned(c, e)
    ensures Pinned(Apply(c, st), e)
  {
    LaterStep(c, st);
    match st {
      case Unlist =>
        ReachableInv(c);
        PinnedUnlist(c, e);
      case _ =>
    }
  }

  lemma {:induction false} PinnedRun(c: Cache, e: Fid, run: seq<Step>)
    requires Reachable(c) && Shaped(c) && Pinned(c, e)
    ensures Pinned(Exec(c, run), e)
  {
    if run != [] {
      var d := Exec(c, run[..|run| - 1]);
      PinnedRun(c, e, run[..|run| - 1]);
      LaterRun(c, run[..|run| - 1]);
      if Enabled(d, run[|run| - 1]) {
        PinnedStep(d, e, run[|run| - 1]);
      }
    }
  }

  lemma {:induction false} AncestorsAreListed(c: Cache, k: Fid, e: Fid)
    requires Reachable(c) && Shaped(c) && e in c.servers && InChain(c.table, k, e)
    ensures k in c.servers
    decreases e
  {
    if k != e {
      ReachableInv(c);
      AncestorsAreListed(c, k, c.table[e].parent.value);
    }
  }

  // ----- what can be evicted

  /** Below each listed server is a listed one without listed children. */
  lemma {:induction false} LeafBelow(c: Cache, e: Fid) returns (m: Fid)
    requires Shaped(c) && e in c.servers
    ensures m in c.servers && InChain(c.table, e, m) && Kids(c.table, c.servers, m) == 0
    decreases |c.table| - e
  {
    if Kids(c.table, c.servers, e) == 0 {
      m := e;
    } else {
      if forall k :: k in c.servers ==> !IsChild(c.table, k, e) {
        NoKids(c.table, c.servers, e);
      }
      var k :| k in c.servers && IsChild(c.table, k, e);
      m := LeafBelow(c, k);
      ChainHoldsParent(c.table, k, m);
    }
  }

  lemma LeafIsVictim(c: Cache, m: Fid)
    requires Reachable(c) && Shaped(c) && c.kills == [] && m in c.servers && m != 0
    requires Kids(c.table, c.servers, m) == 0 && !Pinned(c, m)
    ensures VictimUpTo(c, |c.servers|) != 0
  {
    ChildrenAccounting(c, m);
    ListIsATree(c);
    assert SizedLeaf(c, m);
    ScanFindsLeaf(c);
  }

  /** Each listed server below `e`, and `e` itself, was given a size and saw no creation fail. */
  ghost predicate Removable(c: Cache, e: Fid)
    requires Shaped(c)
  {
    forall d :: d in c.servers && InChain(c.table, e, d) ==> !Pinned(c, d)
  }

  lemma UnremovableStays(c: Cache, e: Fid, d: Fid, run: seq<Step>)
    requires Reachable(c) && Shaped(c) && d in c.servers && InChain(c.table, e, d) && Pinned(c, d)
    ensures e in Exec(c, run).servers
  {
    PinnedRun(c, d, run);
    LaterRun(c, run);
    LaterChain(c.table, Exec(c, run).table, e, d);
    AncestorsAreListed(Exec(c, run), e, d);
  }

  // ----- the first entry of a cache

  /** The cache after one served request: the root, and an entry for the modules of the request. */
  ghost predicate OneEntry(c: Cache, first: seq<Module>, size: Size) {
    && c.servers == [0, 1] && |c.table| == 2 && !c.full
    && c.flights == [] && c.kills == [] && c.evicting.None?
    && c.table[0].parent.None? && c.table[1].parent == Some(0)
    && c.table[0].imports == {} && c.table[1].imports == Elements(first)
    && c.table[1].loaded == Elements(first) * c.importable
    && c.table[1].children == 0 && c.table[1].failed == 0 && c.table[1].size == size
  }

  lemma FirstBegin(importable: set<Module>, first: seq<Module>, size: Size)
    requires first != []
    ensures
      var c := Initial(importable);
      && Shaped(c) && Enabled(c, Begin(first, true, size))
      && var d := BeginStep(c, first, true, size);
         && Shaped(d) && d.flights == [Flight(1, [], first)] && OneEntry(d.(flights := []), first, size)
         && d.importable == importable
  {
    var c := Initial(importable);
    assert c.servers[0] == 0;
    assert ImportsOf(c) == [{}];
    assert ToCache(ImportsOf(c), first) == first;
    assert Chosen(c, first) == 0;
    var d := BeginStep(c, first, true, size);
    assert d.table[1] == NewEntry(c, 0, first, size);
  }

  lemma FirstFork(c: Cache, first: seq<Module>, size: Size)
    requires Shaped(c) && c.flights == [Flight(1, [], first)] && OneEntry(c.(flights := []), first, size)
    ensures OneEntry(ForkStep(c, 0, true), first, size) && ForkStep(c, 0, true).importable == c.importable
  {
    HitTable(c.table, 1);
  }

  lemma OneEntryIsReached(importable: set<Module>, first: seq<Module>, size: Size) returns (run: seq<Step>)
    requires first != []
    ensures Sized(run, size)
    ensures
      var c := Exec(Initial(importable), run);
      Reachable(c) && Shaped(c) && OneEntry(c, first, size) && c.importable == importable
  {
    FirstBegin(importable, first, size);
    var start := Initial(importable);
    var begin := [Begin(first, true, size)];
    assert begin[..0] == [];
    assert Exec(start, []) == start;
    var d := BeginStep(start, first, true, size);
    assert Exec(start, begin) == d;
    run := begin + [Fork(0, true)];
    assert run[..1] == begin;
    assert Exec(start, run) == ForkStep(d, 0, true);
    FirstFork(d, first, size);
    ReachableInv(Exec(start, run));
  }

  // ----- what the size of new entries decides

  /** Each new entry of the run is given this size. */
  ghost predicate Sized(run: seq<Step>, size: Size) {
    forall i :: 0 <= i < |run| && run[i].Begin? ==> run[i].size == size
  }

  /** Nothing was ever unlisted or chosen to be. */
  ghost predicate NeverEvicted(c: Cache) {
    c.evicting.None? && c.kills == [] && |c.servers| == 1 + c.seqNo
  }

  ghost predicate NoSizes(c: Cache) {
    forall e {:trigger c.table[e]} :: 0 < e < |c.table| ==> c.table[e].size == 0.0
  }

  lemma NoVictim(c: Cache)
    requires ServersOk(c) && Shaped(c) && NoSizes(c)
    ensures VictimUpTo(c, |c.servers|) == 0
  {
    assert forall i :: 0 < i < |c.servers| ==> c.servers[i] != c.servers[0] && c.servers[i] in c.servers;
  }

  lemma NeverEvictedStep(c: Cache, st: Step)
    requires ServersOk(c) && Shaped(c) && Enabled(c, st) && (st.Begin? ==> st.size == 0.0)
    requires NoSizes(c) && NeverEvicted(c)
    ensures NeverEvicted(Apply(c, st)) && NoSizes(Apply(c, st))
  {
    NoVictim(c);
    LaterStep(c, st);
  }

  /** With the size that the code gives, the list only ever grows, whatever is asked. */
  lemma {:induction false} NothingIsEverEvicted(importable: set<Module>, run: seq<Step>)
    requires Sized(run, 0.0)
    ensures
      var c := Exec(Initial(importable), run);
      NeverEvicted(c) && NoSizes(c)
  {
    if run != [] {
      var init := run[..|run| - 1];
      assert forall i :: 0 <= i < |init| ==> init[i] == run[i];
      NothingIsEverEvicted(importable, init);
      InvInitial(importable);
      InvRun(Initial(importable), init);
      var c := Exec(Initial(importable), init);
      if Enabled(c, run[|run| - 1]) {
        NeverEvictedStep(c, run[|run| - 1]);
      }
    }
  }

  lemma CheckEvictsEntry(c: Cache, size: Size)
    requires Shaped(c) && OneEntry(c, ["m"], size) && size != 0.0
    ensures Enabled(c, CheckUsage(true)) && Apply(c, CheckUsage(true)).evicting.Some?
  {
    ScanFindsVictim(c, 2);
    assert Evictable(c.table[c.servers[1]]);
  }

  /** When all entries are given one size, nothing is ever evicted if and only if that size is zero. */
  lemma NeverEvictedIffNoSize(importable: set<Module>, size: Size)
    ensures (forall run :: Sized(run, size) ==> NeverEvicted(Exec(Initial(importable), run))) <==> size == 0.0
  {
    if size == 0.0 {
      forall run | Sized(run, size) ensures NeverEvicted(Exec(Initial(importable), run)) {
        NothingIsEverEvicted(importable, run);
      }
    } else {
      var run := OneEntryIsReached(importable, ["m"], size);
      var c := Exec(Initial(importable), run);
      CheckEvictsEntry(c, size);
      var run' := run + [CheckUsage(true)];
      assert run'[..|run|] == run;
      assert Sized(run', size);
      assert !NeverEvicted(Exec(Initial(importable), run'));
    }
  }

  // ----- a failed creation

  lemma CreationBelowEntryFails(c: Cache, size: Size)
    requires Shaped(c) && OneEntry(c, ["a"], size)
    ensures Enabled(c, Begin(["a", "b"], false, size))
    ensures
      var d := BeginStep(c, ["a", "b"], false, size);
      d.servers == [0, 1] && |d.table| == 2 && d.table[1].failed == 1 && d.table[1].children == 1
  {
    var request := ["a", "b"];
    assert ImportsOf(c) == [{}, {"a"}] by {
      assert Elements(["a"]) == {"a"};
    }
    MatchedPair();
    assert BestUpTo(ImportsOf(c), request, 1) == 0;
    assert Best(ImportsOf(c), request) == 1;
    assert Chosen(c, request) == 1;
  }

  lemma MatchedPair()
    ensures Matched({"a"}, ["a", "b"]) == 1 && Remainder({"a"}, ["a", "b"]) == ["b"]
  {
    assert ["a", "b"][..1] == ["a"] && ["a"][..0] == [];
    assert Matched({"a"}, ["a"]) == 1 && Remainder({"a"}, ["a"]) == [];
  }

  /** A run in which a creation below an entry fails. However the sizes, the entry is never unlisted. */
  lemma FailedCreationPinsServer(size: Size) returns (run: seq<Step>)
    ensures
      var c := Exec(Initial({}), run);
      && c.servers == [0, 1] && |c.table| == 2 && c.table[1].failed == 1 && c.table[1].size == size
      && forall more :: 1 in Exec(c, more).servers
  {
    run := OneEntryIsReached({}, ["a"], size);
    var c := Exec(Initial({}), run);
    CreationBelowEntryFails(c, size);
    var st := Begin(["a", "b"], false, size);
    LaterStep(c, st);
    ReachableStep(c, st);
    assert (run + [st])[..|run|] == run;
    run := run + [st];
    var d := Exec(Initial({}), run);
    forall more ensures 1 in Exec(d, more).servers {
      PinnedRun(d, 1, more);
    }
  }
}
