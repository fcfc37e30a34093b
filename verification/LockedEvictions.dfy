/**
 Which servers can still be unlisted, when the evictor has to wait for their locks like everybody else and
 some entries may have been left with their locks held.
 */
module LockedEvictions {
  import opened Collections
  import opened SubsetMatcher
  import opened ImportCache
  import opened ImportCacheProofs
  import opened CacheEvictions
  import opened FreshEntries
  import opened LockedCache
  import opened LockedRuns
  import Locks = CacheLocks

  // ----- the thread of the evictor

  predicate EvictorsPc(pc: Locks.Pc) {
    || pc.Idle? || pc.EvictWant? || pc.EvictScan? || pc.EvictWantVictim? || pc.EvictHasVictim? || pc.EvictRemove?
    || pc.LeaveManager?
  }

  predicate HasEvictor(l: Linked) {
    EVICTOR < |l.locks.pc| && EvictorsPc(l.locks.pc[EVICTOR])
  }

  lemma EvictorStep(s: Locks.State, st: Locks.Step)
    requires Locks.Enabled(s, st) && st.t == EVICTOR && EvictorsPc(s.pc[EVICTOR]) && (s.pc[EVICTOR].Idle? ==> !st.flag)
    ensures EVICTOR < |Locks.Apply(s, st).pc| && EvictorsPc(Locks.Apply(s, st).pc[EVICTOR])
  {
  }

  lemma EvictorStays(l: Linked, m: Move)
    requires Reached(l) && HasEvictor(l)
    ensures HasEvictor(After(l, m))
  {
    if CanGo(l, m) && m.Go? {
      Moves(l, m);
      if m.t == EVICTOR {
        EvictorStep(l.locks, LockStep(l, m));
      } else {
        Locks.Footprint(l.locks, LockStep(l, m));
      }
    }
  }

  lemma {:induction false} EvictorRun(requests: nat, importable: set<Module>, moves: seq<Move>)
    ensures HasEvictor(Run(Initially(requests, importable), moves))
  {
    if moves != [] {
      var l := Run(Initially(requests, importable), moves[..|moves| - 1]);
      EvictorRun(requests, importable, moves[..|moves| - 1]);
      assert Reached(l);
      EvictorStays(l, moves[|moves| - 1]);
    }
  }

  lemma ReachedEvictor(l: Linked)
    requires Reached(l)
    ensures HasEvictor(l)
  {
    var requests: nat, importable: set<Module>, moves: seq<Move> :| l == Run(Initially(requests, importable), moves);
    EvictorRun(requests, importable, moves);
  }

  // ----- entries whose creator has not landed

  /** The entry that a thread has made and not forked yet. */
  function Made(pc: Locks.Pc): Option<Fid> {
    match pc
    case WantServer(f, created) => if created then Some(f) else None
    case HasBoth(f, created) => if created then Some(f) else None
    case HasServer(f, created) => if created then Some(f) else None
    case Gone(f) => Some(f)
    case _ => None
  }

  ghost predicate MadeOk(l: Linked) {
    forall t: Locks.Tid :: t < |l.locks.pc| && Made(l.locks.pc[t]).Some? ==> NeverHit(l.cache, Made(l.locks.pc[t]).value)
  }

  lemma ForkElsewhereMade(l: Linked, t: Locks.Tid, u: Locks.Tid)
    requires Reached(l) && t < |l.locks.pc| && u < |l.locks.pc| && t != u && l.locks.pc[t].Forking?
    ensures Made(l.locks.pc[u]) != Some(l.locks.pc[t].server)
  {
    ReachedLinkable(l);
    Locks.ReachableInv(l.locks);
    assert Locks.ThreadOk(l.locks, t) && Locks.ThreadOk(l.locks, u);
    OneIsOnTheWay(l.locks, t, u);
  }

  lemma OthersMade(l: Linked, m: Move, u: Locks.Tid)
    requires Reached(l) && MadeOk(l) && CanGo(l, m) && u < |l.locks.pc| && (m.Go? ==> m.t != u)
    requires Made(l.locks.pc[u]).Some?
    ensures NeverHit(After(l, m).cache, Made(l.locks.pc[u]).value)
  {
    var f := Made(l.locks.pc[u]).value;
    CacheMoves(l, m);
    if CacheStep(l, m).Some? {
      var st := CacheStep(l, m).value;
      if st.Fork? {
        ForkElsewhereMade(l, m.t, u);
        ForkKeepsFresh(l.cache, st.i, st.forkOk, f);
      } else {
        OnlyForksHit(l.cache, st, f);
      }
    }
  }

  lemma MadeBefore(s: Locks.State, st: Locks.Step)
    requires Locks.Enabled(s, st) && Made(Locks.Apply(s, st).pc[st.t]).Some?
    ensures
      || Made(s.pc[st.t]) == Made(Locks.Apply(s, st).pc[st.t])
      || (s.pc[st.t].Creating? && st.flag && Made(Locks.Apply(s, st).pc[st.t]) == Some(s.next))
  {
  }

  lemma JustAdded(l: Linked, m: Move)
    requires Reached(l) && CanGo(l, m) && m.Go? && l.locks.pc[m.t].Creating? && m.ok
    ensures NeverHit(After(l, m).cache, l.locks.next)
  {
    Moves(l, m);
    ReachedLinkable(l);
    BeginCreates(l.cache, l.asked[m.t], m.size);
    CreateIsCreatedHits(l.cache, l.asked[m.t], m.size);
  }

  lemma CreateIsCreatedHits(c: Cache, request: seq<Module>, size: Size)
    requires Shaped(c) && ToCache(ImportsOf(c), request) != [] && !c.full
    ensures NeverHit(BeginStep(c, request, true, size), |c.table|)
  {
    assert Chosen(c, request) < |c.table|;
  }

  lemma SameCache(l: Linked, m: Move)
    requires Reached(l) && CanGo(l, m) && m.Go? && Made(l.locks.pc[m.t]).Some?
    ensures After(l, m).cache == l.cache
  {
    Moves(l, m);
  }

  /** The thread that moves has made nothing new, or an entry that was just added. */
  lemma MoverMade(l: Linked, m: Move)
    requires Reached(l) && MadeOk(l) && CanGo(l, m) && m.Go? && Made(After(l, m).locks.pc[m.t]).Some?
    ensures NeverHit(After(l, m).cache, Made(After(l, m).locks.pc[m.t]).value)
  {
    Moves(l, m);
    MadeBefore(l.locks, LockStep(l, m));
    if Made(l.locks.pc[m.t]).Some? {
      SameCache(l, m);
    } else {
      JustAdded(l, m);
    }
  }

  lemma MadeAfter(l: Linked, m: Move)
    requires Reached(l) && MadeOk(l)
    ensures MadeOk(After(l, m))
  {
    if CanGo(l, m) {
      var r := After(l, m);
      Moves(l, m);
      if m.Go? {
        Locks.Footprint(l.locks, LockStep(l, m));
      }
      forall t: Locks.Tid | t < |r.locks.pc| && Made(r.locks.pc[t]).Some? ensures NeverHit(r.cache, Made(r.locks.pc[t]).value) {
        if m.Go? && t == m.t {
          MoverMade(l, m);
        } else {
          OthersMade(l, m, t);
        }
      }
    }
  }

  lemma {:induction false} MadeRun(requests: nat, importable: set<Module>, moves: seq<Move>)
    ensures MadeOk(Run(Initially(requests, importable), moves))
  {
    if moves != [] {
      var l := Run(Initially(requests, importable), moves[..|moves| - 1]);
      MadeRun(requests, importable, moves[..|moves| - 1]);
      assert Reached(l);
      MadeAfter(l, moves[|moves| - 1]);
    }
  }

  lemma ReachedMade(l: Linked)
    requires Reached(l)
    ensures MadeOk(l)
  {
    var requests: nat, importable: set<Module>, moves: seq<Move> :| l == Run(Initially(requests, importable), moves);
    MadeRun(requests, importable, moves);
  }

  /** An entry that was left is a leaf that was never hit. */
  lemma AbandonedIsFresh(l: Linked, g: Fid)
    requires Reached(l) && Abandoned(l.locks, g)
    ensures NeverHit(l.cache, g) && l.cache.table[g].children == 0 && l.cache.table[g].failed == 0 && g in l.cache.servers
  {
    ReachedMade(l);
    ReachedLinkable(l);
    NeverHitIsLocked(l.cache);
    AbandonedIsListed(l, g);
    assert Made(l.locks.pc[l.locks.owner[g]]) == Some(g);
  }

  // ----- all that can land, lands

  ghost predicate Landed(l: Linked, r: Linked) {
    Gently(l, r) && LooksSame(l.cache, r.cache) && r.cache.kills == l.cache.kills && r.locks.manager.None?
  }

  /** Every request on its way lands, but for one that may be left out, and those that have left. */
  lemma {:induction false} AllLand(l: Linked, but: Fid) returns (moves: seq<Move>)
    requires Reached(l) && WellFormed(l) && l.locks.manager.None?
    ensures
      var r := Run(l, moves);
      && Landed(l, r)
      && (forall f :: f in r.locks.owner ==> Abandoned(r.locks, f) || f == but)
      && (NeverHit(l.cache, but) ==> NeverHit(r.cache, but))
    decreases |l.locks.owner|
  {
    moves := [];
    if f :| f in l.locks.owner && !Abandoned(l.locks, f) && f != but {
      moves := ServerFrees(l, f);
      var r := Run(l, moves);
      var rest := AllLand(r, but);
      RunConcat(l, moves, rest);
      GentlyChain(l, r, Run(r, rest));
      moves := moves + rest;
    }
  }

  lemma {:induction false} AllReaped(l: Linked) returns (moves: seq<Move>)
    requires Reached(l) && WellFormed(l)
    ensures
      var r := Run(l, moves);
      && Gently(l, r) && r.locks == l.locks && LooksSame(l.cache, r.cache) && r.cache.kills == []
    decreases |l.cache.kills|
  {
    moves := [];
    if l.cache.kills != [] {
      var m := Reap(l.cache.kills[0]);
      ReapOne(l, m);
      RunOne(l, m);
      var rest := AllReaped(After(l, m));
      RunConcat(l, [m], rest);
      GentlyChain(l, After(l, m), Run(After(l, m), rest));
      moves := [m] + rest;
    }
  }

  lemma ReapOne(l: Linked, m: Move)
    requires Reached(l) && WellFormed(l) && m.Reap? && m.victim in l.cache.kills
    ensures
      var r := After(l, m);
      && Gently(l, r) && r.locks == l.locks && LooksSame(l.cache, r.cache) && |r.cache.kills| < |l.cache.kills|
  {
    Moves(l, m);
    GentleMove(l, m);
    KillLooksSame(l.cache, m.victim);
    WithoutElements(l.cache.kills, m.victim);
  }

  // ----- one round of the evictor

  function CheckMove(): Move {
    Go(EVICTOR, [], true, true, 1.0)
  }

  lemma EvictorWakes(l: Linked)
    requires Reached(l) && WellFormed(l) && EVICTOR < |l.locks.pc| && l.locks.pc[EVICTOR].Idle?
    ensures
      var r := After(l, Onwards(EVICTOR));
      && Gently(l, r) && r.cache == l.cache && r.locks == Locks.Goto(l.locks, EVICTOR, Locks.EvictWant)
  {
    GentleMove(l, Onwards(EVICTOR));
  }

  lemma EvictorTakes(l: Linked)
    requires Reached(l) && WellFormed(l) && EVICTOR < |l.locks.pc| && l.locks.pc[EVICTOR].EvictWant? && l.locks.manager.None?
    ensures
      var r := After(l, Onwards(EVICTOR));
      && Gently(l, r) && r.cache == l.cache && r.locks.owner == l.locks.owner
      && r.locks.manager == Some(EVICTOR) && Holder(r.locks).EvictScan?
  {
    GentleMove(l, Onwards(EVICTOR));
  }

  lemma EvictorWaits(l: Linked)
    requires Reached(l) && l.locks.manager.None?
    ensures EVICTOR < |l.locks.pc| && (l.locks.pc[EVICTOR].Idle? || l.locks.pc[EVICTOR].EvictWant?)
  {
    ReachedEvictor(l);
    ReachedLinkable(l);
    Locks.ReachableInv(l.locks);
    assert Locks.ThreadOk(l.locks, EVICTOR);
  }

  /** The evictor takes the manager's lock. */
  lemma EvictorEnters(l: Linked) returns (moves: seq<Move>)
    requires Reached(l) && WellFormed(l) && l.locks.manager.None?
    ensures
      var r := Run(l, moves);
      && Gently(l, r) && r.cache == l.cache && r.locks.owner == l.locks.owner
      && r.locks.manager == Some(EVICTOR) && Holder(r.locks).EvictScan?
  {
    EvictorWaits(l);
    RunOne(l, Onwards(EVICTOR));
    moves := [Onwards(EVICTOR)];
    if l.locks.pc[EVICTOR].Idle? {
      var r := After(l, Onwards(EVICTOR));
      EvictorWakes(l);
      EvictorTakes(r);
      RunOne(r, Onwards(EVICTOR));
      RunConcat(l, moves, moves);
      GentlyChain(l, r, After(r, Onwards(EVICTOR)));
      moves := moves + moves;
    } else {
      EvictorTakes(l);
    }
  }

  lemma CheckChooses(c: Cache)
    requires Reachable(c) && Shaped(c) && c.evicting.None? && VictimUpTo(c, |c.servers|) != 0
    ensures
      var d := CheckUsageStep(c, true);
      var v := c.servers[VictimUpTo(c, |c.servers|)];
      && d.evicting == Some(v) && d.servers == c.servers && |d.table| == |c.table| && v in c.servers && v != 0
  {
    VictimIsListed(c, true);
  }

  lemma ChoosesLocks(l: Linked)
    requires Reached(l) && WellFormed(l) && l.locks.manager == Some(EVICTOR) && Holder(l.locks).EvictScan?
    requires VictimUpTo(l.cache, |l.cache.servers|) != 0
    ensures
      var r := After(l, CheckMove());
      var v := l.cache.servers[VictimUpTo(l.cache, |l.cache.servers|)];
      CanGo(l, CheckMove()) && Holder(r.locks) == Locks.EvictWantVictim(v) && r.locks.manager == l.locks.manager
  {
    ReachedLinkable(l);
    CheckChooses(l.cache);
    Moves(l, CheckMove());
    CheckedLocks(l, CheckMove());
  }

  lemma ChoosesCache(l: Linked)
    requires Reached(l) && WellFormed(l) && l.locks.manager == Some(EVICTOR) && Holder(l.locks).EvictScan?
    requires VictimUpTo(l.cache, |l.cache.servers|) != 0 && CanGo(l, CheckMove())
    ensures
      var r := After(l, CheckMove());
      && Gently(l, r) && r.cache.servers == l.cache.servers && |r.cache.table| == |l.cache.table|
      && r.cache.evicting == Some(l.cache.servers[VictimUpTo(l.cache, |l.cache.servers|)])
  {
    CacheMoves(l, CheckMove());
    GentleMove(l, CheckMove());
    CheckChooses(l.cache);
  }

  /** The evictor comes to wait for the lock of its victim. */
  lemma VictimIsChosen(l: Linked) returns (moves: seq<Move>)
    requires Reached(l) && WellFormed(l) && l.locks.manager.None? && VictimUpTo(l.cache, |l.cache.servers|) != 0
    ensures
      var r := Run(l, moves);
      var v := l.cache.servers[VictimUpTo(l.cache, |l.cache.servers|)];
      && Gently(l, r) && |r.cache.table| == |l.cache.table| && r.cache.evicting == Some(v)
      && Holder(r.locks) == Locks.EvictWantVictim(v) && r.locks.manager == Some(EVICTOR)
  {
    moves := EvictorEnters(l);
    var a := Run(l, moves);
    ChoosesLocks(a);
    ChoosesCache(a);
    RunOne(a, CheckMove());
    RunConcat(l, moves, [CheckMove()]);
    GentlyChain(l, a, After(a, CheckMove()));
    moves := moves + [CheckMove()];
  }

  /** A victim whose creator has not left is unlisted. */
  lemma VictimGoes(l: Linked) returns (moves: seq<Move>)
    requires Reached(l) && WellFormed(l) && l.locks.manager.None? && VictimUpTo(l.cache, |l.cache.servers|) != 0
    requires !Abandoned(l.locks, l.cache.servers[VictimUpTo(l.cache, |l.cache.servers|)])
    ensures
      var r := Run(l, moves);
      && Gently(l, r) && r.locks.manager.None? && |r.cache.table| == |l.cache.table|
      && l.cache.servers[VictimUpTo(l.cache, |l.cache.servers|)] !in r.cache.servers
  {
    moves := VictimIsChosen(l);
    var b := Run(l, moves);
    var rest := HolderReleases(b);
    RunConcat(l, moves, rest);
    GentlyChain(l, b, Run(b, rest));
    moves := moves + rest;
    NobodyEvicts(Run(b, rest));
  }

  lemma NobodyEvicts(l: Linked)
    requires Reached(l) && l.locks.manager.None?
    ensures l.cache.evicting.None?
  {
    ReachedLinkable(l);
  }

  // ----- the condition

  /** An entry that was left and was given a size: once it is chosen, the evictor waits for it for good. */
  predicate SizedLeft(l: Linked, g: Fid) {
    Abandoned(l.locks, g) && g < |l.cache.table| && l.cache.table[g].size != 0.0
  }

  /** The entry can be chosen before any that was left: it was never hit, its creator is still on its way,
      nobody with the manager's lock waits for it, and those that were left come after it. */
  ghost predicate CanBeChosen(l: Linked, e: Fid)
    requires WellFormed(l)
  {
    && NeverHit(l.cache, e) && !Abandoned(l.locks, e) && !Awaited(l, e)
    && forall g: Fid :: SizedLeft(l, g) ==> e < g
  }

  ghost predicate CanBeUnlisted(l: Linked, e: Fid)
    requires WellFormed(l)
  {
    && !HeldForGood(l) && Removable(l.cache, e)
    && ((forall g: Fid :: !SizedLeft(l, g)) || l.cache.evicting == Some(e) || CanBeChosen(l, e))
  }

  lemma LeftBefore(l: Linked, r: Linked, g: Fid)
    requires Reached(l) && Gently(l, r) && SizedLeft(r, g)
    ensures SizedLeft(l, g)
  {
    AbandonedIsFresh(l, g);
  }

  lemma StillRemovable(l: Linked, r: Linked, e: Fid)
    requires Reached(l) && WellFormed(l) && Gently(l, r) && e in l.cache.servers && e in r.cache.servers && Removable(l.cache, e)
    ensures Removable(r.cache, e)
  {
    forall d | d in r.cache.servers && InChain(r.cache.table, e, d) ensures !Pinned(r.cache, d) {
      if d < |l.cache.table| {
        LaterChain(l.cache.table, r.cache.table, e, d);
      }
    }
  }

  // ----- without an entry that was left with a size

  lemma FewerServers(c: Cache, d: Cache, v: Fid)
    requires Shaped(c) && Shaped(d) && Unspoiled(c, d) && |d.table| == |c.table| && v in c.servers && v !in d.servers
    ensures |Elements(d.servers)| < |Elements(c.servers)|
  {
    assert forall e :: e in Elements(d.servers) ==> e in c.servers;
    assert v in Elements(c.servers) && v !in Elements(d.servers);
    SubsetSize(Elements(d.servers), Elements(c.servers));
  }

  /** The evictor goes on until it finds no victim. */
  lemma {:induction false} EvictAll(l: Linked) returns (moves: seq<Move>)
    requires Reached(l) && WellFormed(l) && l.locks.manager.None? && forall g: Fid :: !SizedLeft(l, g)
    ensures
      var r := Run(l, moves);
      && Gently(l, r) && r.cache.kills == [] && VictimUpTo(r.cache, |r.cache.servers|) == 0
    decreases |Elements(l.cache.servers)|
  {
    moves := AllReaped(l);
    var a := Run(l, moves);
    var idx := VictimUpTo(a.cache, |a.cache.servers|);
    if idx != 0 {
      var v := a.cache.servers[idx];
      assert v in a.cache.servers;
      if SizedLeft(a, v) {
        LeftBefore(l, a, v);
      }
      var one := VictimGoes(a);
      var b := Run(a, one);
      RunConcat(l, moves, one);
      GentlyChain(l, a, b);
      FewerServers(a.cache, b.cache, v);
      forall g: Fid ensures !SizedLeft(b, g) {
        if SizedLeft(b, g) {
          LeftBefore(l, b, g);
        }
      }
      var rest := EvictAll(b);
      RunConcat(l, moves + one, rest);
      GentlyChain(l, b, Run(b, rest));
      moves := moves + one + rest;
    }
  }

  lemma NoneLeftUnlists(l: Linked, e: Fid) returns (moves: seq<Move>)
    requires Reached(l) && WellFormed(l) && l.locks.manager.None? && forall g: Fid :: !SizedLeft(l, g)
    requires e in l.cache.servers && e != 0 && Removable(l.cache, e)
    ensures e !in Run(l, moves).cache.servers
  {
    moves := EvictAll(l);
    var d := Run(l, moves).cache;
    if e in d.servers {
      StillRemovable(l, Run(l, moves), e);
      ReachedLinkable(Run(l, moves));
      var m := LeafBelow(d, e);
      ChainIsOlder(d.table, e, m);
      LeafIsVictim(d, m);
      assert false;
    }
  }

  // ----- in front of those that were left

  lemma FreshIsChosen(l: Linked, e: Fid)
    requires Reached(l) && WellFormed(l) && l.locks.manager.None? && NeverHit(l.cache, e) && e in l.cache.servers
    requires l.cache.table[e].size != 0.0
    requires forall f :: f in l.locks.owner ==> Abandoned(l.locks, f) || f == e
    requires forall g: Fid :: SizedLeft(l, g) ==> e < g
    ensures
      var idx := VictimUpTo(l.cache, |l.cache.servers|);
      idx != 0 && l.cache.servers[idx] == e
  {
    var c := l.cache;
    ReachedLinkable(l);
    NeverHitIsLocked(c);
    ListIsATree(c);
    assert SizedLeaf(c, e);
    ScanFindsLeaf(c);
    ScanFindsVictim(c, |c.servers|);
    var idx := VictimUpTo(c, |c.servers|);
    var k :| 0 <= k < |c.servers| && c.servers[k] == e;
    assert k != 0;
    VictimWasNeverHit(c, idx, k);
    var v := c.servers[idx];
    assert FlownBy(l.locks, v);
    assert Abandoned(l.locks, v) ==> SizedLeft(l, v);
  }

  /** A victim with no worse ratio than a server that was never hit, was never hit itself. */
  lemma VictimWasNeverHit(c: Cache, idx: nat, k: nat)
    requires Shaped(c) && c.servers[0] == 0 && Distinct(c.servers) && Ascending(c.servers)
    requires IsVictim(c, |c.servers|, idx) && 0 < idx < |c.servers| && 0 < k < |c.servers|
    requires NeverHit(c, c.servers[k]) && Evictable(c.table[c.servers[k]])
    ensures NeverHit(c, c.servers[idx]) && c.table[c.servers[idx]].size != 0.0 && c.servers[idx] <= c.servers[k]
  {
    RatioOfNone(c.table[c.servers[k]]);
    RatioOfSome(c.table[c.servers[idx]]);
    assert c.servers[0] != c.servers[idx];
  }

  lemma RatioOfNone(s: ForkServer)
    requires s.size != 0.0 && s.hits == 0
    ensures Ratio(s) == 0.0
  {
  }

  lemma RatioOfSome(s: ForkServer)
    requires s.size != 0.0
    ensures Ratio(s) >= 0.0 && (s.hits > 0 ==> Ratio(s) > 0.0)
  {
  }

  lemma FreshUnlists(l: Linked, e: Fid) returns (moves: seq<Move>)
    requires Reached(l) && WellFormed(l) && l.locks.manager.None? && e in l.cache.servers && CanBeChosen(l, e)
    requires l.cache.table[e].size != 0.0
    ensures e !in Run(l, moves).cache.servers
  {
    moves := AllLand(l, e);
    var r := Run(l, moves);
    forall g: Fid | SizedLeft(r, g) ensures e < g {
      LeftBefore(l, r, g);
    }
    FreshIsChosen(r, e);
    var rest := VictimGoes(r);
    RunConcat(l, moves, rest);
    moves := moves + rest;
  }

  // ----- some continuation unlists the server

  lemma NotPinned(c: Cache, e: Fid)
    requires Shaped(c) && Removable(c, e) && e in c.servers
    ensures c.table[e].size != 0.0 && c.table[e].failed == 0
  {
    assert InChain(c.table, e, e);
    assert !Pinned(c, e);
  }

  /** First, the manager's lock comes free; that may already unlist the server. */
  lemma ManagerComesFree(l: Linked, e: Fid) returns (moves: seq<Move>)
    requires Reached(l) && WellFormed(l) && e in l.cache.servers && CanBeUnlisted(l, e)
    ensures
      var r := Run(l, moves);
      && Gently(l, r) && r.locks.manager.None?
      && (e in r.cache.servers ==> Removable(r.cache, e) && ((forall g: Fid :: !SizedLeft(r, g)) || CanBeChosen(r, e)))
  {
    moves := [];
    if l.locks.manager.Some? {
      moves := HolderReleases(l);
    } else {
      ReachedLinkable(l);
    }
    var r := Run(l, moves);
    ReachedLinkable(r);
    if e in r.cache.servers {
      StillRemovable(l, r, e);
      forall g: Fid | SizedLeft(r, g) ensures SizedLeft(l, g) {
        LeftBefore(l, r, g);
      }
    }
  }

  lemma CanBeUnlistedIs(l: Linked, e: Fid) returns (moves: seq<Move>)
    requires Reached(l) && WellFormed(l) && e in l.cache.servers && e != 0 && CanBeUnlisted(l, e)
    ensures e !in Run(l, moves).cache.servers
  {
    moves := ManagerComesFree(l, e);
    var r := Run(l, moves);
    if e in r.cache.servers {
      var rest: seq<Move>;
      if forall g: Fid :: !SizedLeft(r, g) {
        rest := NoneLeftUnlists(r, e);
      } else {
        NotPinned(r.cache, e);
        rest := FreshUnlists(r, e);
      }
      RunConcat(l, moves, rest);
      moves := moves + rest;
    }
  }

  // ----- no continuation unlists the server

  /** Some entry was left with a size, and the server comes after it in the choice of a victim. */
  ghost predicate Shielded(l: Linked, e: Fid)
    requires WellFormed(l)
  {
    && 0 < e < |l.cache.table| && e in l.cache.servers && l.cache.evicting != Some(e) && (exists g: Fid :: SizedLeft(l, g))
    && (l.cache.table[e].hits > 0 || (exists g: Fid :: SizedLeft(l, g) && g < e) || Awaited(l, e))
  }

  lemma LeftStays(l: Linked, m: Move, g: Fid)
    requires Reached(l) && SizedLeft(l, g)
    ensures SizedLeft(After(l, m), g)
  {
    AbandonedAfter(l, m, g);
    ReachedLinkable(l);
    if CanGo(l, m) && CacheStep(l, m).Some? {
      Moves(l, m);
      LaterStep(l.cache, CacheStep(l, m).value);
    }
  }

  /** A victim is not worse than an entry that was left with a size, and comes first among equals. */
  lemma CheckSpares(l: Linked, e: Fid, g: Fid)
    requires Reached(l) && WellFormed(l) && SizedLeft(l, g) && e in l.cache.servers && 0 < e < |l.cache.table|
    requires l.cache.table[e].hits > 0 || g < e
    ensures
      var idx := VictimUpTo(l.cache, |l.cache.servers|);
      idx != 0 ==> l.cache.servers[idx] != e
  {
    var c := l.cache;
    ReachedLinkable(l);
    AbandonedIsFresh(l, g);
    NeverHitIsLocked(c);
    ListIsATree(c);
    ScanFindsVictim(c, |c.servers|);
    var idx := VictimUpTo(c, |c.servers|);
    var k :| 0 <= k < |c.servers| && c.servers[k] == g;
    assert k != 0;
    if idx != 0 {
      VictimWasNeverHit(c, idx, k);
    }
  }

  lemma OnlyVictimsGo(c: Cache, st: Step, e: Fid)
    requires Shaped(c) && Enabled(c, st) && Distinct(c.servers) && e in c.servers && c.evicting != Some(e)
    ensures e in Apply(c, st).servers && (!st.CheckUsage? ==> Apply(c, st).evicting != Some(e))
  {
    match st {
      case Unlist =>
        WithoutDistinct(c.servers, c.evicting.value);
        assert e in Elements(c.servers) - {c.evicting.value};
      case _ =>
    }
  }

  /** What a step leaves of a listed server that is not the victim, unless the step is a check. */
  ghost predicate Kept(c: Cache, d: Cache, e: Fid) {
    && e in d.servers && e < |c.table| <= |d.table| && d.table[e].hits >= c.table[e].hits
  }

  lemma StepKeeps(c: Cache, st: Step, e: Fid)
    requires Reachable(c) && Shaped(c) && Enabled(c, st) && e in c.servers && c.evicting != Some(e)
    ensures Kept(c, Apply(c, st), e) && (!st.CheckUsage? ==> Apply(c, st).evicting != Some(e))
  {
    ListIsATree(c);
    HitsGrowStep(c, st);
    OnlyVictimsGo(c, st, e);
  }

  lemma StaysUnchosen(l: Linked, m: Move, e: Fid)
    requires Reached(l) && WellFormed(l) && CanGo(l, m) && Shielded(l, e)
    ensures Kept(l.cache, After(l, m).cache, e) && After(l, m).cache.evicting != Some(e)
  {
    CacheMoves(l, m);
    if CacheStep(l, m).Some? {
      StepKeeps(l.cache, CacheStep(l, m).value, e);
      if CacheStep(l, m).value.CheckUsage? {
        CheckedElsewhere(l, m, e);
      }
    }
  }

  lemma CheckedElsewhere(l: Linked, m: Move, e: Fid)
    requires Reached(l) && WellFormed(l) && CanGo(l, m) && Shielded(l, e) && m.Go? && l.locks.pc[m.t].EvictScan?
    ensures CheckUsageStep(l.cache, m.over).evicting != Some(e)
  {
    ReachedLinkable(l);
    Locks.ReachableInv(l.locks);
    assert Locks.ThreadOk(l.locks, m.t);
    assert !Awaited(l, e);
    var g: Fid :| SizedLeft(l, g) && (l.cache.table[e].hits > 0 || g < e);
    CheckSpares(l, e, g);
  }

  /** While somebody with the manager's lock waits for a server that was never hit, he goes on waiting. */
  lemma StillAwaited(l: Linked, m: Move, e: Fid)
    requires Reached(l) && WellFormed(l) && CanGo(l, m) && Awaited(l, e) && NeverHit(l.cache, e)
    ensures WellFormed(After(l, m)) && Awaited(After(l, m), e)
  {
    Moves(l, m);
    if ByOutsider(l, m) {
      OutsiderMoves(l, m);
      OutsiderNeeds(l, m);
    } else {
      AwaitedIsTaken(l, e);
      DecidedNeeds(l, m);
    }
  }

  lemma AwaitedIsTaken(l: Linked, e: Fid)
    requires Reached(l) && WellFormed(l) && Awaited(l, e) && NeverHit(l.cache, e)
    ensures e in l.locks.owner
  {
    ReachedLinkable(l);
    NeverHitIsLocked(l.cache);
    assert FlownBy(l.locks, e);
  }

  lemma ShieldedAfter(l: Linked, m: Move, e: Fid)
    requires Reached(l) && WellFormed(l) && Shielded(l, e)
    ensures WellFormed(After(l, m)) && Shielded(After(l, m), e)
  {
    if CanGo(l, m) {
      Moves(l, m);
      StaysUnchosen(l, m, e);
      forall g: Fid | SizedLeft(l, g) ensures SizedLeft(After(l, m), g) {
        LeftStays(l, m, g);
      }
      if l.cache.table[e].hits == 0 && Awaited(l, e) {
        StillAwaited(l, m, e);
      }
    }
  }

  lemma {:induction false} ShieldedStays(l: Linked, e: Fid, moves: seq<Move>)
    requires Reached(l) && WellFormed(l) && Shielded(l, e)
    ensures WellFormed(Run(l, moves)) && Shielded(Run(l, moves), e)
  {
    if moves != [] {
      ShieldedStays(l, e, moves[..|moves| - 1]);
      ReachedRun(l, moves[..|moves| - 1]);
      ShieldedAfter(Run(l, moves[..|moves| - 1]), moves[|moves| - 1], e);
    }
  }

  lemma UnremovableIsKept(l: Linked, e: Fid, moves: seq<Move>)
    requires Reached(l) && WellFormed(l) && !Removable(l.cache, e)
    ensures e in Run(l, moves).cache.servers
  {
    ReachedLinkable(l);
    var d :| d in l.cache.servers && InChain(l.cache.table, e, d) && Pinned(l.cache, d);
    var run := CacheRun(l, moves);
    UnremovableStays(l.cache, e, d, run);
  }

  lemma CannotBeUnlistedStays(l: Linked, e: Fid, moves: seq<Move>)
    requires Reached(l) && WellFormed(l) && e in l.cache.servers && e != 0 && !CanBeUnlisted(l, e)
    ensures e in Run(l, moves).cache.servers
  {
    ReachedLinkable(l);
    if HeldForGood(l) {
      HeldRun(l, moves);
    } else if !Removable(l.cache, e) {
      UnremovableIsKept(l, e, moves);
    } else if Abandoned(l.locks, e) {
      AbandonedStays(l, e, moves);
    } else {
      LeftIsOther(l, e);
      ShieldedStays(l, e, moves);
    }
  }

  lemma LeftIsOther(l: Linked, e: Fid)
    requires Reached(l) && WellFormed(l) && e in l.cache.servers && e != 0 && !CanBeUnlisted(l, e)
    requires !HeldForGood(l) && Removable(l.cache, e) && !Abandoned(l.locks, e)
    ensures Shielded(l, e)
  {
    ReachedLinkable(l);
    if l.cache.table[e].hits == 0 && !Awaited(l, e) {
      var g: Fid :| SizedLeft(l, g) && !(e < g);
      assert g != e;
    }
  }

  /** In the state of every interleaving, some continuation takes a server other than the root off the list
      if and only if: the manager's lock is not held for good; no listed server from it downwards lacks a
      size or has seen a creation fail; and no entry was left with a size, or the server is the victim
      already, or it can be chosen before any that was left. */
  lemma UnlistedIff(l: Linked, e: Fid)
    requires Reached(l) && WellFormed(l) && e in l.cache.servers && e != 0
    ensures (exists moves :: e !in Run(l, moves).cache.servers) <==> CanBeUnlisted(l, e)
  {
    if CanBeUnlisted(l, e) {
      var moves := CanBeUnlistedIs(l, e);
    } else {
      forall moves ensures e in Run(l, moves).cache.servers {
        CannotBeUnlistedStays(l, e, moves);
      }
    }
  }
}
