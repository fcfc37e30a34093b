/**
 What can still happen to the cache under its locks. A Provision whose new entry does not come up returns
 with the entry's lock held, so that the entry is never forked or unlisted; and whoever waits for that
 lock keeps the manager's lock for good. Otherwise every wait comes to its end in some continuation.
 */
module LockedRuns {
  import opened Collections
  import opened SubsetMatcher
  import opened ImportCache
  import opened ImportCacheProofs
  import opened CacheEvictions
  import opened FreshEntries
  import opened LockedCache
  import Locks = CacheLocks

  // ----- the states of all interleavings

  ghost predicate Reached(l: Linked) {
    exists requests: nat, importable: set<Module>, moves: seq<Move> :: l == Run(Initially(requests, importable), moves)
  }

  lemma ReachedAfter(l: Linked, m: Move)
    requires Reached(l)
    ensures Reached(After(l, m))
  {
    var requests: nat, importable: set<Module>, moves: seq<Move> :| l == Run(Initially(requests, importable), moves);
    assert (moves + [m])[..|moves|] == moves;
    assert After(l, m) == Run(Initially(requests, importable), moves + [m]);
  }

  lemma {:induction false} ReachedRun(l: Linked, moves: seq<Move>)
    requires Reached(l)
    ensures Reached(Run(l, moves))
  {
    if moves != [] {
      ReachedRun(l, moves[..|moves| - 1]);
      ReachedAfter(Run(l, moves[..|moves| - 1]), moves[|moves| - 1]);
    }
  }

  lemma ReachedLinkable(l: Linked)
    requires Reached(l)
    ensures Linkable(l) && WellFormed(l)
  {
    var requests: nat, importable: set<Module>, moves: seq<Move> :| l == Run(Initially(requests, importable), moves);
    RunIsLinkable(requests, importable, moves);
  }

  lemma {:induction false} RunConcat(l: Linked, a: seq<Move>, b: seq<Move>)
    ensures Run(l, a + b) == Run(Run(l, a), b)
  {
    if b == [] {
      assert a + b == a;
    } else {
      RunConcat(l, a, b[..|b| - 1]);
      assert (a + b)[..|a + b| - 1] == a + b[..|b| - 1];
    }
  }

  lemma RunOne(l: Linked, m: Move)
    ensures Run(l, [m]) == After(l, m)
  {
    assert [m][..0] == [];
    assert Run(l, []) == l;
  }

  /** A move goes on in the protocol and in the cache as the two models say. */
  lemma Moves(l: Linked, m: Move)
    requires Reached(l) && CanGo(l, m)
    ensures Reached(After(l, m)) && GoesWell(l, m) && WellFormed(After(l, m))
    ensures m.Go? ==> Locks.Inv(l.locks) && After(l, m).locks == Locks.Apply(l.locks, LockStep(l, m))
  {
    ReachedLinkable(l);
    Locks.ReachableInv(l.locks);
    MoveGoesWell(l, m);
    ReachedAfter(l, m);
  }

  /** The same, as far as the cache is concerned. */
  lemma CacheMoves(l: Linked, m: Move)
    requires Reached(l) && CanGo(l, m)
    ensures Reached(After(l, m)) && WellFormed(After(l, m)) && Reachable(l.cache)
    ensures CacheStep(l, m).None? ==> After(l, m).cache == l.cache
    ensures CacheStep(l, m).Some? ==>
              Enabled(l.cache, CacheStep(l, m).value) && After(l, m).cache == Apply(l.cache, CacheStep(l, m).value)
  {
    ReachedLinkable(l);
    Moves(l, m);
  }

  /** The moves make a run of the cache. */
  lemma {:induction false} CacheRun(l: Linked, moves: seq<Move>) returns (run: seq<Step>)
    requires Reached(l)
    ensures Run(l, moves).cache == ImportCacheProofs.Exec(l.cache, run)
  {
    if moves == [] {
      run := [];
    } else {
      var k := Run(l, moves[..|moves| - 1]);
      var m := moves[|moves| - 1];
      run := CacheRun(l, moves[..|moves| - 1]);
      ReachedRun(l, moves[..|moves| - 1]);
      if CanGo(k, m) && CacheStep(k, m).Some? {
        var st := CacheStep(k, m).value;
        assert (run + [st])[..|run|] == run;
        run := run + [st];
      }
    }
  }

  // ----- entries that were left

  /** The thread that made the entry has left with its lock. */
  predicate Abandoned(s: Locks.State, f: Fid) {
    f in s.owner && s.owner[f] < |s.pc| && s.pc[s.owner[f]] == Locks.Gone(f)
  }

  lemma AbandonedStep(s: Locks.State, st: Locks.Step, f: Fid)
    requires Locks.Inv(s) && Locks.Enabled(s, st) && Abandoned(s, f)
    ensures Abandoned(Locks.Apply(s, st), f)
  {
    Locks.Footprint(s, st);
  }

  lemma AbandonedAfter(l: Linked, m: Move, f: Fid)
    requires Reached(l) && Abandoned(l.locks, f)
    ensures Abandoned(After(l, m).locks, f)
  {
    if CanGo(l, m) && m.Go? {
      Moves(l, m);
      AbandonedStep(l.locks, LockStep(l, m), f);
    }
  }

  lemma AbandonedIsListed(l: Linked, f: Fid)
    requires Reached(l) && Abandoned(l.locks, f)
    ensures f in l.cache.servers && f != 0
  {
    ReachedLinkable(l);
    Locks.ReachableInv(l.locks);
    assert Locks.ThreadOk(l.locks, l.locks.owner[f]);
    assert f in Elements(l.cache.servers);
  }

  /** An entry whose creator has left is never unlisted. */
  lemma {:induction false} AbandonedStays(l: Linked, f: Fid, moves: seq<Move>)
    requires Reached(l) && Abandoned(l.locks, f)
    ensures Abandoned(Run(l, moves).locks, f) && f in Run(l, moves).cache.servers
  {
    ReachedRun(l, moves);
    if moves != [] {
      AbandonedStays(l, f, moves[..|moves| - 1]);
      ReachedRun(l, moves[..|moves| - 1]);
      AbandonedAfter(Run(l, moves[..|moves| - 1]), moves[|moves| - 1], f);
    }
    AbandonedIsListed(Run(l, moves), f);
  }

  // ----- the manager's lock, held for good

  /** The server whose lock the thread with the manager's lock waits for, or is about to. */
  function Needs(l: Linked): Option<Fid>
    requires WellFormed(l)
  {
    if l.locks.manager.None? || l.locks.manager.value >= |l.locks.pc| then None
    else if l.locks.pc[l.locks.manager.value].HasManager? then Some(Chosen(l.cache, l.asked[l.locks.manager.value]))
    else Locks.Wanted(l.locks.pc[l.locks.manager.value])
  }

  predicate HeldForGood(l: Linked)
    requires WellFormed(l)
  {
    Needs(l).Some? && Abandoned(l.locks, Needs(l).value)
  }

  /** A move of a thread without the manager's lock, while another has it. */
  predicate ByOutsider(l: Linked, m: Move) {
    l.locks.manager.Some? && (m.Go? ==> l.locks.manager != Some(m.t))
  }

  lemma OutsiderSteps(l: Linked, m: Move)
    requires Reached(l) && CanGo(l, m) && m.Go? && ByOutsider(l, m)
    ensures l.locks.pc[m.t].Idle? || l.locks.pc[m.t].HasServer? || l.locks.pc[m.t].Forking?
  {
    ReachedLinkable(l);
    Locks.ReachableInv(l.locks);
    assert Locks.ThreadOk(l.locks, m.t);
  }

  lemma OutsiderLocks(l: Linked, m: Move)
    requires Reached(l) && CanGo(l, m) && m.Go? && ByOutsider(l, m)
    ensures
      var r := After(l, m);
      && r.locks.manager == l.locks.manager && |r.locks.pc| == |l.locks.pc| && Holder(r.locks) == Holder(l.locks)
      && (l.locks.manager.value < |l.locks.pc| ==> r.asked[l.locks.manager.value] == l.asked[l.locks.manager.value])
  {
    OutsiderSteps(l, m);
    Moves(l, m);
  }

  lemma OutsiderCache(l: Linked, m: Move)
    requires Reached(l) && CanGo(l, m) && ByOutsider(l, m)
    ensures LooksSame(l.cache, After(l, m).cache)
  {
    CacheMoves(l, m);
    if m.Go? {
      OutsiderSteps(l, m);
      if l.locks.pc[m.t].Forking? {
        FlightLands(l.cache, FlightTo(l.cache.flights, l.locks.pc[m.t].server), m.ok);
      }
    } else {
      KillLooksSame(l.cache, m.victim);
    }
  }

  /** It changes nothing for the one that has it. */
  lemma OutsiderMoves(l: Linked, m: Move)
    requires Reached(l) && CanGo(l, m) && ByOutsider(l, m)
    ensures
      var r := After(l, m);
      && LooksSame(l.cache, r.cache) && r.locks.manager == l.locks.manager && |r.locks.pc| == |l.locks.pc|
      && Holder(r.locks) == Holder(l.locks) && Reached(r) && WellFormed(r)
      && (l.locks.manager.value < |l.locks.pc| ==> r.asked[l.locks.manager.value] == l.asked[l.locks.manager.value])
  {
    ReachedAfter(l, m);
    ReachedLinkable(After(l, m));
    OutsiderCache(l, m);
    if m.Go? {
      OutsiderLocks(l, m);
    }
  }

  lemma OutsiderNeeds(l: Linked, m: Move)
    requires Reached(l) && CanGo(l, m) && ByOutsider(l, m) && WellFormed(l)
    ensures WellFormed(After(l, m)) && Needs(After(l, m)) == Needs(l)
  {
    OutsiderMoves(l, m);
    SameImports(l.cache, After(l, m).cache);
  }

  /** The thread that has decided on its server sets out for its lock, and for no other. */
  lemma DecidedNeeds(l: Linked, m: Move)
    requires Reached(l) && WellFormed(l) && CanGo(l, m) && m.Go? && l.locks.manager == Some(m.t)
    requires l.locks.pc[m.t].HasManager?
    ensures
      var r := After(l, m);
      && WellFormed(r) && r.cache == l.cache && Needs(r) == Needs(l) && r.locks.manager == l.locks.manager
      && !Holder(r.locks).HasManager? && Holder(r.locks) != Locks.WantServer(Chosen(l.cache, l.asked[m.t]), true)
  {
    Moves(l, m);
  }

  lemma HeldStep(l: Linked, m: Move)
    requires Reached(l) && WellFormed(l) && HeldForGood(l)
    ensures
      var r := After(l, m);
      && Reached(r) && WellFormed(r) && HeldForGood(r)
      && r.locks.manager == l.locks.manager && r.cache.servers == l.cache.servers
  {
    if CanGo(l, m) {
      Moves(l, m);
      AbandonedAfter(l, m, Needs(l).value);
      if ByOutsider(l, m) {
        OutsiderMoves(l, m);
        OutsiderNeeds(l, m);
      } else {
        DecidedNeeds(l, m);
      }
    }
  }

  lemma {:induction false} HeldRun(l: Linked, moves: seq<Move>)
    requires Reached(l) && WellFormed(l) && HeldForGood(l)
    ensures
      var r := Run(l, moves);
      && Reached(r) && WellFormed(r) && HeldForGood(r)
      && r.locks.manager == l.locks.manager && r.cache.servers == l.cache.servers
  {
    if moves != [] {
      HeldRun(l, moves[..|moves| - 1]);
      HeldStep(Run(l, moves[..|moves| - 1]), moves[|moves| - 1]);
    }
  }

  // ----- continuations that do no harm

  /** Entries keep what decides about their eviction, new ones are given a size and see no failure, and
      nothing comes back to the list. */
  ghost predicate Unspoiled(c: Cache, d: Cache) {
    && |c.table| <= |d.table|
    && (forall e {:trigger c.table[e]} {:trigger d.table[e]} :: 0 <= e < |c.table| ==>
          && d.table[e].parent == c.table[e].parent && d.table[e].size == c.table[e].size
          && d.table[e].failed == c.table[e].failed)
    && (forall e {:trigger d.table[e]} :: |c.table| <= e < |d.table| ==> d.table[e].size == 1.0 && d.table[e].failed == 0)
    && (forall e :: e in d.servers ==> e in c.servers || |c.table| <= e)
  }

  lemma UnspoiledBegin(c: Cache, request: seq<Module>)
    requires Shaped(c)
    ensures Unspoiled(c, BeginStep(c, request, true, 1.0))
  {
  }

  lemma UnspoiledStep(c: Cache, st: Step)
    requires Shaped(c) && Enabled(c, st) && (st.Begin? ==> st.createOk && st.size == 1.0)
    ensures Unspoiled(c, Apply(c, st))
  {
    match st {
      case Begin(request, _, _) => UnspoiledBegin(c, request);
      case Fork(i, _) => HitTable(c.table, c.flights[i].server);
      case Unlist => WithoutElements(c.servers, c.evicting.value);
      case _ =>
    }
  }

  lemma UnspoiledChain(c: Cache, d: Cache, x: Cache)
    requires Unspoiled(c, d) && Unspoiled(d, x)
    ensures Unspoiled(c, x)
  {
  }

  /** A move in which nothing fails. */
  predicate Gentle(m: Move) {
    m.Go? ==> m.ok && m.size == 1.0
  }

  function Onwards(t: Locks.Tid): Move {
    Go(t, [], true, false, 1.0)
  }

  /** `r` follows `l` without harm, and without another entry that is left. */
  ghost predicate Gently(l: Linked, r: Linked) {
    && Reached(r) && WellFormed(r) && Unspoiled(l.cache, r.cache) && |r.locks.pc| == |l.locks.pc|
    && forall f: Fid :: Abandoned(r.locks, f) ==> Abandoned(l.locks, f)
  }

  lemma GentlyChain(l: Linked, r: Linked, x: Linked)
    requires Gently(l, r) && Gently(r, x)
    ensures Gently(l, x)
  {
    UnspoiledChain(l.cache, r.cache, x.cache);
  }

  lemma NoneLeaves(s: Locks.State, st: Locks.Step)
    requires Locks.Inv(s) && Locks.Enabled(s, st) && (s.pc[st.t].HasServer? ==> st.flag)
    ensures forall f: Fid :: Abandoned(Locks.Apply(s, st), f) ==> Abandoned(s, f)
  {
    Locks.Footprint(s, st);
    assert Locks.ThreadOk(s, st.t);
  }

  lemma GentleCache(l: Linked, m: Move)
    requires Reached(l) && WellFormed(l) && CanGo(l, m) && Gentle(m)
    ensures Unspoiled(l.cache, After(l, m).cache)
  {
    CacheMoves(l, m);
    if CacheStep(l, m).Some? {
      UnspoiledStep(l.cache, CacheStep(l, m).value);
    }
  }

  lemma GentleLocks(l: Linked, m: Move)
    requires Reached(l) && WellFormed(l) && CanGo(l, m) && Gentle(m)
    ensures |After(l, m).locks.pc| == |l.locks.pc|
    ensures forall f: Fid :: Abandoned(After(l, m).locks, f) ==> Abandoned(l.locks, f)
  {
    if m.Go? {
      Moves(l, m);
      NoneLeaves(l.locks, LockStep(l, m));
    }
  }

  lemma GentleMove(l: Linked, m: Move)
    requires Reached(l) && WellFormed(l) && CanGo(l, m) && Gentle(m)
    ensures Gently(l, After(l, m))
  {
    ReachedAfter(l, m);
    ReachedLinkable(After(l, m));
    GentleCache(l, m);
    GentleLocks(l, m);
  }

  // ----- requests on their way come to their end

  /** The other threads and the manager's lock as they were. */
  ghost predicate OnlyMoved(l: Linked, r: Linked, t: Locks.Tid) {
    && |r.locks.pc| == |l.locks.pc| && r.locks.manager == l.locks.manager && r.asked == l.asked
    && forall u: Locks.Tid :: u < |l.locks.pc| && u != t ==> r.locks.pc[u] == l.locks.pc[u]
  }

  lemma ForkStarts(l: Linked, t: Locks.Tid)
    requires Reached(l) && WellFormed(l) && t < |l.locks.pc| && l.locks.pc[t].HasServer?
    ensures
      var r := After(l, Onwards(t));
      && Gently(l, r) && OnlyMoved(l, r, t) && r.cache == l.cache && r.locks.owner == l.locks.owner
      && r.locks.pc[t] == Locks.Forking(l.locks.pc[t].server)
  {
    GentleMove(l, Onwards(t));
  }

  lemma ForkEndsCache(l: Linked, t: Locks.Tid)
    requires Reached(l) && WellFormed(l) && t < |l.locks.pc| && l.locks.pc[t].Forking?
    ensures
      var f := l.locks.pc[t].server;
      var d := After(l, Onwards(t)).cache;
      && LooksSame(l.cache, d) && d.kills == l.cache.kills
      && forall e: Fid :: NeverHit(l.cache, e) && e != f ==> NeverHit(d, e)
  {
    var f := l.locks.pc[t].server;
    CacheMoves(l, Onwards(t));
    var i := FlightTo(l.cache.flights, f);
    FlightLands(l.cache, i, true);
    forall e: Fid | NeverHit(l.cache, e) && e != f ensures NeverHit(ForkStep(l.cache, i, true), e) {
      ForkKeepsFresh(l.cache, i, true, e);
    }
  }

  lemma ForkEnds(l: Linked, t: Locks.Tid)
    requires Reached(l) && WellFormed(l) && t < |l.locks.pc| && l.locks.pc[t].Forking?
    ensures
      var f := l.locks.pc[t].server;
      var r := After(l, Onwards(t));
      && Gently(l, r) && OnlyMoved(l, r, t) && LooksSame(l.cache, r.cache) && r.cache.kills == l.cache.kills
      && r.locks.owner == l.locks.owner - {f} && r.locks.pc[t].Idle?
      && forall e: Fid :: NeverHit(l.cache, e) && e != f ==> NeverHit(r.cache, e)
  {
    GentleMove(l, Onwards(t));
    ForkEndsCache(l, t);
  }

  /** The lock of a server has been given back, with no other change that matters. */
  ghost predicate Freed(l: Linked, r: Linked, f: Fid) {
    && Gently(l, r) && LooksSame(l.cache, r.cache) && r.cache.kills == l.cache.kills
    && r.locks.owner == l.locks.owner - {f} && r.locks.manager == l.locks.manager && r.asked == l.asked
    && (forall u: Locks.Tid :: l.locks.manager == Some(u) && u < |l.locks.pc| ==> r.locks.pc[u] == l.locks.pc[u])
    && forall e: Fid :: NeverHit(l.cache, e) && e != f ==> NeverHit(r.cache, e)
  }

  lemma OwnerOnItsWay(l: Linked, f: Fid)
    requires Reached(l) && f in l.locks.owner && l.locks.manager != Some(l.locks.owner[f]) && !Abandoned(l.locks, f)
    ensures
      var v := l.locks.owner[f];
      v < |l.locks.pc| && (l.locks.pc[v] == Locks.Forking(f) || (l.locks.pc[v].HasServer? && l.locks.pc[v].server == f))
  {
    ReachedLinkable(l);
    Locks.ReachableInv(l.locks);
    assert Locks.ThreadOk(l.locks, l.locks.owner[f]);
  }

  lemma ServerFrees(l: Linked, f: Fid) returns (moves: seq<Move>)
    requires Reached(l) && WellFormed(l) && f in l.locks.owner && !Abandoned(l.locks, f)
    requires l.locks.manager != Some(l.locks.owner[f])
    ensures Freed(l, Run(l, moves), f)
  {
    OwnerOnItsWay(l, f);
    var v := l.locks.owner[f];
    var r := l;
    moves := [];
    if l.locks.pc[v].HasServer? {
      ForkStarts(l, v);
      RunOne(l, Onwards(v));
      moves := [Onwards(v)];
      r := After(l, Onwards(v));
    }
    ForkEnds(r, v);
    RunOne(r, Onwards(v));
    RunConcat(l, moves, [Onwards(v)]);
    if moves != [] {
      GentlyChain(l, r, After(r, Onwards(v)));
    }
    moves := moves + [Onwards(v)];
  }

  // ----- the manager's lock comes free

  function Rank(pc: Locks.Pc): nat {
    match pc
    case HasManager => 6
    case WantBase(_) => 5
    case Creating(_) => 4
    case WantServer(_, _) => 3
    case HasBoth(_, _) => 2
    case EvictWantVictim(_) => 4
    case EvictHasVictim(_) => 3
    case EvictRemove(_) => 2
    case EvictScan => 2
    case _ => 1
  }

  /** From here on to the release, the thread makes no entry. */
  predicate MakesNoEntry(pc: Locks.Pc) {
    !pc.HasManager? && !pc.WantBase? && !pc.Creating?
  }

  /** Somebody else than its creator waits for the server with the manager's lock, or is about to. */
  predicate Awaited(l: Linked, e: Fid)
    requires WellFormed(l)
  {
    Needs(l) == Some(e) && Holder(l.locks) != Locks.WantServer(e, true)
  }

  /** What the thread with the manager's lock leaves behind once it has released it, or on its way there. */
  ghost predicate Settles(l: Linked, r: Linked) {
    && WellFormed(l) && Gently(l, r)
    && (MakesNoEntry(Holder(l.locks)) ==> |r.cache.table| == |l.cache.table| && MakesNoEntry(Holder(r.locks)))
    && (forall v :: l.cache.evicting == Some(v) ==> r.cache.evicting == Some(v) || v !in r.cache.servers)
    && (forall e: Fid :: NeverHit(l.cache, e) && !Awaited(l, e) ==> NeverHit(r.cache, e) && !Awaited(r, e))
  }

  /** One step of the thread that holds the manager's lock brings it closer to the release. */
  ghost predicate Advances(l: Linked, r: Linked) {
    && WellFormed(r)
    && (r.locks.manager.None? ||
          (r.locks.manager == l.locks.manager && Rank(Holder(r.locks)) < Rank(Holder(l.locks)) && !HeldForGood(r)))
  }

  lemma HolderCanGo(l: Linked)
    requires Reached(l) && WellFormed(l) && l.locks.manager.Some?
    requires Locks.Wanted(Holder(l.locks)).Some? ==> Locks.Wanted(Holder(l.locks)).value !in l.locks.owner
    ensures l.locks.manager.value < |l.locks.pc| && CanGo(l, Onwards(l.locks.manager.value))
    ensures Locks.HoldsManager(Holder(l.locks))
  {
    ReachedLinkable(l);
    Locks.ReachableInv(l.locks);
    assert Locks.ThreadOk(l.locks, l.locks.manager.value);
  }

  lemma OnlyForksHit(c: Cache, st: Step, e: Fid)
    requires Shaped(c) && Enabled(c, st) && !st.Fork? && NeverHit(c, e)
    ensures NeverHit(Apply(c, st), e)
  {
  }

  lemma HolderKeepsFresh(l: Linked, e: Fid)
    requires Reached(l) && WellFormed(l) && l.locks.manager.Some? && NeverHit(l.cache, e)
    requires CanGo(l, Onwards(l.locks.manager.value)) && Locks.HoldsManager(Holder(l.locks))
    ensures NeverHit(After(l, Onwards(l.locks.manager.value)).cache, e)
  {
    var m := Onwards(l.locks.manager.value);
    CacheMoves(l, m);
    if CacheStep(l, m).Some? {
      OnlyForksHit(l.cache, CacheStep(l, m).value, e);
    }
  }

  /** What remains to be said of a step of the holder, besides what happens to its own way. */
  lemma HolderSettles(l: Linked)
    requires Reached(l) && WellFormed(l) && l.locks.manager.Some?
    requires l.locks.manager.value < |l.locks.pc| && CanGo(l, Onwards(l.locks.manager.value))
    requires Locks.HoldsManager(Holder(l.locks))
    ensures
      var r := After(l, Onwards(l.locks.manager.value));
      Gently(l, r) && forall e: Fid :: NeverHit(l.cache, e) ==> NeverHit(r.cache, e)
  {
    GentleMove(l, Onwards(l.locks.manager.value));
    forall e: Fid | NeverHit(l.cache, e) ensures NeverHit(After(l, Onwards(l.locks.manager.value)).cache, e) {
      HolderKeepsFresh(l, e);
    }
  }

  lemma DecidedAdvances(l: Linked)
    requires Reached(l) && WellFormed(l) && l.locks.manager.Some? && !HeldForGood(l)
    requires Holder(l.locks).HasManager?
    ensures
      var r := After(l, Onwards(l.locks.manager.value));
      Settles(l, r) && Advances(l, r)
  {
    HolderCanGo(l);
    HolderSettles(l);
    var m := Onwards(l.locks.manager.value);
    DecidedNeeds(l, m);
    Moves(l, m);
    AbandonedSame(l, After(l, m));
  }

  lemma AbandonedSame(l: Linked, r: Linked)
    requires Gently(l, r) && WellFormed(l) && Needs(r) == Needs(l) && !HeldForGood(l)
    ensures !HeldForGood(r)
  {
  }

  lemma CreatingCache(l: Linked)
    requires Reached(l) && WellFormed(l) && l.locks.manager.Some? && Holder(l.locks).Creating?
    requires l.locks.manager.value < |l.locks.pc| && CanGo(l, Onwards(l.locks.manager.value))
    ensures l.cache.evicting.None?
    ensures
      var r := After(l, Onwards(l.locks.manager.value)).locks;
      && Holder(r) == Locks.WantServer(l.locks.next, true) && l.locks.next !in r.owner && r.manager == l.locks.manager
  {
    Moves(l, Onwards(l.locks.manager.value));
    NewLock(l.locks);
    ReachedLinkable(l);
  }

  lemma CreatingAdvances(l: Linked)
    requires Reached(l) && WellFormed(l) && l.locks.manager.Some?
    requires Holder(l.locks).Creating?
    ensures
      var r := After(l, Onwards(l.locks.manager.value));
      Settles(l, r) && Advances(l, r)
  {
    HolderCanGo(l);
    HolderSettles(l);
    CreatingCache(l);
  }

  /** The holder is past its decisions: it takes or gives back locks, or tidies up. */
  predicate Plain(pc: Locks.Pc) {
    Locks.HoldsManager(pc) && !pc.HasManager? && !pc.Creating?
  }

  lemma PlainLocks(s: Locks.State, st: Locks.Step)
    requires Locks.Enabled(s, st) && s.manager == Some(st.t) && Plain(s.pc[st.t]) && (s.pc[st.t].EvictScan? ==> !st.flag)
    ensures
      var r := Locks.Apply(s, st);
      && st.t < |r.pc|
      && (r.manager.None? ||
            (r.manager == s.manager && Rank(r.pc[st.t]) < Rank(s.pc[st.t]) && Locks.Wanted(r.pc[st.t]).None?
             && !r.pc[st.t].HasManager? && (MakesNoEntry(s.pc[st.t]) ==> MakesNoEntry(r.pc[st.t]))))
  {
  }

  lemma PlainAdvances(l: Linked)
    requires Reached(l) && WellFormed(l) && l.locks.manager.Some? && Plain(Holder(l.locks))
    requires l.locks.manager.value < |l.locks.pc| && CanGo(l, Onwards(l.locks.manager.value))
    ensures
      var r := After(l, Onwards(l.locks.manager.value));
      Advances(l, r) && Needs(r).None? && (MakesNoEntry(Holder(l.locks)) ==> MakesNoEntry(Holder(r.locks)))
  {
    var m := Onwards(l.locks.manager.value);
    Moves(l, m);
    ReachedLinkable(l);
    assert VictimsAgree(l.locks, l.cache);
    PlainLocks(l.locks, LockStep(l, m));
  }

  lemma PlainCache(l: Linked)
    requires Reached(l) && WellFormed(l) && l.locks.manager.Some? && Plain(Holder(l.locks))
    requires l.locks.manager.value < |l.locks.pc| && CanGo(l, Onwards(l.locks.manager.value))
    ensures
      var d := After(l, Onwards(l.locks.manager.value)).cache;
      && |d.table| == |l.cache.table|
      && forall v :: l.cache.evicting == Some(v) ==> d.evicting == Some(v) || v !in d.servers
  {
    var m := Onwards(l.locks.manager.value);
    CacheMoves(l, m);
    ReachedLinkable(l);
    match Holder(l.locks) {
      case WantServer(_, created) =>
        if !created {
          ReusingBegin(l.cache, l.asked[m.t], true, 1.0);
        }
      case EvictRemove(v) =>
        VictimLeaves(l.cache, v);
        assert v !in Elements(After(l, m).cache.servers);
      case _ =>
    }
  }

  lemma PlainSettles(l: Linked)
    requires Reached(l) && WellFormed(l) && l.locks.manager.Some? && Plain(Holder(l.locks))
    requires Locks.Wanted(Holder(l.locks)).Some? ==> Locks.Wanted(Holder(l.locks)).value !in l.locks.owner
    ensures
      var r := After(l, Onwards(l.locks.manager.value));
      Settles(l, r) && Advances(l, r)
  {
    HolderCanGo(l);
    HolderSettles(l);
    PlainAdvances(l);
    PlainCache(l);
  }

  lemma HolderAdvances(l: Linked)
    requires Reached(l) && WellFormed(l) && l.locks.manager.Some? && !HeldForGood(l)
    requires Locks.Wanted(Holder(l.locks)).Some? ==> Locks.Wanted(Holder(l.locks)).value !in l.locks.owner
    ensures
      var r := After(l, Onwards(l.locks.manager.value));
      Settles(l, r) && Advances(l, r)
  {
    HolderCanGo(l);
    match Holder(l.locks) {
      case HasManager => DecidedAdvances(l);
      case Creating(_) => CreatingAdvances(l);
      case _ => PlainSettles(l);
    }
  }

  lemma SettlesChain(l: Linked, r: Linked, x: Linked)
    requires Settles(l, r) && Settles(r, x)
    ensures Settles(l, x)
  {
    GentlyChain(l, r, x);
  }

  /** Waiting for a server whose lock is given back. */
  lemma WaitSettles(l: Linked, r: Linked, f: Fid)
    requires Reached(l) && WellFormed(l) && l.locks.manager.Some? && Locks.Wanted(Holder(l.locks)) == Some(f) && f in l.locks.owner
    requires l.locks.manager.value < |l.locks.pc| && Freed(l, r, f) && !HeldForGood(l)
    ensures Settles(l, r) && Holder(r.locks) == Holder(l.locks) && !HeldForGood(r) && r.locks.manager == l.locks.manager
    ensures f !in r.locks.owner && |r.cache.table| == |l.cache.table|
  {
    ReachedLinkable(l);
    assert Needs(r) == Needs(l) == Some(f);
    assert Awaited(l, f);
  }

  lemma {:induction false} HolderReleases(l: Linked) returns (moves: seq<Move>)
    requires Reached(l) && WellFormed(l) && l.locks.manager.Some? && !HeldForGood(l)
    ensures Settles(l, Run(l, moves)) && Run(l, moves).locks.manager.None?
    decreases Rank(Holder(l.locks))
  {
    var r := l;
    moves := [];
    var wanted := Locks.Wanted(Holder(l.locks));
    if wanted.Some? && wanted.value in l.locks.owner {
      moves := WaitedFor(l);
      r := Run(l, moves);
    }
    HolderAdvances(r);
    var x := After(r, Onwards(r.locks.manager.value));
    RunOne(r, Onwards(r.locks.manager.value));
    RunConcat(l, moves, [Onwards(r.locks.manager.value)]);
    if moves != [] {
      SettlesChain(l, r, x);
    }
    moves := moves + [Onwards(r.locks.manager.value)];
    if x.locks.manager.Some? {
      var rest := HolderReleases(x);
      RunConcat(l, moves, rest);
      SettlesChain(l, x, Run(x, rest));
      moves := moves + rest;
    }
  }

  lemma WaitedFor(l: Linked) returns (moves: seq<Move>)
    requires Reached(l) && WellFormed(l) && l.locks.manager.Some? && !HeldForGood(l)
    requires Locks.Wanted(Holder(l.locks)).Some? && Locks.Wanted(Holder(l.locks)).value in l.locks.owner
    ensures
      var r := Run(l, moves);
      && Settles(l, r) && Holder(r.locks) == Holder(l.locks) && !HeldForGood(r)
      && r.locks.manager == l.locks.manager && Locks.Wanted(Holder(l.locks)).value !in r.locks.owner
  {
    var f := Locks.Wanted(Holder(l.locks)).value;
    ReachedLinkable(l);
    Locks.ReachableInv(l.locks);
    assert Locks.ThreadOk(l.locks, l.locks.manager.value);
    assert Locks.ThreadOk(l.locks, l.locks.owner[f]);
    moves := ServerFrees(l, f);
    WaitSettles(l, Run(l, moves), f);
  }

  /** In the state of every interleaving, the manager's lock is held for good if and only if its holder
      waits for the lock of an entry whose creator has left, or holds a request that this entry serves. */
  lemma ManagerHeldForGoodIff(l: Linked)
    requires Reached(l) && WellFormed(l) && l.locks.manager.Some?
    ensures HeldForGood(l) <==> forall moves :: Run(l, moves).locks.manager == l.locks.manager
  {
    if HeldForGood(l) {
      forall moves ensures Run(l, moves).locks.manager == l.locks.manager {
        HeldRun(l, moves);
      }
    } else {
      var moves := HolderReleases(l);
      assert Run(l, moves).locks.manager != l.locks.manager;
    }
  }

  // ----- an entry that is left, and the request that waits for it

  lemma Advance(l: Linked, moves: seq<Move>, m: Move) returns (longer: seq<Move>)
    ensures longer == moves + [m] && Run(l, longer) == After(Run(l, moves), m)
  {
    longer := moves + [m];
    assert longer[..|moves|] == moves;
  }

  function Provision(t: Locks.Tid, ok: bool, size: Size): Move {
    Go(t, ["m"], ok, false, size)
  }

  lemma BaseIsChosen(size: Size) returns (moves: seq<Move>)
    ensures
      var l := Run(Initially(2, {}), moves);
      && l.locks == Locks.State([Locks.Idle, Locks.WantBase(0), Locks.Idle], Some(1), map[], {0}, {}, 1)
      && l.cache == Initial({}) && |l.asked| == 3 && l.asked[1] == ["m"]
  {
    var l := Initially(2, {});
    FirstBegin({}, ["m"], size);
    assert l.locks.pc == [Locks.Idle, Locks.Idle, Locks.Idle];
    moves := Advance(l, [], Provision(1, true, size));
    moves := Advance(l, moves, Provision(1, true, size));
    assert Run(l, moves).locks.pc == [Locks.Idle, Locks.HasManager, Locks.Idle];
    FirstIsNew(["m"]);
    moves := Advance(l, moves, Provision(1, true, size));
  }

  lemma FirstIsNew(request: seq<Module>)
    requires request != []
    ensures Shaped(Initial({})) && Chosen(Initial({}), request) == 0 && ToCache(ImportsOf(Initial({})), request) == request
  {
    assert Initial({}).servers[0] == 0;
    assert ImportsOf(Initial({})) == [{}];
  }

  lemma BaseIsTaken(size: Size) returns (moves: seq<Move>)
    ensures
      var l := Run(Initially(2, {}), moves);
      && l.locks == Locks.State([Locks.Idle, Locks.Creating(0), Locks.Idle], Some(1), map[0 := 1], {0}, {}, 1)
      && l.cache == Initial({}) && |l.asked| == 3 && l.asked[1] == ["m"]
  {
    moves := BaseIsChosen(size);
    FirstBegin({}, ["m"], size);
    moves := Advance(Initially(2, {}), moves, Provision(1, true, size));
  }

  lemma EntryIsMade(size: Size) returns (moves: seq<Move>)
    ensures
      var l := Run(Initially(2, {}), moves);
      && l.locks == Locks.State([Locks.Idle, Locks.WantServer(1, true), Locks.Idle], Some(1), map[], {0, 1}, {}, 2)
      && l.cache == BeginStep(Initial({}), ["m"], true, size) && Shaped(l.cache) && |l.asked| == 3
  {
    moves := BaseIsTaken(size);
    FirstBegin({}, ["m"], size);
    var l := Run(Initially(2, {}), moves);
    assert CacheStep(l, Provision(1, true, size)) == Some(Begin(["m"], true, size));
    moves := Advance(Initially(2, {}), moves, Provision(1, true, size));
  }

  lemma EntryIsLocked(size: Size) returns (moves: seq<Move>)
    ensures
      var l := Run(Initially(2, {}), moves);
      && l.locks == Locks.State([Locks.Idle, Locks.HasServer(1, true), Locks.Idle], None, map[1 := 1], {0, 1}, {}, 2)
      && l.cache == BeginStep(Initial({}), ["m"], true, size) && Shaped(l.cache) && |l.asked| == 3
  {
    moves := EntryIsMade(size);
    moves := Advance(Initially(2, {}), moves, Provision(1, true, size));
    moves := Advance(Initially(2, {}), moves, Provision(1, true, size));
  }

  /** The entry does not come up, and its creator leaves with its lock. */
  lemma EntryIsLeft(size: Size) returns (moves: seq<Move>)
    ensures
      var l := Run(Initially(2, {}), moves);
      && l.locks == Locks.State([Locks.Idle, Locks.Gone(1), Locks.Idle], None, map[1 := 1], {0, 1}, {}, 2)
      && l.cache == BeginStep(Initial({}), ["m"], true, size) && Shaped(l.cache) && |l.asked| == 3
  {
    moves := EntryIsLocked(size);
    moves := Advance(Initially(2, {}), moves, Provision(1, false, size));
  }

  lemma EntryIsChosen(size: Size)
    ensures
      var d := BeginStep(Initial({}), ["m"], true, size);
      Shaped(d) && Chosen(d, ["m"]) == 1
  {
    FirstBegin({}, ["m"], size);
    var d := BeginStep(Initial({}), ["m"], true, size);
    assert Elements(["m"]) == {"m"};
    assert ImportsOf(d) == [{}, {"m"}];
    assert ["m"][..0] == [];
    assert Matched({"m"}, ["m"]) == 1;
    assert BestUpTo(ImportsOf(d), ["m"], 1) == 0;
    assert Best(ImportsOf(d), ["m"]) == 1;
  }

  lemma SecondRequestDecides(size: Size) returns (moves: seq<Move>)
    ensures
      var l := Run(Initially(2, {}), moves);
      && l.locks == Locks.State([Locks.Idle, Locks.Gone(1), Locks.HasManager], Some(2), map[1 := 1], {0, 1}, {}, 2)
      && l.cache == BeginStep(Initial({}), ["m"], true, size) && |l.asked| == 3 && l.asked[2] == ["m"]
  {
    moves := EntryIsLeft(size);
    moves := Advance(Initially(2, {}), moves, Provision(2, true, size));
    moves := Advance(Initially(2, {}), moves, Provision(2, true, size));
  }

  /** A second request for the same modules then stops every other request, for good. */
  lemma SecondRequestBlocksTheManager(size: Size) returns (moves: seq<Move>)
    ensures
      var l := Run(Initially(2, {}), moves);
      Reached(l) && WellFormed(l) && l.locks.manager == Some(2) && HeldForGood(l)
  {
    moves := SecondRequestDecides(size);
    EntryIsChosen(size);
    assert Reached(Run(Initially(2, {}), moves));
    ReachedLinkable(Run(Initially(2, {}), moves));
  }
}
