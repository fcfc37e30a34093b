/**
 The import cache under its locks. Each thread goes through the lock protocol one lock operation at a
 time, and at one point of its way takes a step of the cache. In every interleaving the cache steps
 taken are enabled, so that the cache makes a run of `ImportCache`: what that model asks of a step,
 that a server is not in use or that no eviction is going on, follows from who holds which lock.
 */
module LockedCache {
  import opened Collections
  import opened SubsetMatcher
  import opened ImportCache
  import opened ImportCacheProofs
  import Locks = CacheLocks

  /** `asked[t]` is the request that thread `t` provisions. */
  datatype Linked = Linked(locks: Locks.State, cache: Cache, asked: seq<seq<Module>>)

  /** A thread goes on, or a server that was unlisted is killed. */
  datatype Move =
    | Go(t: Locks.Tid, request: seq<Module>, ok: bool, over: bool, size: Size)
    | Reap(victim: Fid)

  /** The thread of the evictor; each other thread provisions one request after the other. */
  const EVICTOR: Locks.Tid := 0

  function Initially(requests: nat, importable: set<Module>): Linked {
    Linked(Locks.Initial(1 + requests), Initial(importable), seq(1 + requests, _ => []))
  }

  ghost predicate WellFormed(l: Linked) {
    Shaped(l.cache) && |l.asked| == |l.locks.pc|
  }

  function FlightTo(flights: seq<Flight>, f: Fid): (i: nat)
    ensures i <= |flights|
    ensures i < |flights| ==> flights[i].server == f
    ensures i == |flights| ==> forall j :: 0 <= j < |flights| ==> flights[j].server != f
  {
    if flights == [] || flights[0].server == f then 0
    else
      var i := 1 + FlightTo(flights[1..], f);
      assert forall j :: 1 <= j < |flights| ==> flights[j] == flights[1..][j - 1];
      i
  }

  /** The step of a thread in the lock protocol: the cache decides which server it turns to. */
  function LockStep(l: Linked, m: Move): Locks.Step
    requires WellFormed(l) && m.Go? && m.t < |l.locks.pc|
  {
    match l.locks.pc[m.t]
    case Idle => Locks.Step(m.t, 0, m.t != EVICTOR)
    case HasManager =>
      Locks.Step(m.t, Chosen(l.cache, l.asked[m.t]), ToCache(ImportsOf(l.cache), l.asked[m.t]) != [] && !l.cache.full)
    case EvictScan =>
      (match CheckUsageStep(l.cache, m.over).evicting
       case None => Locks.Step(m.t, 0, false)
       case Some(v) => Locks.Step(m.t, v, true))
    case _ => Locks.Step(m.t, 0, m.ok)
  }

  /** The step of the cache that goes with a move. */
  function CacheStep(l: Linked, m: Move): Option<Step>
    requires |l.asked| == |l.locks.pc| && (m.Go? ==> m.t < |l.locks.pc|)
  {
    match m
    case Reap(victim) => Some(Kill(victim))
    case Go(t, _, ok, over, size) =>
      match l.locks.pc[t]
      case WantServer(_, created) => if created then None else Some(Begin(l.asked[t], true, size))
      case Creating(_) => Some(Begin(l.asked[t], ok, size))
      case Forking(f) => Some(Fork(FlightTo(l.cache.flights, f), ok))
      case EvictScan => Some(CheckUsage(over))
      case EvictRemove(_) => Some(Unlist)
      case _ => None
  }

  ghost predicate CanGo(l: Linked, m: Move) {
    && WellFormed(l)
    && match m
       case Reap(victim) => victim in l.cache.kills
       case Go(t, _, _, _, _) => t < |l.locks.pc| && Locks.Enabled(l.locks, LockStep(l, m))
  }

  ghost function CacheAfter(l: Linked, m: Move): Cache
    requires CanGo(l, m)
  {
    match CacheStep(l, m)
    case None => l.cache
    case Some(st) => ImportCacheProofs.Next(l.cache, st)
  }

  ghost function After(l: Linked, m: Move): Linked {
    if !CanGo(l, m) then l
    else
      match m
      case Reap(_) => l.(cache := CacheAfter(l, m))
      case Go(t, request, _, _, _) =>
        Linked(Locks.Apply(l.locks, LockStep(l, m)), CacheAfter(l, m),
               if l.locks.pc[t].Idle? then l.asked[t := request] else l.asked)
  }

  ghost function Run(l: Linked, moves: seq<Move>): Linked {
    if moves == [] then l else After(Run(l, moves[..|moves| - 1]), moves[|moves| - 1])
  }

  // ----- how locks and cache are linked

  /** The server of a request that the cache counts as on its way. */
  function OnTheWay(pc: Locks.Pc): Option<Fid> {
    match pc
    case WantServer(f, created) => if created then Some(f) else None
    case HasBoth(f, _) => Some(f)
    case HasServer(f, _) => Some(f)
    case Forking(f) => Some(f)
    case Gone(f) => Some(f)
    case _ => None
  }

  function Victim(pc: Locks.Pc): Option<Fid> {
    match pc
    case EvictWantVictim(v) => Some(v)
    case EvictHasVictim(v) => Some(v)
    case EvictRemove(v) => Some(v)
    case _ => None
  }

  /** The thread with the manager's lock, and what it is about to do. */
  function Holder(s: Locks.State): Locks.Pc {
    if s.manager.Some? && s.manager.value < |s.pc| then s.pc[s.manager.value] else Locks.Idle
  }

  ghost predicate NamesAgree(s: Locks.State, c: Cache) {
    s.listed == Elements(c.servers) && s.next == |c.table|
  }

  predicate FlownBy(s: Locks.State, f: Fid) {
    || (f in s.owner && s.owner[f] < |s.pc| && OnTheWay(s.pc[s.owner[f]]) == Some(f))
    || Holder(s) == Locks.WantServer(f, true)
  }

  /** Nobody else can take the lock of an entry before its creator does. */
  predicate NewLockIsFree(s: Locks.State) {
    Holder(s).WantServer? && Holder(s).created ==> Holder(s).server !in s.owner
  }

  /** A server is in use exactly while a thread is on its way with it. */
  ghost predicate FlightsAgree(s: Locks.State, c: Cache) {
    && (forall t: Locks.Tid :: t < |s.pc| && OnTheWay(s.pc[t]).Some? ==> Locked(c, OnTheWay(s.pc[t]).value))
    && (forall f: Fid :: Locked(c, f) ==> FlownBy(s, f))
  }

  /** An eviction is going on exactly while the thread with the manager's lock is at it. */
  predicate VictimsAgree(s: Locks.State, c: Cache) {
    c.evicting == Victim(Holder(s))
  }

  /** What a thread has decided still holds. */
  predicate ChoiceHolds(pc: Locks.Pc, c: Cache, request: seq<Module>)
    requires Shaped(c)
  {
    var creates := ToCache(ImportsOf(c), request) != [] && !c.full;
    match pc
    case WantBase(b) => b == Chosen(c, request) && creates
    case Creating(b) => b == Chosen(c, request) && creates
    case WantServer(f, created) => created || (f == Chosen(c, request) && !creates)
    case _ => true
  }

  predicate ChoicesAgree(s: Locks.State, c: Cache, asked: seq<seq<Module>>)
    requires Shaped(c) && |asked| == |s.pc|
  {
    s.manager.Some? && s.manager.value < |s.pc| ==> ChoiceHolds(s.pc[s.manager.value], c, asked[s.manager.value])
  }

  ghost predicate Agree(l: Linked) {
    && WellFormed(l) && NamesAgree(l.locks, l.cache) && FlightsAgree(l.locks, l.cache) && NewLockIsFree(l.locks)
    && VictimsAgree(l.locks, l.cache) && ChoicesAgree(l.locks, l.cache, l.asked)
  }

  ghost predicate Linkable(l: Linked) {
    Locks.Reachable(l.locks) && Reachable(l.cache) && Agree(l)
  }

  // ----- steps of the cache that leave the choices alone

  /** The cache still looks the same to the thread with the manager's lock. */
  ghost predicate LooksSame(c: Cache, d: Cache) {
    && Shaped(c) && Shaped(d)
    && d.servers == c.servers && d.full == c.full && d.evicting == c.evicting && |d.table| == |c.table|
    && forall e {:trigger d.table[e]} :: 0 <= e < |c.table| ==> d.table[e].imports == c.table[e].imports
  }

  lemma SameImports(c: Cache, d: Cache)
    requires LooksSame(c, d)
    ensures ImportsOf(d) == ImportsOf(c)
  {
  }

  lemma ForkLooksSame(c: Cache, i: nat, ok: bool)
    requires Reachable(c) && Shaped(c) && i < |c.flights|
    ensures LooksSame(c, ForkStep(c, i, ok)) && Reachable(ForkStep(c, i, ok))
  {
    HitTable(c.table, c.flights[i].server);
    ReachableStep(c, Fork(i, ok));
  }

  lemma KillTable(c: Cache, v: Fid)
    requires Shaped(c) && v < |c.table|
    ensures
      var d := KillStep(c, v);
      && |d.table| == |c.table|
      && forall e {:trigger d.table[e]} :: 0 <= e < |c.table| ==> d.table[e].imports == c.table[e].imports
  {
  }

  lemma KillLooksSame(c: Cache, v: Fid)
    requires Shaped(c) && v in c.kills && Shaped(KillStep(c, v))
    ensures LooksSame(c, KillStep(c, v)) && KillStep(c, v).flights == c.flights
  {
    KillTable(c, v);
  }

  // ----- what the others see of a step of the lock protocol

  /** Thread `t` has moved, within its rights. */
  ghost predicate Moved(s: Locks.State, r: Locks.State, t: Locks.Tid) {
    && t < |s.pc| == |r.pc| && (forall u: Locks.Tid :: u < |s.pc| && u != t ==> r.pc[u] == s.pc[u])
    && Locks.ManagerMoves(s, r, t) && Locks.OwnersMove(s, r, t)
  }

  lemma OthersFly(s: Locks.State, r: Locks.State, t: Locks.Tid, f: Fid)
    requires Moved(s, r, t) && FlownBy(s, f)
    requires OnTheWay(s.pc[t]) == Some(f) ==> FlownBy(r, f)
    ensures FlownBy(r, f)
  {
  }

  /** No two threads are on their way with one server. */
  lemma OneIsOnTheWay(s: Locks.State, t: Locks.Tid, u: Locks.Tid)
    requires t < |s.pc| && u < |s.pc| && t != u && Locks.ThreadOk(s, t) && Locks.ThreadOk(s, u) && NewLockIsFree(s)
    requires OnTheWay(s.pc[t]).Some?
    ensures OnTheWay(s.pc[u]) != OnTheWay(s.pc[t])
  {
  }

  /** The flights follow thread `t`: the server it was on its way with, and the one it is now. */
  lemma FlightsFollow(s: Locks.State, r: Locks.State, c: Cache, d: Cache, t: Locks.Tid)
    requires Moved(s, r, t) && FlightsAgree(s, c) && NewLockIsFree(s)
    requires forall u: Locks.Tid :: u < |s.pc| ==> Locks.ThreadOk(s, u)
    requires OnTheWay(r.pc[t]).Some? ==> FlownBy(r, OnTheWay(r.pc[t]).value)
    requires forall f: Fid :: Locked(d, f) <==>
               (Locked(c, f) && OnTheWay(s.pc[t]) != Some(f)) || OnTheWay(r.pc[t]) == Some(f)
    ensures FlightsAgree(r, d)
  {
    forall u: Locks.Tid | u < |r.pc| && OnTheWay(r.pc[u]).Some? ensures Locked(d, OnTheWay(r.pc[u]).value) {
      if u != t && OnTheWay(s.pc[t]).Some? {
        OneIsOnTheWay(s, t, u);
      }
    }
    forall f: Fid | Locked(d, f) ensures FlownBy(r, f) {
      if OnTheWay(r.pc[t]) != Some(f) {
        OthersFly(s, r, t, f);
      }
    }
  }

  /** A thread without the manager's lock changes nothing for the one that has it. */
  lemma HolderKeeps(s: Locks.State, r: Locks.State, c: Cache, d: Cache, asked: seq<seq<Module>>, asked': seq<seq<Module>>, t: Locks.Tid)
    requires Moved(s, r, t) && s.manager != Some(t) && r.manager == s.manager && r.owner.Keys <= s.owner.Keys
    requires |asked| == |s.pc| == |asked'| && forall u: Locks.Tid :: u < |s.pc| && u != t ==> asked'[u] == asked[u]
    requires LooksSame(c, d) && VictimsAgree(s, c) && ChoicesAgree(s, c, asked) && NewLockIsFree(s)
    ensures VictimsAgree(r, d) && ChoicesAgree(r, d, asked') && NewLockIsFree(r)
  {
    SameImports(c, d);
  }

  // ----- each move

  /** The move goes on in the lock protocol, and its step of the cache, if any, is enabled. */
  ghost predicate GoesWell(l: Linked, m: Move) {
    && CanGo(l, m) && Agree(After(l, m))
    && match CacheStep(l, m)
       case None => After(l, m).cache == l.cache
       case Some(st) => Enabled(l.cache, st) && After(l, m).cache == Apply(l.cache, st)
  }

  lemma MovedBy(l: Linked, m: Move)
    requires Locks.Inv(l.locks) && CanGo(l, m) && m.Go?
    ensures
      var r := Locks.Apply(l.locks, LockStep(l, m));
      && Moved(l.locks, r, m.t) && After(l, m).locks == r
      && Locks.ThreadOk(l.locks, m.t) && Locks.ThreadOk(r, m.t)
  {
    Locks.Footprint(l.locks, LockStep(l, m));
    Locks.MoverKeeps(l.locks, LockStep(l, m));
  }

  /** A move that takes a step of the cache. */
  lemma StepGoesWell(l: Linked, m: Move, st: Step)
    requires CanGo(l, m) && m.Go? && !l.locks.pc[m.t].Idle? && CacheStep(l, m) == Some(st) && Enabled(l.cache, st)
    requires Agree(Linked(Locks.Apply(l.locks, LockStep(l, m)), Apply(l.cache, st), l.asked))
    ensures GoesWell(l, m)
  {
    assert After(l, m) == Linked(Locks.Apply(l.locks, LockStep(l, m)), Apply(l.cache, st), l.asked);
  }

  /** The cache does not move, nor does the set of requests on their way. */
  lemma LockOnlyFlights(l: Linked, m: Move)
    requires Locks.Inv(l.locks) && Agree(l) && CanGo(l, m) && m.Go? && CacheStep(l, m).None?
    ensures FlightsAgree(After(l, m).locks, l.cache)
  {
    var s, t := l.locks, m.t;
    MovedBy(l, m);
    var r := Locks.Apply(s, LockStep(l, m));
    assert OnTheWay(r.pc[t]) == OnTheWay(s.pc[t]);
    if OnTheWay(s.pc[t]).Some? {
      assert Locked(l.cache, OnTheWay(s.pc[t]).value);
    }
    FlightsFollow(s, r, l.cache, l.cache, t);
  }

  /** A move that leaves the cache alone. */
  lemma LockGoesWell(l: Linked, m: Move)
    requires CanGo(l, m) && m.Go? && CacheStep(l, m).None? && !l.locks.pc[m.t].Idle?
    requires Agree(Linked(Locks.Apply(l.locks, LockStep(l, m)), l.cache, l.asked))
    ensures GoesWell(l, m)
  {
    assert After(l, m) == Linked(Locks.Apply(l.locks, LockStep(l, m)), l.cache, l.asked);
  }

  lemma OutsideLockOnly(l: Linked, m: Move)
    requires Locks.Inv(l.locks) && Agree(l) && CanGo(l, m) && m.Go? && CacheStep(l, m).None?
    requires l.locks.pc[m.t].Idle? || l.locks.pc[m.t].HasServer?
    ensures GoesWell(l, m)
  {
    LockOnlyFlights(l, m);
    MovedBy(l, m);
    HolderKeeps(l.locks, After(l, m).locks, l.cache, l.cache, l.asked, After(l, m).asked, m.t);
  }

  lemma EnteringLockOnly(l: Linked, m: Move)
    requires Locks.Inv(l.locks) && Agree(l) && CanGo(l, m) && m.Go? && CacheStep(l, m).None?
    requires l.locks.pc[m.t].WantManager? || l.locks.pc[m.t].EvictWant?
    ensures GoesWell(l, m)
  {
    LockOnlyFlights(l, m);
    MovedBy(l, m);
    LockGoesWell(l, m);
  }

  lemma TakingLockOnly(l: Linked, m: Move)
    requires Locks.Inv(l.locks) && Agree(l) && CanGo(l, m) && m.Go? && CacheStep(l, m).None?
    requires Locks.Wanted(l.locks.pc[m.t]).Some?
    ensures GoesWell(l, m)
  {
    LockOnlyFlights(l, m);
    MovedBy(l, m);
    LockGoesWell(l, m);
  }

  lemma HoldingLockOnly(l: Linked, m: Move)
    requires Locks.Inv(l.locks) && Agree(l) && CanGo(l, m) && m.Go? && CacheStep(l, m).None?
    requires !l.locks.pc[m.t].Idle? && !l.locks.pc[m.t].HasServer? && !Locks.TakesLock(l.locks.pc[m.t])
    ensures GoesWell(l, m)
  {
    LockOnlyFlights(l, m);
    MovedBy(l, m);
    LockGoesWell(l, m);
  }

  lemma LockOnly(l: Linked, m: Move)
    requires Locks.Inv(l.locks) && Agree(l) && CanGo(l, m) && m.Go? && CacheStep(l, m).None?
    ensures GoesWell(l, m)
  {
    if l.locks.pc[m.t].Idle? || l.locks.pc[m.t].HasServer? {
      OutsideLockOnly(l, m);
    } else if l.locks.pc[m.t].WantManager? || l.locks.pc[m.t].EvictWant? {
      EnteringLockOnly(l, m);
    } else if Locks.Wanted(l.locks.pc[m.t]).Some? {
      TakingLockOnly(l, m);
    } else {
      HoldingLockOnly(l, m);
    }
  }

  /** A request takes the lock of the server that was chosen for it. */
  lemma TakeServer(l: Linked, m: Move)
    requires Locks.Inv(l.locks) && Reachable(l.cache) && Agree(l) && CanGo(l, m) && m.Go?
    requires l.locks.pc[m.t].WantServer? && !l.locks.pc[m.t].created
    ensures GoesWell(l, m)
  {
    var s, c := l.locks, l.cache;
    var f := s.pc[m.t].server;
    MovedBy(l, m);
    assert !FlownBy(s, f);
    ReusingBegin(c, l.asked[m.t], true, m.size);
    var st := Begin(l.asked[m.t], true, m.size);
    ReachableStep(c, st);
    FlightLocks(c, Apply(c, st), Flight(f, ToCache(ImportsOf(c), l.asked[m.t]), l.asked[m.t]));
    FlightsFollow(s, Locks.Apply(s, LockStep(l, m)), c, Apply(c, st), m.t);
    StepGoesWell(l, m, st);
  }

  lemma BeginCreates(c: Cache, request: seq<Module>, size: Size)
    requires Shaped(c) && ToCache(ImportsOf(c), request) != [] && !c.full
    ensures
      var d := BeginStep(c, request, true, size);
      && d.flights == c.flights + [Flight(|c.table|, [], request)] && d.evicting == c.evicting
      && Elements(d.servers) == Elements(c.servers) + {|c.table|} && |d.table| == |c.table| + 1
  {
  }

  /** A new entry is made while its base is locked. */
  lemma CreateEntry(l: Linked, m: Move)
    requires Locks.Inv(l.locks) && Reachable(l.cache) && Agree(l) && CanGo(l, m) && m.Go?
    requires l.locks.pc[m.t].Creating? && m.ok
    ensures GoesWell(l, m)
  {
    var s, c := l.locks, l.cache;
    MovedBy(l, m);
    assert !FlownBy(s, s.pc[m.t].base);
    var st := Begin(l.asked[m.t], true, m.size);
    BeginCreates(c, l.asked[m.t], m.size);
    ReachableStep(c, st);
    FlightLocks(c, Apply(c, st), Flight(|c.table|, [], l.asked[m.t]));
    NewLock(s);
    FlightsFollow(s, Locks.Apply(s, LockStep(l, m)), c, Apply(c, st), m.t);
    StepGoesWell(l, m, st);
  }

  lemma NewLock(s: Locks.State)
    requires Locks.Inv(s)
    ensures s.next !in s.owner
  {
    forall f | f in s.owner ensures f < s.next {
      assert Locks.ThreadOk(s, s.owner[f]);
    }
  }

  /** A creation fails while its base is locked. */
  lemma FailEntry(l: Linked, m: Move)
    requires Locks.Inv(l.locks) && Reachable(l.cache) && Agree(l) && CanGo(l, m) && m.Go?
    requires l.locks.pc[m.t].Creating? && !m.ok
    ensures GoesWell(l, m)
  {
    var s, c := l.locks, l.cache;
    MovedBy(l, m);
    assert !FlownBy(s, s.pc[m.t].base);
    FailedBegin(c, l.asked[m.t], m.size);
    var st := Begin(l.asked[m.t], false, m.size);
    ReachableStep(c, st);
    assert forall f :: Locked(Apply(c, st), f) <==> Locked(c, f);
    FlightsFollow(s, Locks.Apply(s, LockStep(l, m)), c, Apply(c, st), m.t);
    StepGoesWell(l, m, st);
  }

  /** A fork request comes to its end, and the server's lock is released. */
  lemma LandFlight(l: Linked, m: Move)
    requires Locks.Inv(l.locks) && Reachable(l.cache) && Agree(l) && CanGo(l, m) && m.Go? && l.locks.pc[m.t].Forking?
    ensures GoesWell(l, m)
  {
    var s, c := l.locks, l.cache;
    MovedBy(l, m);
    assert OnTheWay(s.pc[m.t]) == Some(s.pc[m.t].server) && Locked(c, s.pc[m.t].server);
    var i := FlightTo(c.flights, s.pc[m.t].server);
    FlightLands(c, i, m.ok);
    LandedAgrees(l, m, ForkStep(c, i, m.ok));
    StepGoesWell(l, m, Fork(i, m.ok));
  }

  lemma LandedAgrees(l: Linked, m: Move, d: Cache)
    requires Locks.Inv(l.locks) && Agree(l) && CanGo(l, m) && m.Go? && l.locks.pc[m.t].Forking?
    requires LooksSame(l.cache, d)
    requires forall f :: Locked(d, f) <==> Locked(l.cache, f) && f != l.locks.pc[m.t].server
    ensures
      var r := Locks.Apply(l.locks, LockStep(l, m));
      && NamesAgree(r, d) && FlightsAgree(r, d) && NewLockIsFree(r)
      && VictimsAgree(r, d) && ChoicesAgree(r, d, l.asked)
  {
    MovedBy(l, m);
    var r := Locks.Apply(l.locks, LockStep(l, m));
    FlightsFollow(l.locks, r, l.cache, d, m.t);
    HolderKeeps(l.locks, r, l.cache, d, l.asked, l.asked, m.t);
  }

  lemma FlightLands(c: Cache, i: nat, ok: bool)
    requires Reachable(c) && Shaped(c) && i < |c.flights|
    ensures LooksSame(c, ForkStep(c, i, ok))
    ensures forall f :: Locked(ForkStep(c, i, ok), f) <==> Locked(c, f) && f != c.flights[i].server
  {
    ReachableInv(c);
    ForkUnlocks(c, i, ok);
    ForkLooksSame(c, i, ok);
  }

  /** A victim is a listed server other than the root. */
  lemma VictimIsListed(c: Cache, over: bool)
    requires Reachable(c) && Shaped(c) && c.evicting.None?
    ensures
      var d := CheckUsageStep(c, over);
      && Shaped(d) && d.servers == c.servers && |d.table| == |c.table| && d.flights == c.flights
      && (d.evicting.Some? ==> d.evicting.value in c.servers && d.evicting.value != 0)
  {
    ListIsATree(c);
    ReachableStep(c, CheckUsage(over));
    var idx := VictimUpTo(c, |c.servers|);
    if idx != 0 {
      assert c.servers[idx] in c.servers && c.servers[0] != c.servers[idx];
    }
  }

  lemma CheckFlights(l: Linked, m: Move)
    requires Locks.Inv(l.locks) && Agree(l) && CanGo(l, m) && m.Go? && l.locks.pc[m.t].EvictScan?
    ensures FlightsAgree(Locks.Apply(l.locks, LockStep(l, m)), CheckUsageStep(l.cache, m.over))
  {
    MovedBy(l, m);
    var d := CheckUsageStep(l.cache, m.over);
    assert forall f :: Locked(d, f) <==> Locked(l.cache, f);
    FlightsFollow(l.locks, Locks.Apply(l.locks, LockStep(l, m)), l.cache, d, m.t);
  }

  function CheckedPc(victim: Option<Fid>): Locks.Pc {
    match victim
    case None => Locks.LeaveManager
    case Some(v) => Locks.EvictWantVictim(v)
  }

  /** The thread that chose a victim goes for its lock; otherwise it leaves. */
  lemma CheckedLocks(l: Linked, m: Move)
    requires Agree(l) && CanGo(l, m) && m.Go? && l.locks.pc[m.t].EvictScan?
    requires
      var d := CheckUsageStep(l.cache, m.over);
      d.evicting.Some? ==> d.evicting.value in l.cache.servers && d.evicting.value != 0
    ensures
      Locks.Apply(l.locks, LockStep(l, m))
      == Locks.Goto(l.locks, m.t, CheckedPc(CheckUsageStep(l.cache, m.over).evicting))
  {
  }

  lemma CheckedAgrees(s: Locks.State, c: Cache, d: Cache, asked: seq<seq<Module>>, t: Locks.Tid)
    requires t < |s.pc| == |asked| && s.manager == Some(t) && NamesAgree(s, c)
    requires Shaped(d) && d.servers == c.servers && |d.table| == |c.table|
    ensures
      var r := Locks.Goto(s, t, CheckedPc(d.evicting));
      NamesAgree(r, d) && NewLockIsFree(r) && VictimsAgree(r, d) && ChoicesAgree(r, d, asked)
  {
  }

  /** The evictor checks the usage and chooses a victim. */
  lemma Check(l: Linked, m: Move)
    requires Locks.Inv(l.locks) && Reachable(l.cache) && Agree(l) && CanGo(l, m) && m.Go? && l.locks.pc[m.t].EvictScan?
    ensures GoesWell(l, m)
  {
    assert Locks.ThreadOk(l.locks, m.t);
    VictimIsListed(l.cache, m.over);
    CheckFlights(l, m);
    CheckedLocks(l, m);
    CheckedAgrees(l.locks, l.cache, CheckUsageStep(l.cache, m.over), l.asked, m.t);
    StepGoesWell(l, m, CheckUsage(m.over));
  }

  /** The victim, whose lock was seen free, leaves the list. */
  lemma Remove(l: Linked, m: Move)
    requires Locks.Inv(l.locks) && Reachable(l.cache) && Agree(l) && CanGo(l, m) && m.Go? && l.locks.pc[m.t].EvictRemove?
    ensures GoesWell(l, m)
  {
    var s, c := l.locks, l.cache;
    var v := s.pc[m.t].victim;
    MovedBy(l, m);
    assert !FlownBy(s, v);
    VictimLeaves(c, v);
    var d := UnlistStep(c, v);
    assert forall f :: Locked(d, f) <==> Locked(c, f);
    FlightsFollow(s, Locks.Apply(s, LockStep(l, m)), c, d, m.t);
    StepGoesWell(l, m, Unlist);
  }

  lemma VictimLeaves(c: Cache, v: Fid)
    requires Reachable(c) && Shaped(c) && c.evicting == Some(v) && !Locked(c, v)
    ensures Shaped(UnlistStep(c, v)) && Elements(UnlistStep(c, v).servers) == Elements(c.servers) - {v}
  {
    ListIsATree(c);
    WithoutDistinct(c.servers, v);
    ReachableStep(c, Unlist);
  }

  lemma ReapedAgrees(s: Locks.State, c: Cache, d: Cache, asked: seq<seq<Module>>)
    requires |asked| == |s.pc| && LooksSame(c, d) && d.flights == c.flights && Agree(Linked(s, c, asked))
    ensures Agree(Linked(s, d, asked))
  {
    SameImports(c, d);
    assert forall f :: Locked(d, f) <==> Locked(c, f);
  }

  lemma ReapServer(l: Linked, m: Move)
    requires Reachable(l.cache) && Agree(l) && CanGo(l, m) && m.Reap?
    ensures GoesWell(l, m)
  {
    var d := KillStep(l.cache, m.victim);
    ReachableStep(l.cache, Kill(m.victim));
    KillLooksSame(l.cache, m.victim);
    ReapedAgrees(l.locks, l.cache, d, l.asked);
    assert After(l, m) == l.(cache := d);
  }

  lemma MoveGoesWell(l: Linked, m: Move)
    requires Linkable(l) && CanGo(l, m)
    ensures GoesWell(l, m)
  {
    Locks.ReachableInv(l.locks);
    match m {
      case Reap(_) => ReapServer(l, m);
      case Go(t, _, ok, _, _) =>
        match l.locks.pc[t] {
          case WantServer(_, created) => if created { LockOnly(l, m); } else { TakeServer(l, m); }
          case Creating(_) => if ok { CreateEntry(l, m); } else { FailEntry(l, m); }
          case Forking(_) => LandFlight(l, m);
          case EvictScan => Check(l, m);
          case EvictRemove(_) => Remove(l, m);
          case _ => LockOnly(l, m);
        }
    }
  }

  // ----- whole runs

  lemma LocksStay(s: Locks.State, st: Locks.Step)
    requires Locks.Reachable(s) && Locks.Enabled(s, st)
    ensures Locks.Reachable(Locks.Apply(s, st))
  {
    var threads: nat, run: seq<Locks.Step> :| s == Locks.Exec(Locks.Initial(threads), run);
    assert (run + [st])[..|run|] == run;
    assert Locks.Exec(Locks.Initial(threads), run + [st]) == Locks.Apply(s, st);
  }

  lemma MoveStaysLinkable(l: Linked, m: Move)
    requires Linkable(l)
    ensures Linkable(After(l, m))
  {
    if CanGo(l, m) {
      MoveGoesWell(l, m);
      if m.Go? {
        LocksStay(l.locks, LockStep(l, m));
      }
      if CacheStep(l, m).Some? {
        ReachableStep(l.cache, CacheStep(l, m).value);
      }
    }
  }

  lemma StartIsLinkable(requests: nat, importable: set<Module>)
    ensures Linkable(Initially(requests, importable))
  {
    var l := Initially(requests, importable);
    assert l.locks == Locks.Exec(Locks.Initial(1 + requests), []);
    assert l.cache == ImportCacheProofs.Exec(Initial(importable), []);
    ReachableInv(l.cache);
  }

  lemma {:induction false} RunIsLinkable(requests: nat, importable: set<Module>, moves: seq<Move>)
    ensures Linkable(Run(Initially(requests, importable), moves))
  {
    if moves == [] {
      StartIsLinkable(requests, importable);
    } else {
      RunIsLinkable(requests, importable, moves[..|moves| - 1]);
      MoveStaysLinkable(Run(Initially(requests, importable), moves[..|moves| - 1]), moves[|moves| - 1]);
    }
  }

  /** Whatever the interleaving of the lock operations: the locks are those of a run of the lock
      protocol, the cache is that of a run of the cache, its list and names are the protocol's, a server is
      in use exactly while a thread is on its way with it, an eviction is going on exactly while the thread
      with the manager's lock is at it, and every step that the cache takes is one that its model allows. */
  lemma InterleavingsAreCacheRuns(requests: nat, importable: set<Module>, moves: seq<Move>, m: Move)
    ensures
      var l := Run(Initially(requests, importable), moves);
      && Locks.Reachable(l.locks) && Reachable(l.cache)
      && NamesAgree(l.locks, l.cache) && FlightsAgree(l.locks, l.cache) && VictimsAgree(l.locks, l.cache)
      && (CanGo(l, m) ==> GoesWell(l, m))
  {
    RunIsLinkable(requests, importable, moves);
    var l := Run(Initially(requests, importable), moves);
    if CanGo(l, m) {
      MoveGoesWell(l, m);
    }
  }

  /** So in every interleaving each process whose request has no duplicate holds what importing the
      request from scratch gives. */
  lemma TransparentInEveryInterleaving(requests: nat, importable: set<Module>, moves: seq<Move>)
    ensures
      var c := Run(Initially(requests, importable), moves).cache;
      forall p :: p in c.processes && Distinct(p.request) ==> p.modules == FromScratch(p.request, c.importable)
  {
    RunIsLinkable(requests, importable, moves);
    CacheIsTransparent(Run(Initially(requests, importable), moves).cache);
  }
}
