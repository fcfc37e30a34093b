/**
 The lock protocol of the import cache, one lock operation or fork request at a time.

 `Provision` takes the manager's lock, may take and release the lock of the base server while
 it creates an entry, takes the lock of the server it settled on, and only then releases the
 manager's. The evictor takes the manager's lock, chooses a victim, takes and releases the
 victim's lock, and unlists it. Any thread may do either, any number of times.
 */
module CacheLocks {
  import opened Collections

  type Tid = nat
  type Sid = nat

  /** What a thread is about to do, and which locks it holds meanwhile. `created` tells that the
      thread has made the server itself; it then waits for the server to come up before it forks. */
  datatype Pc =
    | Idle
    | WantManager
    | HasManager
    | WantBase(base: Sid)
    | Creating(base: Sid)
    | WantServer(server: Sid, created: bool)
    | HasBoth(server: Sid, created: bool)
    | HasServer(server: Sid, created: bool)
    | Forking(server: Sid)
    | Gone(server: Sid)
    | EvictWant
    | EvictScan
    | EvictWantVictim(victim: Sid)
    | EvictHasVictim(victim: Sid)
    | EvictRemove(victim: Sid)
    | LeaveManager

  /** `owner` holds the server locks that are taken, `next` is the name of the next new server. */
  datatype State = State(
    pc: seq<Pc>,
    manager: Option<Tid>,
    owner: map<Sid, Tid>,
    listed: set<Sid>,
    evicted: set<Sid>,
    next: Sid)

  /** Thread `t` goes on; `choice` and `flag` resolve what the protocol leaves open: the server
      that the matcher or the scan chooses, whether an entry is created, whether that succeeds. */
  datatype Step = Step(t: Tid, choice: Sid, flag: bool)

  function Initial(threads: nat): State {
    State(seq(threads, _ => Idle), None, map[], {0}, {}, 1)
  }

  predicate HoldsManager(pc: Pc) {
    match pc
    case HasManager | WantBase(_) | Creating(_) | WantServer(_, _) | HasBoth(_, _) => true
    case EvictScan | EvictWantVictim(_) | EvictHasVictim(_) | EvictRemove(_) | LeaveManager => true
    case _ => false
  }

  /** The server lock that a thread holds. No thread holds two. */
  function Held(pc: Pc): Option<Sid> {
    match pc
    case Creating(s) => Some(s)
    case HasBoth(s, _) => Some(s)
    case HasServer(s, _) => Some(s)
    case Forking(s) => Some(s)
    case Gone(s) => Some(s)
    case EvictHasVictim(s) => Some(s)
    case _ => None
  }

  /** The server lock that a thread waits for. */
  function Wanted(pc: Pc): Option<Sid> {
    match pc
    case WantBase(s) => Some(s)
    case WantServer(s, _) => Some(s)
    case EvictWantVictim(s) => Some(s)
    case _ => None
  }

  /** The server to which a fork request is in progress. */
  function ForkInProgress(pc: Pc): Option<Sid> {
    match pc
    case Creating(s) => Some(s)
    case Forking(s) => Some(s)
    case _ => None
  }

  /** The server to which a fork request is in progress or will be sent. */
  function Target(pc: Pc): Option<Sid> {
    match pc
    case WantBase(s) => Some(s)
    case Creating(s) => Some(s)
    case WantServer(s, _) => Some(s)
    case HasBoth(s, _) => Some(s)
    case HasServer(s, _) => Some(s)
    case Forking(s) => Some(s)
    case _ => None
  }

  /** A thread with this step can go on. */
  predicate CanMove(s: State, t: Tid) {
    t < |s.pc| &&
    var pc := s.pc[t];
    && pc != Idle && !pc.Gone?
    && (pc == WantManager || pc == EvictWant ==> s.manager.None?)
    && (Wanted(pc).Some? ==> Wanted(pc).value !in s.owner)
  }

  predicate Enabled(s: State, st: Step) {
    && st.t < |s.pc|
    && (s.pc[st.t] != Idle ==> CanMove(s, st.t))
    && (s.pc[st.t] == HasManager ==> st.choice in s.listed)
  }

  function Goto(s: State, t: Tid, pc: Pc): State
    requires t < |s.pc|
  {
    s.(pc := s.pc[t := pc])
  }

  function Acquire(s: State, t: Tid, server: Sid): State {
    s.(owner := s.owner[server := t])
  }

  function Release(s: State, server: Sid): State {
    s.(owner := s.owner - {server})
  }

  function Apply(s: State, st: Step): State
    requires Enabled(s, st)
  {
    var t := st.t;
    match s.pc[t]
    case Idle => Goto(s, t, if st.flag then WantManager else EvictWant)
    case WantManager => Goto(s.(manager := Some(t)), t, HasManager)
    case HasManager => Goto(s, t, if st.flag then WantBase(st.choice) else WantServer(st.choice, false))
    case WantBase(b) => Goto(Acquire(s, t, b), t, Creating(b))
    case Creating(b) =>
      if st.flag then
        Goto(Release(s, b).(listed := s.listed + {s.next}, next := s.next + 1), t, WantServer(s.next, true))
      else Goto(Release(s, b), t, LeaveManager)
    case WantServer(f, c) => Goto(Acquire(s, t, f), t, HasBoth(f, c))
    case HasBoth(f, c) => Goto(s.(manager := None), t, HasServer(f, c))
    case HasServer(f, c) => Goto(s, t, if c && !st.flag then Gone(f) else Forking(f))
    case Forking(f) => Goto(Release(s, f), t, Idle)
    case Gone(_) => s
    case EvictWant => Goto(s.(manager := Some(t)), t, EvictScan)
    case EvictScan =>
      Goto(s, t, if st.flag && st.choice in s.listed && st.choice != 0 then EvictWantVictim(st.choice) else LeaveManager)
    case EvictWantVictim(v) => Goto(Acquire(s, t, v), t, EvictHasVictim(v))
    case EvictHasVictim(v) => Goto(Release(s, v), t, EvictRemove(v))
    case EvictRemove(v) => Goto(s.(listed := s.listed - {v}, evicted := s.evicted + {v}), t, LeaveManager)
    case LeaveManager => Goto(s.(manager := None), t, Idle)
  }

  function Next(s: State, st: Step): State {
    if Enabled(s, st) then Apply(s, st) else s
  }

  function Exec(s: State, run: seq<Step>): State {
    if run == [] then s else Next(Exec(s, run[..|run| - 1]), run[|run| - 1])
  }

  // ----- the invariant

  predicate ThreadOk(s: State, t: Tid)
    requires t < |s.pc|
  {
    var pc := s.pc[t];
    && (HoldsManager(pc) <==> s.manager == Some(t))
    && (Held(pc).Some? ==> Held(pc).value in s.owner && s.owner[Held(pc).value] == t)
    && (Held(pc).Some? ==> Held(pc).value in s.listed)
    && (Target(pc).Some? ==> Target(pc).value in s.listed)
    && (pc.Gone? ==> pc.server != 0)
    && ((pc.WantServer? || pc.HasBoth? || pc.HasServer?) && pc.created ==> pc.server != 0)
    && (pc.EvictWantVictim? || pc.EvictHasVictim? ==> pc.victim in s.listed && pc.victim != 0)
    && (pc.EvictRemove? ==> pc.victim in s.listed && pc.victim != 0 && pc.victim !in s.owner)
  }

  ghost predicate Inv(s: State) {
    && (forall t: Tid :: t < |s.pc| ==> ThreadOk(s, t))
    && OwnersOk(s)
    && (s.manager.Some? ==> s.manager.value < |s.pc|)
    && 0 in s.listed && s.listed !! s.evicted
    && (forall f :: f in s.listed || f in s.evicted ==> f < s.next)
  }

  /** What a step of `t` may do to the locks and to the list. */
  predicate ManagerMoves(s: State, r: State, t: Tid) {
    || r.manager == s.manager
    || (s.manager.None? && r.manager == Some(t))
    || (s.manager == Some(t) && r.manager.None?)
  }

  ghost predicate OwnersMove(s: State, r: State, t: Tid) {
    || r.owner == s.owner
    || (s.manager == Some(t) && exists f: Sid :: f !in s.owner && r.owner == s.owner[f := t])
    || (exists f: Sid :: f in s.owner && s.owner[f] == t && r.owner == s.owner - {f})
  }

  ghost predicate ListMoves(s: State, r: State, t: Tid) {
    || r.listed == s.listed
    || r.listed == s.listed + {s.next}
    || (s.manager == Some(t) && exists v: Sid :: v !in s.owner && r.listed == s.listed - {v})
  }

  lemma Footprint(s: State, st: Step)
    requires Inv(s) && Enabled(s, st)
    ensures
      var r := Apply(s, st);
      && |r.pc| == |s.pc| && (forall u: Tid :: u < |s.pc| && u != st.t ==> r.pc[u] == s.pc[u])
      && ManagerMoves(s, r, st.t) && OwnersMove(s, r, st.t) && ListMoves(s, r, st.t)
  {
    assert ThreadOk(s, st.t);
    var r := Apply(s, st);
    match s.pc[st.t] {
      case WantBase(f) => assert f !in s.owner && r.owner == s.owner[f := st.t];
      case WantServer(f, _) => assert f !in s.owner && r.owner == s.owner[f := st.t];
      case EvictWantVictim(f) => assert f !in s.owner && r.owner == s.owner[f := st.t];
      case Creating(f) => assert f in s.owner && r.owner == s.owner - {f};
      case Forking(f) => assert f in s.owner && r.owner == s.owner - {f};
      case EvictHasVictim(f) => assert f in s.owner && r.owner == s.owner - {f};
      case EvictRemove(v) => assert v !in s.owner && r.listed == s.listed - {v};
      case _ =>
    }
  }

  lemma OthersKeep(s: State, r: State, t: Tid, u: Tid)
    requires Inv(s) && t < |s.pc| && u < |s.pc| == |r.pc| && u != t && r.pc[u] == s.pc[u]
    requires ManagerMoves(s, r, t) && OwnersMove(s, r, t) && ListMoves(s, r, t)
    ensures ThreadOk(r, u)
  {
    assert ThreadOk(s, u);
  }

  predicate TakesLock(pc: Pc) {
    pc.WantManager? || pc.EvictWant? || Wanted(pc).Some?
  }

  predicate ReleasesServer(pc: Pc) {
    pc.Creating? || pc.Forking? || pc.EvictHasVictim?
  }

  lemma TakerKeeps(s: State, st: Step)
    requires Inv(s) && Enabled(s, st) && TakesLock(s.pc[st.t])
    ensures ThreadOk(Apply(s, st), st.t)
  {
    assert ThreadOk(s, st.t);
  }

  lemma ReleaserKeeps(s: State, st: Step)
    requires Inv(s) && Enabled(s, st) && ReleasesServer(s.pc[st.t])
    ensures ThreadOk(Apply(s, st), st.t)
  {
    assert ThreadOk(s, st.t);
  }

  lemma MoverKeeps(s: State, st: Step)
    requires Inv(s) && Enabled(s, st)
    ensures ThreadOk(Apply(s, st), st.t)
  {
    if TakesLock(s.pc[st.t]) {
      TakerKeeps(s, st);
    } else if ReleasesServer(s.pc[st.t]) {
      ReleaserKeeps(s, st);
    } else {
      OtherKeeps(s, st);
    }
  }

  lemma OtherKeeps(s: State, st: Step)
    requires Inv(s) && Enabled(s, st) && !TakesLock(s.pc[st.t]) && !ReleasesServer(s.pc[st.t])
    ensures ThreadOk(Apply(s, st), st.t)
  {
    assert ThreadOk(s, st.t);
  }

  ghost predicate OwnersOk(s: State) {
    forall f :: f in s.owner ==> s.owner[f] < |s.pc| && Held(s.pc[s.owner[f]]) == Some(f)
  }

  lemma TakerOwns(s: State, st: Step)
    requires Inv(s) && Enabled(s, st) && TakesLock(s.pc[st.t])
    ensures OwnersOk(Apply(s, st))
  {
    assert ThreadOk(s, st.t);
  }

  lemma OwnersKeep(s: State, st: Step)
    requires Inv(s) && Enabled(s, st)
    ensures OwnersOk(Apply(s, st))
  {
    assert ThreadOk(s, st.t);
    if TakesLock(s.pc[st.t]) {
      TakerOwns(s, st);
    }
  }

  /** Whoever goes on satisfies its part; the others see no change that concerns them. */
  lemma InvStep(s: State, st: Step)
    requires Inv(s)
    ensures Inv(Next(s, st))
  {
    if Enabled(s, st) {
      var r := Apply(s, st);
      assert ThreadOk(s, st.t);
      Footprint(s, st);
      MoverKeeps(s, st);
      OwnersKeep(s, st);
      forall u: Tid | u < |r.pc| ensures ThreadOk(r, u) {
        if u != st.t {
          OthersKeep(s, r, st.t, u);
        }
      }
      ListsKeep(s, st);
    }
  }

  lemma ListsKeep(s: State, st: Step)
    requires Inv(s) && Enabled(s, st)
    ensures
      var r := Apply(s, st);
      && (r.manager.Some? ==> r.manager.value < |r.pc|)
      && 0 in r.listed && r.listed !! r.evicted
      && (forall f :: f in r.listed || f in r.evicted ==> f < r.next)
  {
    assert ThreadOk(s, st.t);
  }

  lemma {:induction false} InvRun(threads: nat, run: seq<Step>)
    ensures Inv(Exec(Initial(threads), run))
  {
    if run != [] {
      InvRun(threads, run[..|run| - 1]);
      InvStep(Exec(Initial(threads), run[..|run| - 1]), run[|run| - 1]);
    }
  }

  ghost predicate Reachable(s: State) {
    exists threads: nat, run: seq<Step> :: s == Exec(Initial(threads), run)
  }

  lemma ReachableInv(s: State)
    requires Reachable(s)
    ensures Inv(s)
  {
    var threads: nat, run: seq<Step> :| s == Exec(Initial(threads), run);
    InvRun(threads, run);
  }

  // ----- the results

  /** In every interleaving, at most one fork request is in progress on each server. */
  lemma ForkRequestsExclude(s: State, t: Tid, u: Tid)
    requires Reachable(s) && t < |s.pc| && u < |s.pc| && t != u
    requires ForkInProgress(s.pc[t]).Some?
    ensures ForkInProgress(s.pc[t]) != ForkInProgress(s.pc[u])
    ensures Held(s.pc[t]) == ForkInProgress(s.pc[t])
  {
    ReachableInv(s);
    assert ThreadOk(s, t) && ThreadOk(s, u);
  }

  /** In every interleaving, no fork request is in progress on an evicted server, nor will one be
      sent to it by a thread that has chosen it. */
  lemma EvictedServersAreNotForked(s: State, t: Tid)
    requires Reachable(s) && t < |s.pc| && Target(s.pc[t]).Some?
    ensures Target(s.pc[t]).value in s.listed && Target(s.pc[t]).value !in s.evicted
  {
    ReachableInv(s);
    assert ThreadOk(s, t);
  }

  /** Locks are taken in one order: a server lock only with the manager's and no other server lock
      in hand, the manager's lock only with no server lock in hand. */
  lemma LockOrder(s: State, st: Step, f: Sid)
    requires Reachable(s) && Enabled(s, st)
    ensures f !in s.owner && f in Apply(s, st).owner ==>
              s.manager == Some(st.t) && Held(s.pc[st.t]).None? && Apply(s, st).owner[f] == st.t
    ensures s.manager != Apply(s, st).manager && Apply(s, st).manager.Some? ==>
              s.manager.None? && Apply(s, st).manager == Some(st.t) && Held(s.pc[st.t]).None?
    ensures f in s.owner && f in Apply(s, st).owner ==> Apply(s, st).owner[f] == s.owner[f]
    ensures f in s.owner && f !in Apply(s, st).owner ==> s.owner[f] == st.t
  {
    ReachableInv(s);
    assert ThreadOk(s, st.t);
  }

  /** No deadlock: while no thread has left with a server's lock, some busy thread can go on. */
  lemma SomeThreadCanMove(s: State, t: Tid) returns (u: Tid)
    requires Reachable(s) && t < |s.pc| && s.pc[t] != Idle
    requires forall v: Tid :: v < |s.pc| ==> !s.pc[v].Gone?
    ensures CanMove(s, u)
  {
    ReachableInv(s);
    assert ThreadOk(s, t);
    if s.manager.Some? {
      u := s.manager.value;
      assert ThreadOk(s, u);
      if Wanted(s.pc[u]).Some? && Wanted(s.pc[u]).value in s.owner {
        u := s.owner[Wanted(s.pc[u]).value];
        assert ThreadOk(s, u);
      }
    } else {
      u := t;
    }
  }
}
