/**
 What every run of the handler pool keeps, however its steps interleave: `Inv` holds in every
 reachable state, so that nothing in use is reclaimed.
 */
module HandlerPoolProofs {
  import opened Collections
  import opened HandlerPool

  // ----- the invariant of every run

  predicate Listable(maxRunners: nat, r: Handler) {
    && !r.retired
    && (maxRunners == 0 || r.runners < maxRunners)
    && !(maxRunners == 1 && r.limbo)
  }

  ghost predicate ManagerOk(p: Pool, n: string)
    requires WellFormed(p) && n in p.managers
  {
    var m := p.managers[n];
    && Distinct(m.handlers)
    && m.elements == Elements(m.handlers)
    && forall h :: h in m.elements ==> h < |p.hs| && p.hs[h].name == n
  }

  predicate CountsOk(r: Handler) {
    && r.gotten >= 0 && r.active >= 0 && r.leaked >= 0
    && r.runners == r.gotten + r.active + r.leaked
    && (r.retired || r.limbo ==> r.runners == 0)
    && (r.nuked ==> r.retired)
  }

  predicate SandboxOk(r: Handler) {
    && (r.active > 0 ==> r.sandbox.Some?)
    && (r.sandbox == Some(Paused) ==> r.active == 0)
    && (r.sandbox == Some(Stopped) <==> r.startFailed || r.nuked)
  }

  ghost predicate HandlerOk(p: Pool, h: Hid)
    requires WellFormed(p) && h < |p.hs|
  {
    var r := p.hs[h];
    && CountsOk(r)
    && SandboxOk(r)
    && (h in p.managers[r.name].elements <==> Listable(p.maxRunners, r))
    && (h in p.lru.keys ==> r.runners == 0 && !r.limbo && r.sandbox.Some?)
    && (!r.retired && r.runners == 0 && !r.limbo ==> h in p.lru.keys)
    && (h in p.pending ==> r.sandbox.Some?)
    && (r.limbo && !r.retired ==> h in p.pending)
    && (h in p.nukes ==> r.retired && r.sandbox.Some?)
  }

  ghost predicate LruOk(l: Lru) {
    Distinct(l.queue) && l.keys == Elements(l.queue)
  }

  ghost predicate Inv(p: Pool) {
    && WellFormed(p)
    && LruOk(p.lru)
    && (forall n :: n in p.managers ==> ManagerOk(p, n))
    && (forall h :: 0 <= h < |p.hs| ==> HandlerOk(p, h))
  }

  lemma PushFrontDistinct(s: seq<Hid>, h: Hid)
    requires Distinct(s) && h !in s
    ensures Distinct([h] + s) && Elements([h] + s) == {h} + Elements(s)
  {
  }

  lemma DropFrontDistinct(s: seq<Hid>)
    requires Distinct(s) && s != []
    ensures Distinct(s[1..]) && Elements(s[1..]) == Elements(s) - {s[0]}
  {
    assert s == [s[0]] + s[1..];
    assert s[0] !in s[1..];
  }

  lemma DropBackDistinct(s: seq<Hid>)
    requires Distinct(s) && s != []
    ensures Distinct(s[..|s| - 1]) && Elements(s[..|s| - 1]) == Elements(s) - {s[|s| - 1]}
  {
    assert s == s[..|s| - 1] + [s[|s| - 1]];
    assert s[|s| - 1] !in s[..|s| - 1];
  }

  lemma InvGetNew(p: Pool, name: string)
    requires Inv(p) && ManagerOf(p, name).handlers == []
    ensures Inv(GetStep(p, name))
  {
    GetWellFormed(p, name);
    var q := GetStep(p, name);
    var m := ManagerOf(p, name);
    assert m.elements == {};
    PushFrontDistinct(m.handlers, |p.hs|);
    assert |p.hs| !in p.lru.keys;
    assert |p.hs| !in p.pending && |p.hs| !in p.nukes;
    forall n | n in q.managers ensures ManagerOk(q, n) {
      if n != name { assert ManagerOk(p, n); }
    }
    forall h | 0 <= h < |q.hs| ensures HandlerOk(q, h) {
      if h < |p.hs| { assert HandlerOk(p, h); }
    }
  }

  lemma InvGetListed(p: Pool, name: string)
    requires Inv(p) && ManagerOf(p, name).handlers != []
    ensures Inv(GetStep(p, name))
  {
    GetWellFormed(p, name);
    var q := GetStep(p, name);
    var m := p.managers[name];
    var h := m.handlers[0];
    assert ManagerOk(p, name) && h in m.elements;
    assert HandlerOk(p, h);
    DropFrontDistinct(m.handlers);
    WithoutDistinct(p.lru.queue, h);
    assert q.lru.keys == p.lru.keys - {h};
    forall n | n in q.managers ensures ManagerOk(q, n) {
      assert ManagerOk(p, n);
    }
    forall k | 0 <= k < |q.hs| ensures HandlerOk(q, k) {
      assert HandlerOk(p, k);
      assert ManagerOk(p, p.hs[k].name);
    }
  }

  lemma InvRunStart(p: Pool, h: Hid, outcome: StartOutcome, created: SandboxState)
    requires Inv(p) && Enabled(p, Step.RunStart(h, outcome, created))
    ensures Inv(RunStartStep(p, h, outcome, created))
  {
    var q := RunStartStep(p, h, outcome, created);
    assert HandlerOk(p, h);
    forall n | n in q.managers ensures ManagerOk(q, n) {
      assert ManagerOk(p, n);
    }
    forall k | 0 <= k < |q.hs| ensures HandlerOk(q, k) {
      assert HandlerOk(p, k);
    }
  }

  /** A finish rewrites one handler record, relists it if it left its limit, and may enter it
      in the LRU or in the pending removals. */
  lemma InvFinished(p: Pool, q: Pool, h: Hid)
    requires Inv(p) && WellFormed(q) && h < |p.hs| && LruOk(q.lru)
    requires |q.hs| == |p.hs| && q.hs == p.hs[h := q.hs[h]] && q.hs[h].name == p.hs[h].name
    requires q.maxRunners == p.maxRunners && q.nukes == p.nukes
    requires q.managers == p.managers || q.managers == p.managers[p.hs[h].name := q.managers[p.hs[h].name]]
    requires ManagerOk(q, p.hs[h].name)
    requires q.managers[p.hs[h].name].elements - {h} == p.managers[p.hs[h].name].elements - {h}
    requires q.lru.keys - {h} == p.lru.keys - {h}
    requires q.pending == p.pending || q.pending == p.pending + multiset{h}
    requires HandlerOk(q, h)
    ensures Inv(q)
  {
    forall n | n in q.managers ensures ManagerOk(q, n) {
      assert ManagerOk(p, n);
    }
    forall k | 0 <= k < |q.hs| ensures HandlerOk(q, k) {
      assert HandlerOk(p, k);
      if k != h {
        assert k in q.lru.keys - {h} <==> k in q.lru.keys;
        assert k in p.lru.keys - {h} <==> k in p.lru.keys;
        var n := p.hs[h].name;
        assert k in q.managers[n].elements - {h} <==> k in q.managers[n].elements;
        assert k in p.managers[n].elements - {h} <==> k in p.managers[n].elements;
      }
    }
  }

  lemma RelistOk(p: Pool, h: Hid)
    requires Inv(p) && h < |p.hs| && p.hs[h].active > 0
    ensures
      var n := p.hs[h].name;
      var m' := AddHandler(p.managers[n], h, p.hs[h].runners - 1, p.maxRunners);
      && Distinct(m'.handlers) && m'.elements == Elements(m'.handlers)
      && m'.elements - {h} == p.managers[n].elements - {h}
      && (h in m'.elements <==> p.maxRunners == 0 || p.hs[h].runners - 1 < p.maxRunners)
      && forall k :: k in m'.elements ==> k < |p.hs| && p.hs[k].name == n
  {
    assert HandlerOk(p, h) && ManagerOk(p, p.hs[h].name);
    var m := p.managers[p.hs[h].name];
    if h !in m.handlers {
      PushFrontDistinct(m.handlers, h);
    }
  }

  lemma InvFinishBusy(p: Pool, h: Hid, u1: nat, u2: nat, ok: bool)
    requires Inv(p) && Enabled(p, RunFinish(h, u1, u2, ok)) && p.hs[h].runners > 1
    ensures Inv(RunFinishStep(p, h, u1, u2, ok))
  {
    ApplyWellFormed(p, RunFinish(h, u1, u2, ok));
    RelistOk(p, h);
    assert HandlerOk(p, h);
    InvFinished(p, RunFinishStep(p, h, u1, u2, ok), h);
  }

  lemma InvFinishOverLimit(p: Pool, h: Hid, u1: nat, u2: nat, ok: bool)
    requires Inv(p) && Enabled(p, RunFinish(h, u1, u2, ok)) && p.hs[h].runners == 1 && u1 > p.softLimit
    ensures Inv(RunFinishStep(p, h, u1, u2, ok))
  {
    ApplyWellFormed(p, RunFinish(h, u1, u2, ok));
    assert HandlerOk(p, h) && ManagerOk(p, p.hs[h].name);
    InvFinished(p, RunFinishStep(p, h, u1, u2, ok), h);
  }

  lemma InvFinishIdle(p: Pool, h: Hid, u1: nat, u2: nat, ok: bool)
    requires Inv(p) && Enabled(p, RunFinish(h, u1, u2, ok)) && p.hs[h].runners == 1 && u1 <= p.softLimit
    ensures Inv(RunFinishStep(p, h, u1, u2, ok))
    ensures !RunFinishStep(p, h, u1, u2, ok).crashed
  {
    ApplyWellFormed(p, RunFinish(h, u1, u2, ok));
    RelistOk(p, h);
    assert HandlerOk(p, h);
    assert h !in p.lru.queue;
    PushFrontDistinct(p.lru.queue, h);
    InvFinished(p, RunFinishStep(p, h, u1, u2, ok), h);
  }

  /** The panic on a double insertion never happens. */
  lemma InvRunFinish(p: Pool, h: Hid, u1: nat, u2: nat, ok: bool)
    requires Inv(p) && Enabled(p, RunFinish(h, u1, u2, ok))
    ensures Inv(RunFinishStep(p, h, u1, u2, ok))
    ensures !RunFinishStep(p, h, u1, u2, ok).crashed
  {
    assert HandlerOk(p, h);
    if p.hs[h].runners > 1 {
      InvFinishBusy(p, h, u1, u2, ok);
    } else if u1 > p.softLimit {
      InvFinishOverLimit(p, h, u1, u2, ok);
    } else {
      InvFinishIdle(p, h, u1, u2, ok);
    }
  }

  /** A handler leaves its list and perhaps the LRU, and goes to nuke. */
  function Retire(p: Pool, h: Hid, l: Lru, pending: multiset<Hid>): Pool
    requires h < |p.hs| && p.hs[h].name in p.managers
  {
    var r := p.hs[h];
    p.(lru := l,
       pending := pending,
       hs := p.hs[h := r.(retired := true)],
       managers := p.managers[r.name := DropHandler(p.managers[r.name], h)],
       nukes := p.nukes + multiset{h})
  }

  ghost predicate RetiresFrom(p: Pool, h: Hid, l: Lru, pending: multiset<Hid>) {
    && h < |p.hs| && p.hs[h].runners == 0 && p.hs[h].sandbox.Some?
    && LruOk(l) && l.keys <= p.lru.keys && p.lru.keys - {h} <= l.keys
    && (forall x :: x in l.queue ==> x in p.lru.queue)
    && (pending == p.pending || pending == p.pending - multiset{h})
  }

  lemma RetireWellFormed(p: Pool, h: Hid, l: Lru, pending: multiset<Hid>)
    requires WellFormed(p) && RetiresFrom(p, h, l, pending)
    ensures WellFormed(Retire(p, h, l, pending))
  {
    DropWellFormed(p, p.hs[h].name, h);
  }

  lemma RetireManagers(p: Pool, h: Hid, l: Lru, pending: multiset<Hid>, n: string)
    requires Inv(p) && RetiresFrom(p, h, l, pending) && n in p.managers
    requires WellFormed(Retire(p, h, l, pending))
    ensures ManagerOk(Retire(p, h, l, pending), n)
  {
    assert ManagerOk(p, n) && ManagerOk(p, p.hs[h].name);
    WithoutDistinct(p.managers[p.hs[h].name].handlers, h);
  }

  lemma RetireHandlers(p: Pool, h: Hid, l: Lru, pending: multiset<Hid>, k: Hid)
    requires Inv(p) && RetiresFrom(p, h, l, pending) && k < |p.hs|
    requires WellFormed(Retire(p, h, l, pending))
    ensures HandlerOk(Retire(p, h, l, pending), k)
  {
    assert HandlerOk(p, k) && HandlerOk(p, h);
  }

  /** TryRemoveHandler, and the part of an eviction that it shares. */
  lemma InvRetire(p: Pool, h: Hid, l: Lru, pending: multiset<Hid>)
    requires Inv(p) && RetiresFrom(p, h, l, pending)
    ensures Inv(Retire(p, h, l, pending))
  {
    RetireWellFormed(p, h, l, pending);
    var q := Retire(p, h, l, pending);
    forall n | n in q.managers ensures ManagerOk(q, n) {
      RetireManagers(p, h, l, pending, n);
    }
    forall k | 0 <= k < |q.hs| ensures HandlerOk(q, k) {
      RetireHandlers(p, h, l, pending, k);
    }
  }

  lemma InvTryRemove(p: Pool, h: Hid)
    requires Inv(p) && Enabled(p, TryRemove(h))
    ensures Inv(TryRemoveStep(p, h))
  {
    var q := TryRemoveStep(p, h);
    assert HandlerOk(p, h);
    if p.hs[h].runners > 0 {
      forall n | n in q.managers ensures ManagerOk(q, n) {
        assert ManagerOk(p, n);
      }
      forall k | 0 <= k < |q.hs| ensures HandlerOk(q, k) {
        assert HandlerOk(p, k);
      }
    } else {
      InvRetire(p, h, p.lru, p.pending - multiset{h});
      assert q == Retire(p, h, p.lru, p.pending - multiset{h});
    }
  }

  lemma InvEvict(p: Pool)
    requires Inv(p)
    ensures Inv(EvictStep(p))
  {
    if p.lru.queue != [] {
      var n := |p.lru.queue| - 1;
      var h := p.lru.queue[n];
      assert h in p.lru.queue;
      assert HandlerOk(p, h);
      DropBackDistinct(p.lru.queue);
      if h in p.managers[p.hs[h].name].elements {
        var l := Lru(p.lru.queue[..n], p.lru.keys - {h}, p.lru.size - p.hs[h].usage);
        InvRetire(p, h, l, p.pending);
        InvEvictor(Retire(p, h, l, p.pending), false, p.crashed);
        assert EvictStep(p) == Retire(p, h, l, p.pending).(evicting := false, crashed := p.crashed);
      } else {
        InvEvictor(p, false, true);
      }
    } else {
      InvEvictor(p, false, p.crashed);
    }
  }

  /** Where the evictor stands is no part of the invariant. */
  lemma InvEvictor(p: Pool, evicting: bool, crashed: bool)
    requires Inv(p)
    ensures Inv(p.(evicting := evicting, crashed := crashed))
  {
    var q := p.(evicting := evicting, crashed := crashed);
    forall n | n in q.managers ensures ManagerOk(q, n) {
      assert ManagerOk(p, n);
    }
    forall k | 0 <= k < |q.hs| ensures HandlerOk(q, k) {
      assert HandlerOk(p, k);
    }
  }

  lemma InvNuke(p: Pool, h: Hid)
    requires Inv(p) && Enabled(p, Nuke(h))
    ensures Inv(NukeStep(p, h))
  {
    var q := NukeStep(p, h);
    assert HandlerOk(p, h);
    forall n | n in q.managers ensures ManagerOk(q, n) {
      assert ManagerOk(p, n);
    }
    forall k | 0 <= k < |q.hs| ensures HandlerOk(q, k) {
      assert HandlerOk(p, k);
    }
  }

  lemma InvStep(p: Pool, st: Step)
    requires Inv(p)
    ensures Inv(Next(p, st))
  {
    if Enabled(p, st) {
      match st {
        case Get(name) =>
          if ManagerOf(p, name).handlers == [] { InvGetNew(p, name); } else { InvGetListed(p, name); }
        case RunStart(h, outcome, created) => InvRunStart(p, h, outcome, created);
        case RunFinish(h, u1, u2, ok) => InvRunFinish(p, h, u1, u2, ok);
        case TryRemove(h) => InvTryRemove(p, h);
        case CheckSize => InvEvictor(p, true, p.crashed);
        case Evict => InvEvict(p);
        case Nuke(h) => InvNuke(p, h);
      }
    }
  }

  /** The states of all runs, from every configuration. */
  ghost predicate Reachable(p: Pool) {
    exists maxRunners: nat, softLimit: int, run: seq<Step> ::
      p == Exec(Initial(maxRunners, softLimit), run)
  }

  lemma {:induction false} InvRun(maxRunners: nat, softLimit: int, run: seq<Step>)
    ensures Inv(Exec(Initial(maxRunners, softLimit), run))
  {
    if run != [] {
      InvRun(maxRunners, softLimit, run[..|run| - 1]);
      InvStep(Exec(Initial(maxRunners, softLimit), run[..|run| - 1]), run[|run| - 1]);
    }
  }

  lemma ReachableInv(p: Pool)
    requires Reachable(p)
    ensures Inv(p)
  {
    var maxRunners: nat, softLimit: int, run: seq<Step> :| p == Exec(Initial(maxRunners, softLimit), run);
    InvRun(maxRunners, softLimit, run);
  }

  // ----- nothing in use is reclaimed

  /** What holds of a handler while a request is between its RunStart and its RunFinish. */
  ghost predicate InUse(p: Pool, h: Hid)
    requires h < |p.hs|
  {
    var r := p.hs[h];
    && !r.retired && !r.nuked && h !in p.nukes && h !in p.lru.queue && h !in p.lru.keys
    && r.sandbox.Some? && r.sandbox != Some(Paused)
    && (r.sandbox == Some(Running) <==> !r.startFailed)
  }

  /** In every interleaving, a handler that serves a request is outside the LRU, not reclaimed
      nor about to be, and its sandbox runs unless its very first start failed. */
  lemma ActiveHandlersAreSafe(p: Pool, h: Hid)
    requires Reachable(p) && h < |p.hs| && p.hs[h].active > 0
    ensures InUse(p, h)
  {
    ReachableInv(p);
    assert HandlerOk(p, h);
    var s: SandboxState := p.hs[h].sandbox.value;
    assert s == Running || s == Stopped || s == Paused;
  }

  /** Whoever is retired or nuked had no runner, and a retired handler stays so, without runner. */
  predicate ReclaimedIdle(r: Handler, r': Handler) {
    && (r'.retired && !r.retired ==> r.runners == 0)
    && (r'.nuked && !r.nuked ==> r.retired)
    && (r.retired ==> r'.retired && r'.runners == 0)
  }

  lemma GetReclaimsNothing(p: Pool, name: string, h: Hid)
    requires Inv(p) && h < |p.hs|
    ensures h < |GetStep(p, name).hs| && ReclaimedIdle(p.hs[h], GetStep(p, name).hs[h])
  {
    assert HandlerOk(p, h);
    var m := ManagerOf(p, name);
    if m.handlers != [] {
      assert ManagerOk(p, name) && m.handlers[0] in m.elements;
      assert HandlerOk(p, m.handlers[0]);
    }
  }

  lemma EvictReclaimsIdle(p: Pool, h: Hid)
    requires Inv(p) && h < |p.hs|
    ensures h < |EvictStep(p).hs| && ReclaimedIdle(p.hs[h], EvictStep(p).hs[h])
  {
    assert HandlerOk(p, h);
    if p.lru.queue != [] {
      var v := p.lru.queue[|p.lru.queue| - 1];
      assert v in p.lru.queue && HandlerOk(p, v);
    }
  }

  lemma FinishReclaimsNothing(p: Pool, k: Hid, u1: nat, u2: nat, ok: bool, h: Hid)
    requires Inv(p) && h < |p.hs| && Enabled(p, RunFinish(k, u1, u2, ok))
    ensures
      var q := RunFinishStep(p, k, u1, u2, ok);
      h < |q.hs| && ReclaimedIdle(p.hs[h], q.hs[h])
  {
    assert HandlerOk(p, h);
  }

  lemma RemovalReclaimsIdle(p: Pool, k: Hid, h: Hid)
    requires Inv(p) && h < |p.hs| && Enabled(p, TryRemove(k))
    ensures h < |TryRemoveStep(p, k).hs| && ReclaimedIdle(p.hs[h], TryRemoveStep(p, k).hs[h])
  {
    assert HandlerOk(p, h);
  }

  lemma StepReclaimsIdle(p: Pool, st: Step, h: Hid)
    requires Inv(p) && h < |p.hs| && Enabled(p, st)
    ensures h < |Apply(p, st).hs| && ReclaimedIdle(p.hs[h], Apply(p, st).hs[h])
  {
    assert HandlerOk(p, h);
    match st {
      case Get(name) => GetReclaimsNothing(p, name, h);
      case RunFinish(k, u1, u2, ok) => FinishReclaimsNothing(p, k, u1, u2, ok, h);
      case TryRemove(k) => RemovalReclaimsIdle(p, k, h);
      case Evict => EvictReclaimsIdle(p, h);
      case _ =>
    }
  }

  /** In every interleaving, a step that retires or nukes a handler finds no request holding it,
      started or not, and a retired handler never gets another one. */
  lemma OnlyIdleHandlersAreReclaimed(p: Pool, st: Step, h: Hid)
    requires Reachable(p) && WellFormed(p) && h < |p.hs|
    ensures h < |Next(p, st).hs| && ReclaimedIdle(p.hs[h], Next(p, st).hs[h])
  {
    ReachableInv(p);
    assert HandlerOk(p, h);
    if Enabled(p, st) {
      StepReclaimsIdle(p, st, h);
    }
  }

  /** Get never hands out a retired handler, nor one past its runner limit. */
  lemma GetReturnsLiveHandler(p: Pool, name: string)
    requires Reachable(p) && WellFormed(p)
    ensures
      var h := Gotten(p, name);
      var q := GetStep(p, name);
      && h < |q.hs| && q.hs[h].name == name
      && !q.hs[h].retired && !q.hs[h].nuked && q.hs[h].runners >= 1
      && (p.maxRunners != 0 ==> q.hs[h].runners <= p.maxRunners)
      && h !in q.lru.keys
  {
    ReachableInv(p);
    var m := ManagerOf(p, name);
    if m.handlers != [] {
      var h := m.handlers[0];
      assert ManagerOk(p, name) && h in m.elements;
      assert HandlerOk(p, h);
    } else {
      assert |p.hs| !in p.lru.queue;
    }
  }

  /** The first start of the handler fails and leaves its sandbox stopped. */
  predicate FailsFirstStart(p: Pool, st: Step, h: Hid) {
    Enabled(p, st) && h < |p.hs| && st == Step.RunStart(h, LeftAsCreated, Stopped) && p.hs[h].sandbox == None
  }

  /** What a step may do to the flag. */
  predicate FailedFlag(p: Pool, q: Pool, h: Hid, fails: bool) {
    h < |q.hs| && q.hs[h].startFailed <==> (h < |p.hs| && p.hs[h].startFailed) || fails
  }

  lemma StartFailedGet(p: Pool, name: string, h: Hid)
    requires WellFormed(p)
    ensures FailedFlag(p, GetStep(p, name), h, false)
  {
    var m := ManagerOf(p, name);
    if m.handlers != [] {
      assert m.handlers[0] in m.handlers;
    }
  }

  lemma StartFailedRunStart(p: Pool, k: Hid, outcome: StartOutcome, created: SandboxState, h: Hid)
    requires k < |p.hs|
    ensures
      FailedFlag(p, RunStartStep(p, k, outcome, created), h,
                 k == h && outcome == LeftAsCreated && created == Stopped && p.hs[k].sandbox == None)
  {
    assert created == Stopped || created == Running || created == Paused;
  }

  lemma StartFailedEvict(p: Pool, h: Hid)
    requires WellFormed(p)
    ensures FailedFlag(p, EvictStep(p), h, false)
  {
    if p.lru.queue != [] {
      assert p.lru.queue[|p.lru.queue| - 1] in p.lru.queue;
    }
  }

  lemma StartFailedFinish(p: Pool, k: Hid, u1: nat, u2: nat, ok: bool, h: Hid)
    requires WellFormed(p) && k < |p.hs|
    ensures FailedFlag(p, RunFinishStep(p, k, u1, u2, ok), h, false)
  {
  }

  lemma StartFailedStep(p: Pool, st: Step, h: Hid)
    requires WellFormed(p)
    ensures FailedFlag(p, Next(p, st), h, FailsFirstStart(p, st, h))
  {
    if Enabled(p, st) {
      match st {
        case Get(name) => StartFailedGet(p, name, h);
        case RunStart(k, outcome, created) => StartFailedRunStart(p, k, outcome, created, h);
        case RunFinish(k, u1, u2, ok) => StartFailedFinish(p, k, u1, u2, ok, h);
        case Evict => StartFailedEvict(p, h);
        case _ =>
      }
    }
  }

  /** Some step of the run fails the first start of the handler. */
  predicate SomeStartFails(p: Pool, run: seq<Step>, h: Hid)
    requires WellFormed(p)
  {
    run != [] &&
    var init := run[..|run| - 1];
    SomeStartFails(p, init, h) || FailsFirstStart(Exec(p, init), run[|run| - 1], h)
  }

  /** `startFailed` in terms of the run alone. */
  lemma {:induction false} StartFailedIff(maxRunners: nat, softLimit: int, run: seq<Step>, h: Hid)
    ensures
      var p := Initial(maxRunners, softLimit);
      h < |Exec(p, run).hs| && Exec(p, run).hs[h].startFailed <==> SomeStartFails(p, run, h)
  {
    if run != [] {
      var init := run[..|run| - 1];
      StartFailedIff(maxRunners, softLimit, init, h);
      StartFailedStep(Exec(Initial(maxRunners, softLimit), init), run[|run| - 1], h);
    }
  }

  /** In every state of every run, the sandbox of a request in service runs if and only if no start of
      its handler left a fresh sandbox stopped. */
  lemma ActiveSandboxRunsIff(maxRunners: nat, softLimit: int, run: seq<Step>, h: Hid)
    requires
      var q := Exec(Initial(maxRunners, softLimit), run);
      h < |q.hs| && q.hs[h].active > 0
    ensures
      var p := Initial(maxRunners, softLimit);
      Exec(p, run).hs[h].sandbox == Some(Running) <==> !SomeStartFails(p, run, h)
  {
    ActiveHandlersAreSafe(Exec(Initial(maxRunners, softLimit), run), h);
    StartFailedIff(maxRunners, softLimit, run, h);
  }

  // ----- the longest list of each manager

  function Listed(p: Pool, name: string): nat {
    |ManagerOf(p, name).handlers|
  }

  /** How the manager of one lambda may change in a step. */
  predicate RecordsLongest(m: Manager, m': Manager) {
    |m.handlers| <= m.maxHandlers ==> m'.maxHandlers == Max(m.maxHandlers, |m'.handlers|)
  }

  lemma LongestGet(p: Pool, get: string, name: string)
    requires WellFormed(p)
    ensures RecordsLongest(ManagerOf(p, name), ManagerOf(GetStep(p, get), name))
  {
  }

  lemma LongestFinish(p: Pool, h: Hid, u1: nat, u2: nat, ok: bool, name: string)
    requires WellFormed(p) && h < |p.hs|
    ensures RecordsLongest(ManagerOf(p, name), ManagerOf(RunFinishStep(p, h, u1, u2, ok), name))
  {
  }

  lemma LongestEvict(p: Pool, name: string)
    requires WellFormed(p)
    ensures RecordsLongest(ManagerOf(p, name), ManagerOf(EvictStep(p), name))
  {
    if p.lru.queue != [] {
      var h := p.lru.queue[|p.lru.queue| - 1];
      assert h in p.lru.queue;
      WithoutElements(ManagerOf(p, name).handlers, h);
    }
  }

  lemma LongestTryRemove(p: Pool, h: Hid, name: string)
    requires WellFormed(p) && h < |p.hs|
    ensures RecordsLongest(ManagerOf(p, name), ManagerOf(TryRemoveStep(p, h), name))
  {
    WithoutElements(ManagerOf(p, name).handlers, h);
  }

  /** A step changes at most one list, and records its length when it is longer than ever. */
  lemma LongestStep(p: Pool, st: Step, name: string)
    requires WellFormed(p)
    ensures RecordsLongest(ManagerOf(p, name), ManagerOf(Next(p, st), name))
  {
    if Enabled(p, st) {
      match st {
        case Get(get) => LongestGet(p, get, name);
        case RunFinish(h, u1, u2, ok) => LongestFinish(p, h, u1, u2, ok, name);
        case TryRemove(h) => LongestTryRemove(p, h, name);
        case Evict => LongestEvict(p, name);
        case _ =>
      }
    }
  }

  /** The greatest length that the list of a lambda had in the states of a run. */
  function Longest(p: Pool, run: seq<Step>, name: string): nat
    requires WellFormed(p)
  {
    if run == [] then Listed(p, name) else Max(Longest(p, run[..|run| - 1], name), Listed(Exec(p, run), name))
  }

  /** `maxHandlers` is the greatest number of handlers that the lambda has ever had listed. */
  lemma {:induction false} MaxHandlersIsLongest(maxRunners: nat, softLimit: int, run: seq<Step>, name: string)
    ensures
      var p := Initial(maxRunners, softLimit);
      ManagerOf(Exec(p, run), name).maxHandlers == Longest(p, run, name) >= Listed(Exec(p, run), name)
  {
    if run != [] {
      MaxHandlersIsLongest(maxRunners, softLimit, run[..|run| - 1], name);
      LongestStep(Exec(Initial(maxRunners, softLimit), run[..|run| - 1]), run[|run| - 1], name);
    }
  }

  // ----- runs that show what can go wrong

  lemma ExecOne(p: Pool, run: seq<Step>, st: Step)
    requires WellFormed(p)
    ensures Exec(p, run + [st]) == Next(Exec(p, run), st)
  {
    assert (run + [st])[..|run|] == run;
  }

  /** A pool that holds one handler of the lambda `f`, listed and outside the LRU. */
  function OneHandler(softLimit: int, r: Handler): Pool {
    Pool(0, softLimit, map["f" := Manager([0], {0}, 1)], [r], Lru([], {}, 0), multiset{}, multiset{}, false, false)
  }

  lemma FirstGet(softLimit: int)
    ensures Exec(Initial(0, softLimit), [Get("f")]) == OneHandler(softLimit, NewHandler("f"))
  {
    var m := PushHandler(EmptyManager(), 0);
    assert m.handlers == [0] && m.elements == {0};
    var p := GetStep(Initial(0, softLimit), "f");
    assert p.hs == [NewHandler("f")];
    assert p.managers == map["f" := m];
    ExecOne(Initial(0, softLimit), [], Get("f"));
    assert [] + [Get("f")] == [Get("f")];
  }

  function GottenAgain(r: Handler): Handler {
    r.(runners := r.runners + 1, gotten := r.gotten + 1, limbo := false)
  }

  lemma OneHandlerWellFormed(softLimit: int, r: Handler)
    requires r.name == "f"
    ensures WellFormed(OneHandler(softLimit, r))
  {
  }

  lemma GetOne(softLimit: int, r: Handler)
    requires r.name == "f" && r.runners > 0 && WellFormed(OneHandler(softLimit, r))
    ensures GetStep(OneHandler(softLimit, r), "f") == OneHandler(softLimit, GottenAgain(r))
  {
    var p := OneHandler(softLimit, r);
    assert GetStep(p, "f").managers == p.managers;
    assert GetStep(p, "f").hs == [GottenAgain(r)];
  }

  lemma ExecTo(softLimit: int, run: seq<Step>, p: Pool, st: Step)
    requires Exec(Initial(0, softLimit), run) == p && Enabled(p, st)
    ensures WellFormed(p) && Exec(Initial(0, softLimit), run + [st]) == Apply(p, st)
  {
    ExecOne(Initial(0, softLimit), run, st);
  }

  lemma GetAgain(softLimit: int, run: seq<Step>, r: Handler)
    requires r.name == "f" && r.runners > 0
    requires Exec(Initial(0, softLimit), run) == OneHandler(softLimit, r)
    ensures Exec(Initial(0, softLimit), run + [Get("f")]) == OneHandler(softLimit, GottenAgain(r))
  {
    OneHandlerWellFormed(softLimit, r);
    ExecTo(softLimit, run, OneHandler(softLimit, r), Get("f"));
    GetOne(softLimit, r);
  }

  lemma StartOne(softLimit: int, run: seq<Step>, r: Handler, outcome: StartOutcome, created: SandboxState)
    requires r.name == "f" && r.gotten > 0
    requires Exec(Initial(0, softLimit), run) == OneHandler(softLimit, r)
    ensures Exec(Initial(0, softLimit), run + [Step.RunStart(0, outcome, created)])
         == OneHandler(softLimit, Started(r, outcome, created))
  {
    ExecOne(Initial(0, softLimit), run, Step.RunStart(0, outcome, created));
  }

  lemma StoppedByFirstStart() returns (run: seq<Step>)
    ensures Exec(Initial(0, 1000), run) == OneHandler(1000, Started(NewHandler("f"), LeftAsCreated, Stopped))
  {
    FirstGet(1000);
    StartOne(1000, [Get("f")], NewHandler("f"), LeftAsCreated, Stopped);
    run := [Get("f")] + [Step.RunStart(0, LeftAsCreated, Stopped)];
  }

  lemma GottenAgainStopped() returns (run: seq<Step>)
    ensures Exec(Initial(0, 1000), run) == OneHandler(1000, GottenAgain(Started(NewHandler("f"), LeftAsCreated, Stopped)))
  {
    var first := StoppedByFirstStart();
    GetAgain(1000, first, Started(NewHandler("f"), LeftAsCreated, Stopped));
    run := first + [Get("f")];
  }

  /** A request can be served from a sandbox that does not run: the first request's start failed
      and left it stopped, and a second request was handed the same handler. */
  lemma FailedStartIsHandedOut() returns (run: seq<Step>)
    ensures
      var p := Exec(Initial(0, 1000), run);
      |p.hs| == 1 && p.hs[0].active == 1 && p.hs[0].sandbox == Some(Stopped)
  {
    var before := GottenAgainStopped();
    var r := GottenAgain(Started(NewHandler("f"), LeftAsCreated, Stopped));
    StartOne(1000, before, r, Ok, Stopped);
    run := before + [Step.RunStart(0, Ok, Stopped)];
    assert OneHandler(1000, Started(r, Ok, Stopped)).hs == [Started(r, Ok, Stopped)];
  }
}
