/**
 When the evictor dereferences nil: it unlinks the handler at the back of the LRU from the list of its
 manager, which must hold it.
 */
module HandlerPoolCrashes {
  import opened Collections
  import opened HandlerPool
  import opened HandlerPoolProofs
  import opened HandlerPoolExact

  // ----- what a crash takes

  /** Somebody in the LRU is retired already. */
  ghost predicate Doomed(p: Pool) {
    p.crashed || exists h :: h in p.lru.queue && h < |p.hs| && p.hs[h].retired
  }

  /** TryRemoveHandler retires a handler that is idle and back in the LRU. */
  predicate RemovesQueued(p: Pool, st: Step) {
    Enabled(p, st) && st.TryRemove? && p.hs[st.h].runners == 0 && st.h in p.lru.queue
  }

  /** A round crashes if and only if the handler at the back of the queue is retired. */
  lemma RoundCrashesIff(p: Pool)
    requires Inv(p) && !p.crashed
    ensures EvictStep(p).crashed <==>
              p.lru.queue != [] && p.lru.queue[|p.lru.queue| - 1] < |p.hs| && p.hs[p.lru.queue[|p.lru.queue| - 1]].retired
  {
    if p.lru.queue != [] {
      var h := p.lru.queue[|p.lru.queue| - 1];
      assert h in p.lru.queue;
      assert HandlerOk(p, h);
    }
  }

  lemma DoomedGet(p: Pool, name: string)
    requires Inv(p) && !p.crashed
    ensures Doomed(GetStep(p, name)) <==> Doomed(p)
  {
    var q := GetStep(p, name);
    var m := ManagerOf(p, name);
    if m.handlers != [] {
      var h := m.handlers[0];
      assert ManagerOk(p, name) && h in m.elements;
      assert HandlerOk(p, h);
      WithoutDistinct(p.lru.queue, h);
      forall x ensures x in q.lru.queue && x != h <==> x in p.lru.queue && x != h {
        assert x in Elements(Without(p.lru.queue, h)) <==> x in Elements(p.lru.queue) && x != h;
      }
    }
  }

  /** Nobody in the queue becomes retired, and whoever joins it is not. */
  lemma DoomedKept(p: Pool, q: Pool)
    requires |p.hs| == |q.hs| && !p.crashed && !q.crashed
    requires forall x :: x in p.lru.queue ==> x in q.lru.queue
    requires forall x :: x in q.lru.queue && x < |q.hs| && q.hs[x].retired ==> x in p.lru.queue
    requires forall x {:trigger q.hs[x]} :: 0 <= x < |p.hs| ==> q.hs[x].retired == p.hs[x].retired
    ensures Doomed(q) <==> Doomed(p)
  {
    if Doomed(p) {
      var x :| x in p.lru.queue && x < |p.hs| && p.hs[x].retired;
      assert x in q.lru.queue && q.hs[x].retired;
    }
  }

  lemma DoomedFinish(p: Pool, h: Hid, u1: nat, u2: nat, ok: bool)
    requires Inv(p) && Enabled(p, RunFinish(h, u1, u2, ok))
    ensures Doomed(RunFinishStep(p, h, u1, u2, ok)) <==> Doomed(p)
  {
    assert HandlerOk(p, h);
    assert h in p.lru.queue <==> h in p.lru.keys;
    DoomedKept(p, RunFinishStep(p, h, u1, u2, ok));
  }

  lemma DoomedTryRemove(p: Pool, h: Hid)
    requires Inv(p) && Enabled(p, TryRemove(h))
    ensures Doomed(TryRemoveStep(p, h)) <==> Doomed(p) || RemovesQueued(p, TryRemove(h))
  {
    assert HandlerOk(p, h);
    var q := TryRemoveStep(p, h);
    if RemovesQueued(p, TryRemove(h)) {
      assert h in q.lru.queue && q.hs[h].retired;
    }
    if Doomed(p) {
      var x :| x in p.lru.queue && x < |p.hs| && p.hs[x].retired;
      assert x in q.lru.queue && q.hs[x].retired;
    }
  }

  lemma DoomedEvict(p: Pool)
    requires Inv(p) && !p.crashed
    ensures Doomed(EvictStep(p)) <==> Doomed(p)
  {
    RoundCrashesIff(p);
    if p.lru.queue != [] {
      var n := |p.lru.queue| - 1;
      var h := p.lru.queue[n];
      assert h in p.lru.queue;
      DropBackDistinct(p.lru.queue);
      forall x ensures x in p.lru.queue[..n] <==> x in p.lru.queue && x != h {
        assert x in Elements(p.lru.queue[..n]) <==> x in Elements(p.lru.queue) && x != h;
      }
      if Doomed(p) && !p.hs[h].retired {
        var x :| x in p.lru.queue && x < |p.hs| && p.hs[x].retired;
        assert x in EvictStep(p).lru.queue && EvictStep(p).hs[x].retired;
      }
    }
  }

  lemma DoomedOther(p: Pool, st: Step)
    requires Inv(p) && Enabled(p, st) && (st.RunStart? || st.Nuke?)
    ensures Doomed(Apply(p, st)) <==> Doomed(p)
  {
    DoomedKept(p, Apply(p, st));
  }

  /** Nothing but such a removal brings a retired handler into the LRU, or crashes; nothing takes it out. */
  lemma DoomedStep(p: Pool, st: Step)
    requires Inv(p)
    ensures Doomed(Next(p, st)) <==> Doomed(p) || RemovesQueued(p, st)
  {
    if Enabled(p, st) {
      match st {
        case Get(name) => DoomedGet(p, name);
        case RunFinish(h, u1, u2, ok) => DoomedFinish(p, h, u1, u2, ok);
        case TryRemove(h) => DoomedTryRemove(p, h);
        case Evict => DoomedEvict(p);
        case CheckSize => DoomedKept(p, Apply(p, st));
        case _ => DoomedOther(p, st);
      }
    }
  }

  // ----- whole runs

  /** Some step of the run is such a removal. */
  predicate SomeRemovesQueued(p: Pool, run: seq<Step>)
    requires WellFormed(p)
  {
    run != [] &&
    var init := run[..|run| - 1];
    SomeRemovesQueued(p, init) || RemovesQueued(Exec(p, init), run[|run| - 1])
  }

  lemma {:induction false} DoomedIff(maxRunners: nat, softLimit: int, run: seq<Step>)
    ensures Doomed(Exec(Initial(maxRunners, softLimit), run)) <==> SomeRemovesQueued(Initial(maxRunners, softLimit), run)
  {
    if run != [] {
      var init := run[..|run| - 1];
      DoomedIff(maxRunners, softLimit, init);
      InvRun(maxRunners, softLimit, init);
      DoomedStep(Exec(Initial(maxRunners, softLimit), init), run[|run| - 1]);
    }
  }

  lemma {:induction false} DoomedRun(p: Pool, run: seq<Step>)
    requires Inv(p)
    ensures Inv(Exec(p, run)) && (Doomed(Exec(p, run)) <==> Doomed(p) || SomeRemovesQueued(p, run))
  {
    if run != [] {
      var init := run[..|run| - 1];
      DoomedRun(p, init);
      InvStep(Exec(p, init), run[|run| - 1]);
      DoomedStep(Exec(p, init), run[|run| - 1]);
    }
  }

  // ----- the loop of the evictor

  predicate RetiredAt(p: Pool, i: nat) {
    i < |p.lru.queue| && p.lru.queue[i] < |p.hs| && p.hs[p.lru.queue[i]].retired
  }

  /** The loop gets to a retired handler at place `i` of the queue: nobody behind it is retired, and with
      all of those gone the size is still over the limit. */
  predicate GetsToRetired(p: Pool, i: nat) {
    && RetiredAt(p, i) && (forall j: nat :: i < j < |p.lru.queue| ==> !RetiredAt(p, j))
    && p.lru.size - UsageSum(p.hs, p.lru.queue[i + 1..]) > p.softLimit
  }

  /** A round that does not crash retires the handler at the back. */
  ghost predicate RetiresBack(p: Pool, q: Pool) {
    p.lru.queue != [] &&
    var n := |p.lru.queue| - 1;
    var h := p.lru.queue[n];
    && h < |p.hs| && !p.hs[h].retired && h !in p.lru.queue[..n]
    && q.lru.queue == p.lru.queue[..n] && q.lru.size == p.lru.size - p.hs[h].usage
    && q.hs == p.hs[h := p.hs[h].(retired := true)] && q.softLimit == p.softLimit
  }

  lemma RoundRetiresBack(p: Pool)
    requires Inv(p) && !p.crashed && p.lru.queue != [] && !EvictStep(p).crashed
    ensures RetiresBack(p, EvictStep(p))
  {
    RoundCrashesIff(p);
    DropBackDistinct(p.lru.queue);
    assert p.lru.queue[|p.lru.queue| - 1] in p.lru.queue;
  }

  lemma LaterSum(p: Pool, q: Pool, i: nat)
    requires RetiresBack(p, q) && i < |q.lru.queue|
    ensures p.lru.size - UsageSum(p.hs, p.lru.queue[i + 1..]) == q.lru.size - UsageSum(q.hs, q.lru.queue[i + 1..])
  {
    var n := |p.lru.queue| - 1;
    var rest := p.lru.queue[i + 1..];
    assert rest[..|rest| - 1] == q.lru.queue[i + 1..];
    UsageSumBack(p.hs, rest);
    assert forall h: Hid :: h in q.lru.queue[i + 1..] ==> h in p.lru.queue[..n];
    UsageSumFrame(p.hs, q.hs, q.lru.queue[i + 1..]);
  }

  lemma SameRetired(p: Pool, q: Pool, i: nat)
    requires RetiresBack(p, q)
    ensures RetiredAt(q, i) <==> RetiredAt(p, i)
  {
    if i < |q.lru.queue| {
      assert q.lru.queue[i] in p.lru.queue[..|p.lru.queue| - 1];
    }
  }

  /** The effect of a round on the question whether the loop gets to a retired handler. */
  lemma GetsThereNext(p: Pool, q: Pool, i: nat)
    requires RetiresBack(p, q)
    ensures GetsToRetired(q, i) <==> GetsToRetired(p, i)
  {
    forall j: nat ensures RetiredAt(q, j) <==> RetiredAt(p, j) {
      SameRetired(p, q, j);
    }
    if i < |q.lru.queue| {
      LaterSum(p, q, i);
    }
  }

  /** With nothing added meanwhile, the evictor's loop dereferences nil if and only if it gets to a retired
      handler before the size is within the limit. */
  lemma {:induction false} LoopCrashesIff(p: Pool)
    requires Inv(p) && !p.crashed
    ensures EvictRounds(p).crashed <==> exists i: nat :: GetsToRetired(p, i)
    decreases |p.lru.queue|
  {
    if p.lru.size > p.softLimit && p.lru.queue != [] {
      var n := |p.lru.queue| - 1;
      RoundCrashesIff(p);
      if EvictStep(p).crashed {
        assert p.lru.queue[n + 1..] == [];
        assert GetsToRetired(p, n);
      } else {
        InvEvict(p);
        RoundRetiresBack(p);
        LoopCrashesIff(EvictStep(p));
        forall i: nat ensures GetsToRetired(EvictStep(p), i) <==> GetsToRetired(p, i) {
          GetsThereNext(p, EvictStep(p), i);
        }
      }
    }
  }

  // ----- a run that gets to the retired handler

  /** How many handlers stand behind the last retired one. */
  function Behind(hs: seq<Handler>, queue: seq<Hid>): nat {
    if queue == [] || (queue[|queue| - 1] < |hs| && hs[queue[|queue| - 1]].retired) then 0
    else 1 + Behind(hs, queue[..|queue| - 1])
  }

  lemma {:induction false} BehindFrame(hs: seq<Handler>, hs': seq<Handler>, queue: seq<Hid>)
    requires |hs| <= |hs'|
    requires forall h: Hid :: h in queue ==> h < |hs| && hs'[h].retired == hs[h].retired
    ensures Behind(hs', queue) == Behind(hs, queue)
  {
    if queue != [] {
      var init := queue[..|queue| - 1];
      assert queue[|queue| - 1] in queue;
      assert forall h: Hid :: h in init ==> h in queue;
      BehindFrame(hs, hs', init);
    }
  }

  lemma {:induction false} BehindFront(hs: seq<Handler>, h: Hid, queue: seq<Hid>)
    requires exists x :: x in queue && x < |hs| && hs[x].retired
    ensures Behind(hs, [h] + queue) == Behind(hs, queue)
  {
    var n := |queue| - 1;
    assert ([h] + queue)[|[h] + queue| - 1] == queue[n];
    if !(queue[n] < |hs| && hs[queue[n]].retired) {
      var x :| x in queue && x < |hs| && hs[x].retired;
      assert x in queue[..n];
      assert ([h] + queue)[..n + 1] == [h] + queue[..n];
      BehindFront(hs, h, queue[..n]);
    }
  }

  /** Handlers are queued only under a limit that is not negative. */
  predicate LimitOk(p: Pool) {
    p.lru.queue != [] ==> p.softLimit >= 0
  }

  lemma LimitStep(p: Pool, st: Step)
    requires WellFormed(p) && LimitOk(p)
    ensures LimitOk(Next(p, st)) && Next(p, st).softLimit == p.softLimit
  {
    if Enabled(p, st) {
      match st {
        case Get(name) =>
          var m := ManagerOf(p, name);
          if m.handlers != [] {
            assert m.handlers[0] in m.handlers;
            WithoutElements(p.lru.queue, m.handlers[0]);
          }
        case _ =>
      }
    }
  }

  lemma {:induction false} LimitRun(maxRunners: nat, softLimit: int, run: seq<Step>)
    ensures LimitOk(Exec(Initial(maxRunners, softLimit), run))
  {
    if run != [] {
      LimitRun(maxRunners, softLimit, run[..|run| - 1]);
      LimitStep(Exec(Initial(maxRunners, softLimit), run[..|run| - 1]), run[|run| - 1]);
    }
  }

  /** A pool that gained one idle handler at the front of the queue. */
  ghost predicate Gained(p: Pool, q: Pool) {
    && |q.hs| == |p.hs| + 1 && (forall h :: 0 <= h < |p.hs| ==> q.hs[h] == p.hs[h])
    && q.lru.queue == [|p.hs|] + p.lru.queue && q.softLimit == p.softLimit
    && q.evicting == p.evicting && !q.crashed
  }

  lemma ListedByName(p: Pool, name: string)
    requires Inv(p) && ManagerOf(p, name).handlers != []
    ensures ManagerOf(p, name).handlers[0] < |p.hs| && p.hs[ManagerOf(p, name).handlers[0]].name == name
  {
    assert ManagerOk(p, name) && ManagerOf(p, name).handlers[0] in ManagerOf(p, name).elements;
  }

  lemma NewLambda(p: Pool, name: string)
    requires Inv(p) && forall h :: 0 <= h < |p.hs| ==> p.hs[h].name != name
    ensures ManagerOf(p, name).handlers == []
  {
    if ManagerOf(p, name).handlers != [] {
      ListedByName(p, name);
    }
  }

  function NamesOf(hs: seq<Handler>): (s: seq<string>)
    ensures |s| == |hs| && forall h :: 0 <= h < |s| ==> s[h] == hs[h].name
  {
    seq(|hs|, h requires 0 <= h < |hs| => hs[h].name)
  }

  /** A request for a lambda that has no handler. */
  lemma NewRequest(p: Pool, name: string)
    requires Inv(p) && !p.crashed && ManagerOf(p, name).handlers == []
    ensures
      var q := Next(Next(p, Get(name)), Step.RunStart(|p.hs|, Ok, Running));
      && Inv(q) && !q.crashed && q.lru == p.lru && q.softLimit == p.softLimit && q.evicting == p.evicting
      && |q.hs| == |p.hs| + 1 && (forall h :: 0 <= h < |p.hs| ==> q.hs[h] == p.hs[h])
      && q.hs[|p.hs|] == Started(NewHandler(name), Ok, Running)
  {
    InvStep(p, Get(name));
    InvStep(Next(p, Get(name)), Step.RunStart(|p.hs|, Ok, Running));
  }

  lemma NewRequestFinishes(p: Pool, q: Pool, name: string, usage: nat)
    requires Inv(p) && Inv(q) && !q.crashed && q.lru == p.lru && p.softLimit == q.softLimit >= 0 && q.evicting == p.evicting
    requires |q.hs| == |p.hs| + 1 && (forall h :: 0 <= h < |p.hs| ==> q.hs[h] == p.hs[h])
    requires q.hs[|p.hs|] == Started(NewHandler(name), Ok, Running)
    ensures
      var r := Next(q, RunFinish(|p.hs|, 0, usage, true));
      Inv(r) && Gained(p, r) && r.lru.size == p.lru.size + usage
  {
    InvStep(q, RunFinish(|p.hs|, 0, usage, true));
    assert |p.hs| !in p.lru.queue;
  }

  lemma {:induction false} ExecConcat(p: Pool, a: seq<Step>, b: seq<Step>)
    requires WellFormed(p)
    ensures Exec(p, a + b) == Exec(Exec(p, a), b)
    ensures SomeRemovesQueued(p, a + b) <==> SomeRemovesQueued(p, a) || SomeRemovesQueued(Exec(p, a), b)
  {
    if b == [] {
      assert a + b == a;
    } else {
      ExecConcat(p, a, b[..|b| - 1]);
      assert (a + b)[..|a + b| - 1] == a + b[..|b| - 1];
    }
  }

  lemma Then(p: Pool, a: Step, run: seq<Step>)
    requires WellFormed(p)
    ensures Exec(p, [a] + run) == Exec(Next(p, a), run)
    ensures SomeRemovesQueued(p, [a] + run) <==> RemovesQueued(p, a) || SomeRemovesQueued(Next(p, a), run)
  {
    ExecConcat(p, [a], run);
    assert [a][..0] == [];
    assert Exec(p, []) == p && !SomeRemovesQueued(p, []);
  }

  /** A new request finishes with a usage that takes the size over the limit. */
  lemma SizeIsRaised(p: Pool) returns (run: seq<Step>)
    requires Inv(p) && !p.crashed && p.softLimit >= 0
    ensures
      var q := Exec(p, run);
      Inv(q) && Gained(p, q) && q.lru.size > q.softLimit && !SomeRemovesQueued(p, run)
  {
    var name := FreshName(NamesOf(p.hs));
    forall h | 0 <= h < |p.hs| ensures p.hs[h].name != name {
      assert NamesOf(p.hs)[h] in NamesOf(p.hs);
    }
    NewLambda(p, name);
    var usage: nat := if p.lru.size > p.softLimit then 0 else p.softLimit - p.lru.size + 1;
    NewRequest(p, name);
    var get, start, finish := Get(name), Step.RunStart(|p.hs|, Ok, Running), RunFinish(|p.hs|, 0, usage, true);
    var q := Next(Next(p, get), start);
    NewRequestFinishes(p, q, name, usage);
    run := [get] + ([start] + ([finish] + []));
    Then(p, get, [start] + ([finish] + []));
    Then(Next(p, get), start, [finish] + []);
    Then(q, finish, []);
  }

  lemma GainedIsDoomed(p: Pool, q: Pool)
    requires WellFormed(p) && Doomed(p) && !p.crashed && Gained(p, q)
    ensures Doomed(q) && q.lru.queue != [] && Behind(q.hs, q.lru.queue) == Behind(p.hs, p.lru.queue)
  {
    BehindFrame(p.hs, q.hs, p.lru.queue);
    var x :| x in p.lru.queue && x < |p.hs| && p.hs[x].retired;
    assert q.hs[x].retired && x in q.lru.queue;
    BehindFront(q.hs, |p.hs|, p.lru.queue);
  }

  lemma Checked(q: Pool)
    requires Inv(q) && Doomed(q) && !q.crashed && !q.evicting && q.lru.size > q.softLimit
    ensures
      var r := Next(q, CheckSize);
      Inv(r) && Doomed(r) && r == q.(evicting := true) && !RemovesQueued(q, CheckSize)
  {
    InvStep(q, CheckSize);
    DoomedStep(q, CheckSize);
  }

  /** The evictor is past its check, with the same back of the queue. */
  lemma EvictorIsReady(p: Pool) returns (run: seq<Step>)
    requires Inv(p) && Doomed(p) && !p.crashed && LimitOk(p)
    ensures
      var q := Exec(p, run);
      && Inv(q) && Doomed(q) && !q.crashed && LimitOk(q) && q.evicting && !SomeRemovesQueued(p, run)
      && q.lru.queue != [] && Behind(q.hs, q.lru.queue) == Behind(p.hs, p.lru.queue)
  {
    run := [];
    if !p.evicting {
      run := SizeIsRaised(p);
      var q := Exec(p, run);
      GainedIsDoomed(p, q);
      Checked(q);
      assert (run + [CheckSize])[..|run|] == run;
      run := run + [CheckSize];
    }
  }

  lemma BehindLess(p: Pool, q: Pool)
    requires RetiresBack(p, q) && WellFormed(p)
    ensures Behind(q.hs, q.lru.queue) < Behind(p.hs, p.lru.queue)
  {
    var n := |p.lru.queue| - 1;
    forall h: Hid | h in p.lru.queue[..n] ensures h < |p.hs| && q.hs[h].retired == p.hs[h].retired {
      assert h in p.lru.queue;
    }
    BehindFrame(p.hs, q.hs, p.lru.queue[..n]);
  }

  lemma RoundApproaches(p: Pool)
    requires Inv(p) && Doomed(p) && !p.crashed && LimitOk(p) && p.evicting && p.lru.queue != []
    ensures
      var q := EvictStep(p);
      && Inv(q) && Doomed(q) && LimitOk(q) && Next(p, Evict) == q
      && (q.crashed || Behind(q.hs, q.lru.queue) < Behind(p.hs, p.lru.queue))
  {
    InvEvict(p);
    DoomedEvict(p);
    LimitStep(p, Evict);
    if !EvictStep(p).crashed {
      RoundRetiresBack(p);
      BehindLess(p, EvictStep(p));
    }
  }

  /** From a doomed pool, requests that take the size over the limit and the evictor's rounds lead to the
      crash, without another removal of a queued handler. */
  lemma {:induction false} DoomedCrashes(p: Pool) returns (run: seq<Step>)
    requires Inv(p) && Doomed(p) && LimitOk(p)
    ensures Exec(p, run).crashed && !SomeRemovesQueued(p, run)
    decreases if p.crashed then 0 else 1 + Behind(p.hs, p.lru.queue)
  {
    run := [];
    if !p.crashed {
      run := EvictorIsReady(p);
      var q := Exec(p, run);
      RoundApproaches(q);
      var rest := DoomedCrashes(Next(q, Evict));
      Then(q, Evict, rest);
      ExecConcat(p, run, [Evict] + rest);
      run := run + ([Evict] + rest);
    }
  }

  /** Over whole runs: without another removal that finds its handler idle and back in the LRU, some
      continuation makes the evictor dereference nil if and only if some removal of the run found its
      handler so. */
  lemma EvictorCrashesIff(maxRunners: nat, softLimit: int, run: seq<Step>)
    ensures
      var p := Exec(Initial(maxRunners, softLimit), run);
      (exists more :: Exec(p, more).crashed && !SomeRemovesQueued(p, more))
        <==> SomeRemovesQueued(Initial(maxRunners, softLimit), run)
  {
    var p := Exec(Initial(maxRunners, softLimit), run);
    DoomedIff(maxRunners, softLimit, run);
    InvRun(maxRunners, softLimit, run);
    if Doomed(p) {
      LimitRun(maxRunners, softLimit, run);
      var more := DoomedCrashes(p);
    } else {
      forall more | Exec(p, more).crashed ensures SomeRemovesQueued(p, more) {
        DoomedRun(p, more);
      }
    }
  }

  // ----- the run that spoils

  /** The pool around one handler of `f` that is in the LRU or not, and pending removal or not. */
  function Window(r: Handler, queued: bool, pending: bool): Pool {
    OneHandler(10, r).(
      lru := if queued then Lru([0], {0}, r.usage) else Lru([], {}, 0),
      pending := if pending then multiset{0} else multiset{})
  }

  function Idle(r: Handler): Handler {
    r.(runners := 0, active := 0, sandbox := Some(Paused))
  }

  lemma WindowWellFormed(r: Handler, queued: bool, pending: bool)
    requires r.name == "f"
    ensures WellFormed(Window(r, queued, pending))
  {
  }

  lemma FinishOverLimit(r: Handler)
    requires r.name == "f" && r.runners == 1 && r.active == 1 && r.sandbox == Some(Running)
    requires WellFormed(Window(r, false, false))
    ensures RunFinishStep(Window(r, false, false), 0, 11, 11, true) == Window(Idle(r).(limbo := true), false, true)
  {
  }

  lemma FinishWithinLimit(r: Handler)
    requires r.name == "f" && r.runners == 1 && r.active == 1 && r.sandbox == Some(Running)
    requires WellFormed(Window(r, false, true))
    ensures RunFinishStep(Window(r, false, true), 0, 5, 11, true) == Window(Idle(r).(usage := 11), true, true)
  {
    var q := RunFinishStep(Window(r, false, true), 0, 5, 11, true);
    assert q.managers == OneHandler(10, r).managers;
    assert q.hs == [Idle(r).(usage := 11)];
    var l := LruAdd(Lru([], {}, 0), 0, 11);
    assert l.queue == [0] && l.keys == {0};
  }

  lemma GetInWindow(r: Handler)
    requires r.name == "f" && r.runners == 0 && r.usage == 0
    requires WellFormed(Window(r, false, true))
    ensures GetStep(Window(r, false, true), "f") == Window(GottenAgain(r), false, true)
  {
    var p := Window(r, false, true);
    var q := GetStep(p, "f");
    assert q.managers == p.managers;
    assert q.hs == [GottenAgain(r)];
    var l := LruRemove(p.lru, 0, 0);
    assert l.keys == {};
  }

  lemma RemoveInWindow(r: Handler)
    requires r.name == "f" && r.runners == 0 && WellFormed(Window(r, true, true))
    ensures
      var p := TryRemoveStep(Window(r, true, true), 0);
      && p.managers.Keys == {"f"} && p.managers["f"].elements == {} && p.managers["f"].handlers == []
      && p.lru == Lru([0], {0}, r.usage) && p.hs == [r.(retired := true)]
      && !p.crashed && !p.evicting && p.softLimit == 10
  {
  }

  lemma WindowCrash(run: seq<Step>, r: Handler)
    requires r.name == "f" && r.runners == 0 && r.usage > 10
    requires Exec(Initial(0, 10), run) == Window(r, true, true)
    ensures Exec(Initial(0, 10), run + [TryRemove(0)] + [CheckSize] + [Evict]).crashed
  {
    ExecTo(10, run, Window(r, true, true), TryRemove(0));
    RemoveInWindow(r);
    var p := TryRemoveStep(Window(r, true, true), 0);
    ExecTo(10, run + [TryRemove(0)], p, CheckSize);
    ExecTo(10, run + [TryRemove(0)] + [CheckSize], p.(evicting := true), Evict);
  }

  lemma OverLimitAndBack(run: seq<Step>, r: Handler)
    requires r.name == "f" && r.runners == 1 && r.active == 1 && r.sandbox == Some(Running) && r.usage == 0
    requires Exec(Initial(0, 10), run) == Window(r, false, false)
    ensures Exec(Initial(0, 10), run + [RunFinish(0, 11, 11, true)] + [Get("f")])
         == Window(GottenAgain(Idle(r).(limbo := true)), false, true)
  {
    WindowWellFormed(r, false, false);
    ExecTo(10, run, Window(r, false, false), RunFinish(0, 11, 11, true));
    FinishOverLimit(r);
    var idle := Idle(r).(limbo := true);
    WindowWellFormed(idle, false, true);
    ExecTo(10, run + [RunFinish(0, 11, 11, true)], Window(idle, false, true), Get("f"));
    GetInWindow(idle);
  }

  lemma StartAndFinish(run: seq<Step>, r: Handler)
    requires r.name == "f" && r.runners == 1 && r.gotten == 1 && r.active == 0 && r.sandbox == Some(Paused)
    requires Exec(Initial(0, 10), run) == Window(r, false, true)
    ensures Exec(Initial(0, 10), run + [Step.RunStart(0, Ok, Running)] + [RunFinish(0, 5, 11, true)])
         == Window(Idle(Started(r, Ok, Running)).(usage := 11), true, true)
  {
    ExecTo(10, run, Window(r, false, true), Step.RunStart(0, Ok, Running));
    var s := Started(r, Ok, Running);
    assert RunStartStep(Window(r, false, true), 0, Ok, Running) == Window(s, false, true);
    WindowWellFormed(s, false, true);
    ExecTo(10, run + [Step.RunStart(0, Ok, Running)], Window(s, false, true), RunFinish(0, 5, 11, true));
    FinishWithinLimit(s);
  }

  /** With an unlimited number of runners per handler and a soft limit of ten: the handler of `f`
      finishes over the limit, is taken again in the window before its removal, and finishes again.
      Its usage is read twice, within the limit for the check and above it for the LRU. It is then
      removed while it sits in the LRU, and the evictor, which sees the size over the limit,
      dereferences nil. */
  lemma GetInTheWindowCrashesTheEvictor() returns (run: seq<Step>)
    ensures Exec(Initial(0, 10), run).crashed
  {
    FirstGet(10);
    run := [Get("f")];
    var r := NewHandler("f");
    StartOne(10, run, r, Ok, Running);
    run, r := run + [Step.RunStart(0, Ok, Running)], Started(r, Ok, Running);
    OverLimitAndBack(run, r);
    run := run + [RunFinish(0, 11, 11, true)] + [Get("f")];
    r := GottenAgain(Idle(r).(limbo := true));
    StartAndFinish(run, r);
    run := run + [Step.RunStart(0, Ok, Running)] + [RunFinish(0, 5, 11, true)];
    r := Idle(Started(r, Ok, Running)).(usage := 11);
    WindowCrash(run, r);
    run := run + [TryRemove(0)] + [CheckSize] + [Evict];
  }
}
