/**
 When the LRU agrees with the pool: it holds exactly the idle handlers that are not retired,
 and its size is the sum of their recorded usages.
 */
module HandlerPoolExact {
  import opened Collections
  import opened HandlerPool
  import opened HandlerPoolProofs

  function Usage(hs: seq<Handler>, h: Hid): nat {
    if h < |hs| then hs[h].usage else 0
  }

  function UsageSum(hs: seq<Handler>, queue: seq<Hid>): nat {
    if queue == [] then 0 else Usage(hs, queue[0]) + UsageSum(hs, queue[1..])
  }

  /** What a spoiled run loses. The rest of the agreement is part of `Inv`. */
  ghost predicate Exact(p: Pool) {
    && (forall h :: h in p.lru.queue ==> h < |p.hs| && !p.hs[h].retired)
    && p.lru.size == UsageSum(p.hs, p.lru.queue)
  }

  /** A `Get` that finds an idle handler outside the LRU, in the window after its over-limit finish,
      when the handler still records a usage; and a removal that finds its handler back in the LRU. */
  ghost predicate Spoils(p: Pool, st: Step)
    requires WellFormed(p)
  {
    Enabled(p, st) &&
    match st
    case Get(name) =>
      var m := ManagerOf(p, name);
      m.handlers != [] &&
      (assert m.handlers[0] in m.handlers;
       var r := p.hs[m.handlers[0]];
       r.runners == 0 && m.handlers[0] !in p.lru.queue && r.usage != 0)
    case TryRemove(h) => p.hs[h].runners == 0 && h in p.lru.queue
    case _ => false
  }

  lemma {:induction false} UsageSumFrame(hs: seq<Handler>, hs': seq<Handler>, queue: seq<Hid>)
    requires forall h :: h in queue ==> Usage(hs, h) == Usage(hs', h)
    ensures UsageSum(hs, queue) == UsageSum(hs', queue)
  {
    if queue != [] {
      assert queue[0] in queue;
      assert forall h :: h in queue[1..] ==> h in queue;
      UsageSumFrame(hs, hs', queue[1..]);
    }
  }

  lemma {:induction false} UsageSumWithout(hs: seq<Handler>, queue: seq<Hid>, h: Hid)
    requires h in queue
    ensures UsageSum(hs, Without(queue, h)) == UsageSum(hs, queue) - Usage(hs, h)
  {
    if queue[0] != h {
      assert h in queue[1..];
      UsageSumWithout(hs, queue[1..], h);
      var w := Without(queue[1..], h);
      assert ([queue[0]] + w)[1..] == w;
    }
  }

  lemma {:induction false} UsageSumConcat(hs: seq<Handler>, a: seq<Hid>, b: seq<Hid>)
    ensures UsageSum(hs, a + b) == UsageSum(hs, a) + UsageSum(hs, b)
  {
    if a == [] {
      assert a + b == b;
    } else {
      assert (a + b)[1..] == a[1..] + b;
      UsageSumConcat(hs, a[1..], b);
    }
  }

  lemma UsageSumBack(hs: seq<Handler>, queue: seq<Hid>)
    requires queue != []
    ensures UsageSum(hs, queue) == UsageSum(hs, queue[..|queue| - 1]) + Usage(hs, queue[|queue| - 1])
  {
    var n := |queue| - 1;
    assert queue == queue[..n] + [queue[n]];
    UsageSumConcat(hs, queue[..n], [queue[n]]);
    assert UsageSum(hs, [queue[n]]) == Usage(hs, queue[n]) + UsageSum(hs, [queue[n]][1..]);
  }

  // ----- each step

  lemma ExactGet(p: Pool, name: string)
    requires Inv(p) && Exact(p) && !p.crashed
    ensures Exact(GetStep(p, name)) <==> !Spoils(p, Get(name))
  {
    var q := GetStep(p, name);
    var m := ManagerOf(p, name);
    if m.handlers == [] {
      UsageSumFrame(p.hs, q.hs, p.lru.queue);
    } else {
      var h := m.handlers[0];
      assert ManagerOk(p, name) && h in m.elements;
      assert HandlerOk(p, h);
      UsageSumFrame(p.hs, q.hs, q.lru.queue);
      WithoutElements(p.lru.queue, h);
      if p.hs[h].runners == 0 && !p.hs[h].limbo {
        assert h in p.lru.keys;
        UsageSumWithout(p.hs, p.lru.queue, h);
      } else {
        assert h !in p.lru.keys;
      }
    }
  }

  lemma ExactRunStart(p: Pool, h: Hid, outcome: StartOutcome, created: SandboxState)
    requires Inv(p) && Exact(p) && h < |p.hs|
    ensures Exact(RunStartStep(p, h, outcome, created))
  {
    UsageSumFrame(p.hs, RunStartStep(p, h, outcome, created).hs, p.lru.queue);
  }

  lemma ExactOutside(p: Pool, h: Hid, u1: nat, u2: nat, ok: bool)
    requires Inv(p) && Exact(p) && Enabled(p, RunFinish(h, u1, u2, ok)) && (p.hs[h].runners != 1 || u1 > p.softLimit)
    ensures Exact(RunFinishStep(p, h, u1, u2, ok))
  {
    UsageSumFrame(p.hs, RunFinishStep(p, h, u1, u2, ok).hs, p.lru.queue);
  }

  lemma ExactIdle(p: Pool, h: Hid, u1: nat, u2: nat, ok: bool)
    requires Inv(p) && Exact(p) && Enabled(p, RunFinish(h, u1, u2, ok)) && p.hs[h].runners == 1 && u1 <= p.softLimit
    ensures Exact(RunFinishStep(p, h, u1, u2, ok))
  {
    assert HandlerOk(p, h);
    var q := RunFinishStep(p, h, u1, u2, ok);
    assert h !in p.lru.queue;
    UsageSumFrame(p.hs, q.hs, p.lru.queue);
    assert q.lru.queue[1..] == p.lru.queue;
  }

  lemma ExactRunFinish(p: Pool, h: Hid, u1: nat, u2: nat, ok: bool)
    requires Inv(p) && Exact(p) && Enabled(p, RunFinish(h, u1, u2, ok))
    ensures Exact(RunFinishStep(p, h, u1, u2, ok))
  {
    if p.hs[h].runners != 1 || u1 > p.softLimit {
      ExactOutside(p, h, u1, u2, ok);
    } else {
      ExactIdle(p, h, u1, u2, ok);
    }
  }

  lemma ExactTryRemove(p: Pool, h: Hid)
    requires Inv(p) && Exact(p) && Enabled(p, TryRemove(h))
    ensures Exact(TryRemoveStep(p, h)) <==> !Spoils(p, TryRemove(h))
  {
    assert HandlerOk(p, h);
    UsageSumFrame(p.hs, TryRemoveStep(p, h).hs, p.lru.queue);
  }

  /** In an exact state the evictor's victim is listed, so that no nil is dereferenced. */
  lemma ExactEvict(p: Pool)
    requires Inv(p) && Exact(p)
    ensures Exact(EvictStep(p)) && EvictStep(p).crashed == p.crashed
  {
    if p.lru.queue != [] {
      var n := |p.lru.queue| - 1;
      var h := p.lru.queue[n];
      assert h in p.lru.queue;
      assert HandlerOk(p, h);
      DropBackDistinct(p.lru.queue);
      UsageSumBack(p.hs, p.lru.queue);
      UsageSumFrame(p.hs, EvictStep(p).hs, p.lru.queue[..n]);
      assert forall k :: k in p.lru.queue[..n] ==> k in p.lru.queue && k != h;
    }
  }

  lemma ExactNuke(p: Pool, h: Hid)
    requires Inv(p) && Exact(p) && h < |p.hs|
    ensures Exact(NukeStep(p, h))
  {
    UsageSumFrame(p.hs, NukeStep(p, h).hs, p.lru.queue);
  }

  /** A step from an exact state keeps the LRU exact if and only if it does not spoil. */
  lemma ExactStep(p: Pool, st: Step)
    requires Inv(p) && Exact(p) && !p.crashed
    ensures Exact(Next(p, st)) <==> !Spoils(p, st)
    ensures !Next(p, st).crashed
  {
    if Enabled(p, st) {
      match st {
        case Get(name) => ExactGet(p, name);
        case RunStart(h, outcome, created) => ExactRunStart(p, h, outcome, created);
        case RunFinish(h, u1, u2, ok) =>
          ExactRunFinish(p, h, u1, u2, ok);
          InvRunFinish(p, h, u1, u2, ok);
        case TryRemove(h) => ExactTryRemove(p, h);
        case CheckSize =>
        case Evict => ExactEvict(p);
        case Nuke(h) => ExactNuke(p, h);
      }
    }
  }

  // ----- whole runs

  ghost predicate ExactThroughout(p: Pool, run: seq<Step>)
    requires WellFormed(p)
  {
    forall k :: 0 <= k <= |run| ==> Exact(Exec(p, run[..k]))
  }

  ghost predicate NeverSpoils(p: Pool, run: seq<Step>)
    requires WellFormed(p)
  {
    forall k :: 0 <= k < |run| ==> !Spoils(Exec(p, run[..k]), run[k])
  }

  lemma ExecPrefix(p: Pool, run: seq<Step>, k: nat)
    requires WellFormed(p) && k < |run|
    ensures Exec(p, run[..k + 1]) == Next(Exec(p, run[..k]), run[k])
  {
    assert run[..k + 1][..k] == run[..k];
  }

  lemma PrefixStep(maxRunners: nat, softLimit: int, run: seq<Step>, k: nat)
    requires k < |run|
    requires
      var p := Exec(Initial(maxRunners, softLimit), run[..k]);
      Exact(p) && !p.crashed
    ensures
      var p := Exec(Initial(maxRunners, softLimit), run[..k]);
      var q := Exec(Initial(maxRunners, softLimit), run[..k + 1]);
      !q.crashed && (Exact(q) <==> !Spoils(p, run[k]))
  {
    var p := Exec(Initial(maxRunners, softLimit), run[..k]);
    InvRun(maxRunners, softLimit, run[..k]);
    ExactStep(p, run[k]);
    ExecPrefix(Initial(maxRunners, softLimit), run, k);
  }

  lemma {:induction false} NeverSpoilsIsExact(maxRunners: nat, softLimit: int, run: seq<Step>, k: nat)
    requires k <= |run| && NeverSpoils(Initial(maxRunners, softLimit), run)
    ensures Exact(Exec(Initial(maxRunners, softLimit), run[..k]))
    ensures !Exec(Initial(maxRunners, softLimit), run[..k]).crashed
  {
    var p := Initial(maxRunners, softLimit);
    if k > 0 {
      NeverSpoilsIsExact(maxRunners, softLimit, run, k - 1);
      PrefixStep(maxRunners, softLimit, run, k - 1);
    }
  }

  lemma {:induction false} ExactMeansNoCrash(maxRunners: nat, softLimit: int, run: seq<Step>, k: nat)
    requires k <= |run| && ExactThroughout(Initial(maxRunners, softLimit), run)
    ensures !Exec(Initial(maxRunners, softLimit), run[..k]).crashed
  {
    var p := Initial(maxRunners, softLimit);
    if k > 0 {
      ExactMeansNoCrash(maxRunners, softLimit, run, k - 1);
      PrefixStep(maxRunners, softLimit, run, k - 1);
    }
  }

  /** Over whole runs: the LRU is exact in every state if and only if no step spoils it. */
  lemma ExactIffNeverSpoils(maxRunners: nat, softLimit: int, run: seq<Step>)
    ensures ExactThroughout(Initial(maxRunners, softLimit), run)
       <==> NeverSpoils(Initial(maxRunners, softLimit), run)
  {
    var p := Initial(maxRunners, softLimit);
    if ExactThroughout(p, run) {
      forall k | 0 <= k < |run| ensures !Spoils(Exec(p, run[..k]), run[k]) {
        ExactMeansNoCrash(maxRunners, softLimit, run, k);
        PrefixStep(maxRunners, softLimit, run, k);
      }
    }
    if NeverSpoils(p, run) {
      forall k | 0 <= k <= |run| ensures Exact(Exec(p, run[..k])) {
        NeverSpoilsIsExact(maxRunners, softLimit, run, k);
      }
    }
  }

  // ----- finish and removal as one step

  /** Runs in which an over-limit finish is followed at once by its removal. */
  function AtomicNext(p: Pool, st: Step): (q: Pool)
    requires WellFormed(p)
    ensures WellFormed(q)
  {
    match st
    case RunFinish(h, _, _, _) => Next(Next(p, st), TryRemove(h))
    case TryRemove(_) => p
    case _ => Next(p, st)
  }

  function AtomicExec(p: Pool, run: seq<Step>): (q: Pool)
    requires WellFormed(p)
    ensures WellFormed(q)
  {
    if run == [] then p else AtomicNext(AtomicExec(p, run[..|run| - 1]), run[|run| - 1])
  }

  /** The three structures agree with the runner counts. */
  ghost predicate Agreement(p: Pool)
    requires WellFormed(p)
  {
    && !p.crashed
    && Distinct(p.lru.queue) && p.lru.keys == Elements(p.lru.queue)
    && p.lru.size == UsageSum(p.hs, p.lru.queue)
    && (forall n :: n in p.managers ==>
          && Distinct(p.managers[n].handlers)
          && p.managers[n].elements == Elements(p.managers[n].handlers))
    && (forall h :: 0 <= h < |p.hs| ==>
          var r := p.hs[h];
          && (h in p.lru.queue <==> !r.retired && r.runners == 0)
          && (h in p.managers[r.name].handlers <==>
                !r.retired && (p.maxRunners == 0 || r.runners < p.maxRunners)))
  }

  ghost predicate Settled(p: Pool) {
    Inv(p) && Exact(p) && !p.crashed && p.pending == multiset{}
  }

  lemma SettledAgreement(p: Pool)
    requires Settled(p)
    ensures Agreement(p)
  {
    forall n | n in p.managers
      ensures Distinct(p.managers[n].handlers) && p.managers[n].elements == Elements(p.managers[n].handlers)
    {
      assert ManagerOk(p, n);
    }
    forall h | 0 <= h < |p.hs|
      ensures
        var r := p.hs[h];
        && (h in p.lru.queue <==> !r.retired && r.runners == 0)
        && (h in p.managers[r.name].handlers <==>
              !r.retired && (p.maxRunners == 0 || r.runners < p.maxRunners))
    {
      assert HandlerOk(p, h) && ManagerOk(p, p.hs[h].name);
      assert h in p.lru.keys <==> h in p.lru.queue;
      assert h in p.managers[p.hs[h].name].elements <==> h in p.managers[p.hs[h].name].handlers;
    }
  }

  /** After the finish, at most its own removal is pending, and that spoils nothing. */
  lemma FinishBeforeRemoval(p: Pool, h: Hid, u1: nat, u2: nat, ok: bool)
    requires Settled(p) && Enabled(p, RunFinish(h, u1, u2, ok))
    ensures
      var q := Next(p, RunFinish(h, u1, u2, ok));
      && Inv(q) && Exact(q) && !q.crashed && (q.pending == multiset{} || q.pending == multiset{h})
      && !Spoils(q, TryRemove(h))
  {
    var st := RunFinish(h, u1, u2, ok);
    assert HandlerOk(p, h);
    InvStep(p, st);
    ExactStep(p, st);
    assert HandlerOk(Next(p, st), h);
  }

  lemma SettledRemoval(q: Pool, h: Hid)
    requires Inv(q) && Exact(q) && !q.crashed && (q.pending == multiset{} || q.pending == multiset{h})
    requires !Spoils(q, TryRemove(h))
    ensures Settled(Next(q, TryRemove(h)))
  {
    InvStep(q, TryRemove(h));
    ExactStep(q, TryRemove(h));
  }

  lemma SettledFinish(p: Pool, h: Hid, u1: nat, u2: nat, ok: bool)
    requires Settled(p)
    ensures Settled(AtomicNext(p, RunFinish(h, u1, u2, ok)))
  {
    var st := RunFinish(h, u1, u2, ok);
    if Enabled(p, st) {
      FinishBeforeRemoval(p, h, u1, u2, ok);
      SettledRemoval(Next(p, st), h);
    }
  }

  lemma SettledStep(p: Pool, st: Step)
    requires Settled(p)
    ensures Settled(AtomicNext(p, st))
  {
    match st {
      case RunFinish(h, u1, u2, ok) => SettledFinish(p, h, u1, u2, ok);
      case TryRemove(h) =>
      case Get(name) =>
        InvStep(p, st);
        ExactStep(p, st);
        var m := ManagerOf(p, name);
        if m.handlers != [] {
          var h := m.handlers[0];
          assert ManagerOk(p, name) && h in m.elements;
          assert HandlerOk(p, h);
        }
      case _ =>
        InvStep(p, st);
        ExactStep(p, st);
    }
  }

  lemma {:induction false} SettledRun(maxRunners: nat, softLimit: int, run: seq<Step>)
    ensures Settled(AtomicExec(Initial(maxRunners, softLimit), run))
  {
    if run == [] {
      InvRun(maxRunners, softLimit, []);
    } else {
      SettledRun(maxRunners, softLimit, run[..|run| - 1]);
      SettledStep(AtomicExec(Initial(maxRunners, softLimit), run[..|run| - 1]), run[|run| - 1]);
    }
  }

  /** With finish and removal as one step, in every reachable state: a handler is in the LRU
      exactly when it is idle and not retired, it is listed exactly when it is not retired and
      below its runner limit, each list agrees with its map, and the size is the summed usage. */
  lemma AtomicRunsAgree(maxRunners: nat, softLimit: int, run: seq<Step>)
    ensures Agreement(AtomicExec(Initial(maxRunners, softLimit), run))
  {
    SettledRun(maxRunners, softLimit, run);
    SettledAgreement(AtomicExec(Initial(maxRunners, softLimit), run));
  }

  // ----- the evictor

  /** The evictor's loop from its check on, until the size is within the soft limit, with nothing added
      meanwhile. */
  function EvictRounds(p: Pool): (q: Pool)
    requires WellFormed(p)
    ensures WellFormed(q)
    decreases if p.crashed then 0 else |p.lru.queue| + 1
  {
    if p.crashed || p.lru.size <= p.softLimit || p.lru.queue == [] then p
    else EvictWellFormed(p); EvictRounds(EvictStep(p))
  }

  /** `q` is `p` after the handlers past the first `|q.lru.queue|` of the queue were retired and
      handed to nuke, and no longer prefix of the queue fits the soft limit. */
  ghost predicate ShortestEviction(p: Pool, q: Pool) {
    var k := |q.lru.queue|;
    && k <= |p.lru.queue| && q.lru.queue == p.lru.queue[..k]
    && (forall j :: k < j <= |p.lru.queue| ==> UsageSum(p.hs, p.lru.queue[..j]) > p.softLimit)
    && |q.hs| == |p.hs|
    && (forall h :: 0 <= h < |p.hs| ==>
          q.hs[h] == if h in p.lru.queue[k..] then p.hs[h].(retired := true) else p.hs[h])
    && q.nukes == p.nukes + multiset(p.lru.queue[k..])
    && q.pending == p.pending && q.softLimit == p.softLimit
  }

  /** One round, as far as the shortest eviction is concerned. */
  ghost predicate OneRound(p: Pool, p1: Pool) {
    p.lru.queue != [] &&
    var n := |p.lru.queue| - 1;
    var h := p.lru.queue[n];
    && h < |p.hs| && p1.lru.queue == p.lru.queue[..n] && p1.hs == p.hs[h := p.hs[h].(retired := true)]
    && p1.nukes == p.nukes + multiset{h} && p1.pending == p.pending && p1.softLimit == p.softLimit
  }

  lemma LongerPrefixesAreTooBig(p: Pool, p1: Pool, k: nat, j: nat)
    requires OneRound(p, p1) && UsageSum(p.hs, p.lru.queue) > p.softLimit && k < j <= |p.lru.queue|
    requires forall i :: k < i <= |p1.lru.queue| ==> UsageSum(p1.hs, p1.lru.queue[..i]) > p1.softLimit
    ensures UsageSum(p.hs, p.lru.queue[..j]) > p.softLimit
  {
    if j < |p.lru.queue| {
      assert p1.lru.queue[..j] == p.lru.queue[..j];
      UsageSumFrame(p.hs, p1.hs, p.lru.queue[..j]);
    } else {
      assert p.lru.queue[..j] == p.lru.queue;
    }
  }

  lemma RoundRetires(p: Pool, p1: Pool, q: Pool)
    requires OneRound(p, p1) && ShortestEviction(p1, q)
    ensures
      var k := |q.lru.queue|;
      && |q.hs| == |p.hs| && k <= |p.lru.queue|
      && (forall h :: 0 <= h < |p.hs| ==>
            q.hs[h] == if h in p.lru.queue[k..] then p.hs[h].(retired := true) else p.hs[h])
      && q.nukes == p.nukes + multiset(p.lru.queue[k..])
  {
    var n := |p.lru.queue| - 1;
    var k := |q.lru.queue|;
    assert p.lru.queue[k..] == p1.lru.queue[k..] + [p.lru.queue[n]];
  }

  /** One more round in front of a shortest eviction. */
  lemma ShortestEvictionStep(p: Pool, p1: Pool, q: Pool)
    requires OneRound(p, p1) && UsageSum(p.hs, p.lru.queue) > p.softLimit && ShortestEviction(p1, q)
    ensures ShortestEviction(p, q)
  {
    var k := |q.lru.queue|;
    assert p1.lru.queue[..k] == p.lru.queue[..k];
    RoundRetires(p, p1, q);
    forall j | k < j <= |p.lru.queue| ensures UsageSum(p.hs, p.lru.queue[..j]) > p.softLimit {
      LongerPrefixesAreTooBig(p, p1, k, j);
    }
  }

  lemma RoundIsOneRound(p: Pool)
    requires Inv(p) && Exact(p) && !p.crashed && p.lru.queue != []
    ensures OneRound(p, EvictStep(p)) && |EvictStep(p).lru.queue| < |p.lru.queue|
  {
    var n := |p.lru.queue| - 1;
    assert p.lru.queue[n] in p.lru.queue && HandlerOk(p, p.lru.queue[n]);
  }

  /** The evictor stops within the limit, having removed the shortest sufficient run of least
      recently idle handlers; under a negative limit it stops with nothing left. */
  lemma {:induction false} EvictRoundsRemoveShortestRun(p: Pool)
    requires Inv(p) && Exact(p) && !p.crashed
    ensures
      var q := EvictRounds(p);
      && Inv(q) && Exact(q) && !q.crashed && ShortestEviction(p, q)
      && (if p.softLimit >= 0 then q.lru.size <= p.softLimit else q.lru.queue == [])
    decreases |p.lru.queue|
  {
    if p.lru.size <= p.softLimit || p.lru.queue == [] {
      assert p.lru.queue[..|p.lru.queue|] == p.lru.queue;
    } else {
      RoundIsOneRound(p);
      InvEvict(p);
      ExactEvict(p);
      EvictRoundsRemoveShortestRun(EvictStep(p));
      ShortestEvictionStep(p, EvictStep(p), EvictRounds(p));
    }
  }
}
