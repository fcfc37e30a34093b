/**
 The pool in terms of its runs: what each finish decides, who was handed out, started and retired, and in
 which order handlers are reused and reclaimed.
 */
module HandlerPoolRuns {
  import opened Collections
  import opened HandlerPool
  import opened HandlerPoolProofs
  import opened HandlerPoolExact

  // ----- what a finish decides

  predicate OthersSame(p: Pool, q: Pool, h: Hid) {
    |q.hs| == |p.hs| && forall k :: 0 <= k < |p.hs| && k != h ==> q.hs[k] == p.hs[k]
  }

  /** A finish that leaves other runners gives up one runner and nothing else. */
  lemma BusyFinish(p: Pool, h: Hid, u1: nat, u2: nat, ok: bool)
    requires Inv(p) && Enabled(p, RunFinish(h, u1, u2, ok)) && p.hs[h].runners > 1
    ensures
      var q := Next(p, RunFinish(h, u1, u2, ok));
      && OthersSame(p, q, h)
      && q.hs[h] == p.hs[h].(runners := p.hs[h].runners - 1, active := p.hs[h].active - 1)
      && q.lru == p.lru && q.pending == p.pending && q.nukes == p.nukes
  {
  }

  /** The last finish pauses the sandbox. It keeps the handler exactly when the usage that it reads is within
      the soft limit: then the handler is listed, goes to the front of the LRU and records the usage that
      is read when it gets there. Otherwise it stays outside the LRU, to be removed. */
  lemma LastFinishKeepsIff(p: Pool, h: Hid, u1: nat, u2: nat, ok: bool)
    requires Inv(p) && Enabled(p, RunFinish(h, u1, u2, ok)) && p.hs[h].runners == 1
    ensures
      var q := Next(p, RunFinish(h, u1, u2, ok));
      && OthersSame(p, q, h) && q.nukes == p.nukes && !q.crashed
      && q.hs[h].runners == 0 && q.hs[h].active == 0 && !q.hs[h].retired && !q.hs[h].nuked
      && q.hs[h].sandbox == (if p.hs[h].sandbox == Some(Running) && ok then Some(Paused) else p.hs[h].sandbox)
      && (h in q.lru.keys <==> u1 <= p.softLimit)
      && (u1 <= p.softLimit ==>
            && q.lru.queue == [h] + p.lru.queue && q.lru.size == p.lru.size + u2 && q.hs[h].usage == u2
            && q.pending == p.pending
            && p.hs[h].name in q.managers && h in q.managers[p.hs[h].name].handlers)
      && (u1 > p.softLimit ==> q.lru == p.lru && q.pending == p.pending + multiset{h})
  {
    assert HandlerOk(p, h);
    var q := Next(p, RunFinish(h, u1, u2, ok));
    InvStep(p, RunFinish(h, u1, u2, ok));
    assert HandlerOk(q, h) && ManagerOk(q, p.hs[h].name);
    if u1 <= p.softLimit {
      InvFinishIdle(p, h, u1, u2, ok);
      LastFinishLists(p, q, h);
    }
  }

  lemma LastFinishLists(p: Pool, q: Pool, h: Hid)
    requires Inv(q) && h < |q.hs| && q.hs[h].runners == 0 && !q.hs[h].retired && h in q.lru.keys
    ensures h in q.managers[q.hs[h].name].handlers
  {
    assert HandlerOk(q, h) && ManagerOk(q, q.hs[h].name);
    assert h in q.managers[q.hs[h].name].elements;
  }

  // ----- what a start does to the sandbox

  /** A start makes a sandbox when there is none, unless it fails before that; the sandbox runs unless an error
      return left it as it was made. A start resumes a paused sandbox, also when it fails after that, and does
      nothing to one that runs or is stopped. */
  lemma StartResumes(p: Pool, h: Hid, outcome: StartOutcome, created: SandboxState)
    requires WellFormed(p) && Enabled(p, Step.RunStart(h, outcome, created))
    ensures
      var s, s' := p.hs[h].sandbox, Next(p, Step.RunStart(h, outcome, created)).hs[h].sandbox;
      && OthersSame(p, Next(p, Step.RunStart(h, outcome, created)), h)
      && (s == None ==>
            && (s' == None <==> outcome == NoSandbox)
            && (outcome == LeftAsCreated ==> s' == Some(created))
            && (outcome == Ok || outcome == LateFailure ==> s' == Some(Running)))
      && (s == Some(Paused) ==> (s' != s <==> outcome == Ok || outcome == LateFailure))
      && (s == Some(Paused) && s' != s ==> s' == Some(Running))
      && (s == Some(Running) || s == Some(Stopped) ==> s' == s)
  {
  }

  // ----- who is retired

  /** The last finish of the handler, with a usage above the limit. */
  predicate FinishesOver(p: Pool, st: Step, h: Hid) {
    Enabled(p, st) && st.RunFinish? && st.h == h && h < |p.hs| && p.hs[h].runners == 1 && st.usageAtCheck > p.softLimit
  }

  /** The evictor takes the handler, which is the last of the queue. */
  predicate Evicts(p: Pool, st: Step, h: Hid) {
    Enabled(p, st) && st.Evict? && p.lru.queue != [] && p.lru.queue[|p.lru.queue| - 1] == h
  }

  /** Some step of the run is of the kind. */
  ghost predicate Happened(p: Pool, run: seq<Step>, kind: (Pool, Step) -> bool)
    requires WellFormed(p)
  {
    run != [] &&
    var init := run[..|run| - 1];
    Happened(p, init, kind) || kind(Exec(p, init), run[|run| - 1])
  }

  function Over(h: Hid): (Pool, Step) -> bool {
    (p: Pool, st: Step) => FinishesOver(p, st, h)
  }

  function Taken(h: Hid): (Pool, Step) -> bool {
    (p: Pool, st: Step) => Evicts(p, st, h)
  }

  /** Who becomes retired or is left pending in a step. */
  lemma RetiredStep(p: Pool, st: Step, h: Hid)
    requires WellFormed(p) && h < |p.hs|
    ensures h < |Next(p, st).hs|
    ensures Next(p, st).hs[h].retired ==> p.hs[h].retired || h in p.pending || Evicts(p, st, h)
    ensures h in Next(p, st).pending ==> h in p.pending || FinishesOver(p, st, h)
  {
    if Enabled(p, st) {
      match st {
        case Get(name) => RetiredGet(p, name, h);
        case RunFinish(k, u1, u2, ok) => RetiredFinish(p, k, u1, u2, ok, h);
        case Evict => EvictTouchesLast(p);
        case _ => RetiredOther(p, st, h);
      }
    }
  }

  /** A round of the evictor changes one record, of the handler at the back. */
  lemma EvictTouchesLast(p: Pool)
    requires WellFormed(p)
    ensures
      var q := EvictStep(p);
      && |q.hs| == |p.hs| && q.pending == p.pending
      && forall h: Hid :: h < |p.hs| ==>
           && q.hs[h] == p.hs[h].(retired := q.hs[h].retired)
           && (q.hs[h].retired ==> p.hs[h].retired || (p.lru.queue != [] && p.lru.queue[|p.lru.queue| - 1] == h))
  {
    if p.lru.queue != [] {
      assert p.lru.queue[|p.lru.queue| - 1] in p.lru.queue;
    }
  }

  lemma RetiredGet(p: Pool, name: string, h: Hid)
    requires WellFormed(p) && h < |p.hs|
    ensures
      var q := GetStep(p, name);
      h < |q.hs| && q.hs[h].retired == p.hs[h].retired && q.pending == p.pending
  {
    var m := ManagerOf(p, name);
    if m.handlers != [] {
      assert m.handlers[0] in m.handlers;
    }
  }

  /** A finish changes one record, without retiring it. */
  lemma FinishTouchesOne(p: Pool, k: Hid, u1: nat, u2: nat, ok: bool)
    requires WellFormed(p) && Enabled(p, RunFinish(k, u1, u2, ok))
    ensures
      var q := RunFinishStep(p, k, u1, u2, ok);
      && OthersSame(p, q, k) && q.nukes == p.nukes
      && q.hs[k].name == p.hs[k].name && q.hs[k].retired == p.hs[k].retired && q.hs[k].nuked == p.hs[k].nuked
      && (q.pending == p.pending || (q.pending == p.pending + multiset{k} && FinishesOver(p, RunFinish(k, u1, u2, ok), k)))
  {
  }

  lemma RetiredFinish(p: Pool, k: Hid, u1: nat, u2: nat, ok: bool, h: Hid)
    requires WellFormed(p) && h < |p.hs| && Enabled(p, RunFinish(k, u1, u2, ok))
    ensures
      var q := RunFinishStep(p, k, u1, u2, ok);
      && h < |q.hs| && q.hs[h].retired == p.hs[h].retired
      && (h in q.pending ==> h in p.pending || FinishesOver(p, RunFinish(k, u1, u2, ok), h))
  {
    FinishTouchesOne(p, k, u1, u2, ok);
  }

  lemma RetiredOther(p: Pool, st: Step, h: Hid)
    requires WellFormed(p) && h < |p.hs| && Enabled(p, st) && (st.RunStart? || st.TryRemove? || st.Nuke? || st.CheckSize?)
    ensures
      var q := Apply(p, st);
      && h < |q.hs| && (q.hs[h].retired ==> p.hs[h].retired || h in p.pending)
      && (h in q.pending ==> h in p.pending)
  {
  }

  lemma OnlyGetAdds(p: Pool, st: Step)
    requires WellFormed(p) && !st.Get?
    ensures |Next(p, st).hs| == |p.hs|
  {
    if Enabled(p, st) && st.Evict? {
      EvictTouchesLast(p);
    }
  }

  lemma NewByGet(p: Pool, name: string, h: Hid)
    requires Inv(p) && |p.hs| <= h < |GetStep(p, name).hs|
    ensures !GetStep(p, name).hs[h].retired && h !in GetStep(p, name).pending
  {
    assert h !in p.pending;
  }

  lemma NewIsNotRetired(p: Pool, st: Step, h: Hid)
    requires Inv(p) && |p.hs| <= h < |Next(p, st).hs|
    ensures !Next(p, st).hs[h].retired && h !in Next(p, st).pending
  {
    if st.Get? {
      NewByGet(p, st.name, h);
    } else {
      OnlyGetAdds(p, st);
    }
  }

  /** Over any run, only an eviction, or a last finish with a usage above the limit, leads to a retirement. */
  lemma {:induction false} RetiredOnlyFor(maxRunners: nat, softLimit: int, run: seq<Step>, h: Hid)
    requires h < |Exec(Initial(maxRunners, softLimit), run).hs|
    ensures
      var p := Initial(maxRunners, softLimit);
      && (Exec(p, run).hs[h].retired ==> Happened(p, run, Taken(h)) || Happened(p, run, Over(h)))
      && (h in Exec(p, run).pending ==> Happened(p, run, Over(h)))
  {
    if run != [] {
      var init := run[..|run| - 1];
      var p := Exec(Initial(maxRunners, softLimit), init);
      InvRun(maxRunners, softLimit, init);
      if h < |p.hs| {
        RetiredOnlyFor(maxRunners, softLimit, init, h);
        RetiredStep(p, run[|run| - 1], h);
      } else {
        NewIsNotRetired(p, run[|run| - 1], h);
      }
    }
  }

  // ----- who holds a handler

  /** How many steps of the run are of the kind. */
  ghost function Tally(p: Pool, run: seq<Step>, kind: (Pool, Step) -> bool): nat
    requires WellFormed(p)
  {
    if run == [] then 0
    else
      var init := run[..|run| - 1];
      Tally(p, init, kind) + (if kind(Exec(p, init), run[|run| - 1]) then 1 else 0)
  }

  function HandsOut(h: Hid): (Pool, Step) -> bool {
    (p: Pool, st: Step) => Enabled(p, st) && st.Get? && Gotten(p, st.name) == h
  }

  function Starts(h: Hid): (Pool, Step) -> bool {
    (p: Pool, st: Step) => Enabled(p, st) && st.RunStart? && st.h == h && st.outcome == Ok
  }

  function Fails(h: Hid): (Pool, Step) -> bool {
    (p: Pool, st: Step) => Enabled(p, st) && st.RunStart? && st.h == h && st.outcome != Ok
  }

  function Finishes(h: Hid): (Pool, Step) -> bool {
    (p: Pool, st: Step) => Enabled(p, st) && st.RunFinish? && st.h == h
  }

  /** What a step does to the counters of one handler. */
  ghost predicate Counted(p: Pool, st: Step, q: Pool, h: Hid)
  {
    var one := (kind: (Pool, Step) -> bool) => if kind(p, st) then 1 else 0;
    var r := if h < |p.hs| then p.hs[h] else NewHandler("").(runners := 0, gotten := 0);
    if h < |q.hs| then
      && q.hs[h].runners == r.runners + one(HandsOut(h)) - one(Finishes(h))
      && q.hs[h].active == r.active + one(Starts(h)) - one(Finishes(h))
      && q.hs[h].leaked == r.leaked + one(Fails(h))
    else
      !(h < |p.hs|) && one(HandsOut(h)) == 0 && one(Starts(h)) == 0 && one(Fails(h)) == 0 && one(Finishes(h)) == 0
  }

  lemma GetCounted(p: Pool, name: string, h: Hid)
    requires WellFormed(p) && Enabled(p, Get(name))
    ensures Counted(p, Get(name), GetStep(p, name), h)
  {
    var m := ManagerOf(p, name);
    if m.handlers != [] {
      assert m.handlers[0] in m.handlers;
    }
  }

  lemma StartCounted(p: Pool, k: Hid, outcome: StartOutcome, created: SandboxState, h: Hid)
    requires WellFormed(p) && Enabled(p, Step.RunStart(k, outcome, created))
    ensures Counted(p, Step.RunStart(k, outcome, created), RunStartStep(p, k, outcome, created), h)
  {
  }

  lemma FinishCounted(p: Pool, k: Hid, u1: nat, u2: nat, ok: bool, h: Hid)
    requires Inv(p) && Enabled(p, RunFinish(k, u1, u2, ok))
    ensures Counted(p, RunFinish(k, u1, u2, ok), RunFinishStep(p, k, u1, u2, ok), h)
  {
    InvRunFinish(p, k, u1, u2, ok);
  }

  lemma OtherCounted(p: Pool, st: Step, h: Hid)
    requires WellFormed(p) && Enabled(p, st) && (st.TryRemove? || st.CheckSize? || st.Nuke?)
    ensures Counted(p, st, Apply(p, st), h)
  {
  }

  lemma StepCounted(p: Pool, st: Step, h: Hid)
    requires Inv(p)
    ensures Counted(p, st, Next(p, st), h)
  {
    if Enabled(p, st) {
      match st {
        case Get(name) => GetCounted(p, name, h);
        case RunStart(k, outcome, created) => StartCounted(p, k, outcome, created, h);
        case RunFinish(k, u1, u2, ok) => FinishCounted(p, k, u1, u2, ok, h);
        case Evict => EvictTouchesLast(p);
        case _ => OtherCounted(p, st, h);
      }
    }
  }

  /** In every run, a handler's runners are the requests that were handed it less those that finished; of
      them those are in service that started and have not finished, and those are lost whose start failed. */
  lemma {:induction false} RunnersAreRequests(maxRunners: nat, softLimit: int, run: seq<Step>, h: Hid)
    ensures
      var p := Initial(maxRunners, softLimit);
      var q := Exec(p, run);
      if h < |q.hs| then
        && q.hs[h].runners == Tally(p, run, HandsOut(h)) - Tally(p, run, Finishes(h))
        && q.hs[h].active == Tally(p, run, Starts(h)) - Tally(p, run, Finishes(h))
        && q.hs[h].leaked == Tally(p, run, Fails(h))
      else
        && Tally(p, run, HandsOut(h)) == 0 && Tally(p, run, Finishes(h)) == 0
        && Tally(p, run, Starts(h)) == 0 && Tally(p, run, Fails(h)) == 0
  {
    if run != [] {
      var init := run[..|run| - 1];
      RunnersAreRequests(maxRunners, softLimit, init, h);
      InvRun(maxRunners, softLimit, init);
      StepCounted(Exec(Initial(maxRunners, softLimit), init), run[|run| - 1], h);
    }
  }

  // ----- in which order handlers are reused and reclaimed

  /** The number of steps of the run up to the last of the kind. */
  ghost function Last(maxRunners: nat, softLimit: int, run: seq<Step>, kind: (Pool, Step) -> bool): nat {
    if run == [] then 0
    else
      var init := run[..|run| - 1];
      if kind(Exec(Initial(maxRunners, softLimit), init), run[|run| - 1]) then |run| else Last(maxRunners, softLimit, init, kind)
  }

  lemma {:induction false} LastIsPast(maxRunners: nat, softLimit: int, run: seq<Step>, kind: (Pool, Step) -> bool)
    ensures Last(maxRunners, softLimit, run, kind) <= |run|
  {
    if run != [] {
      LastIsPast(maxRunners, softLimit, run[..|run| - 1], kind);
    }
  }

  /** From the highest rank to the lowest. */
  predicate Descending(s: seq<Hid>, rank: Hid -> nat) {
    forall i, j :: 0 <= i < j < |s| ==> rank(s[i]) > rank(s[j])
  }

  lemma {:induction false} DescendingWithout(s: seq<Hid>, rank: Hid -> nat, x: Hid)
    requires Descending(s, rank)
    ensures Descending(Without(s, x), rank)
  {
    if s != [] && s[0] != x {
      DescendingWithout(s[1..], rank, x);
      WithoutElements(s[1..], x);
      var w := Without(s[1..], x);
      forall i | 0 <= i < |w| ensures rank(s[0]) > rank(w[i]) {
        assert w[i] in s[1..];
      }
    }
  }

  lemma DescendingFront(s: seq<Hid>, rank: Hid -> nat, rank': Hid -> nat, h: Hid)
    requires Descending(s, rank) && h !in s
    requires forall x: Hid :: x in s ==> rank'(x) == rank(x) < rank'(h)
    ensures Descending([h] + s, rank')
  {
    assert forall i :: 0 <= i < |s| ==> s[i] in s;
  }

  lemma DescendingSame(s: seq<Hid>, rank: Hid -> nat, rank': Hid -> nat)
    requires Descending(s, rank) && forall x: Hid :: x in s ==> rank'(x) == rank(x)
    ensures Descending(s, rank')
  {
    assert forall i :: 0 <= i < |s| ==> s[i] in s;
  }

  ghost function FinishRank(maxRunners: nat, softLimit: int, run: seq<Step>): Hid -> nat {
    (h: Hid) => Last(maxRunners, softLimit, run, Finishes(h))
  }

  /** A step lets a handler that is not queued join the queue by its finish, at the front, or takes handlers
      out; whoever finishes is not queued. */
  lemma QueueStep(p: Pool, st: Step, rank: Hid -> nat)
    requires Inv(p) && Descending(p.lru.queue, rank)
    ensures
      var q := Next(p, st);
      if Enabled(p, st) && st.RunFinish? then
        st.h !in p.lru.queue && (q.lru.queue == p.lru.queue || q.lru.queue == [st.h] + p.lru.queue)
      else Descending(q.lru.queue, rank) && forall x :: x in q.lru.queue ==> x in p.lru.queue
  {
    if Enabled(p, st) {
      match st {
        case Get(name) => QueueGet(p, name, rank);
        case RunFinish(h, _, _, _) => assert HandlerOk(p, h);
        case _ =>
      }
    }
  }

  lemma QueueGet(p: Pool, name: string, rank: Hid -> nat)
    requires WellFormed(p) && Descending(p.lru.queue, rank)
    ensures
      var q := GetStep(p, name);
      Descending(q.lru.queue, rank) && forall x :: x in q.lru.queue ==> x in p.lru.queue
  {
    if ManagerOf(p, name).handlers != [] {
      var h := ManagerOf(p, name).handlers[0];
      assert h in ManagerOf(p, name).handlers;
      DescendingWithout(p.lru.queue, rank, h);
      WithoutElements(p.lru.queue, h);
    }
  }

  lemma RankStep(maxRunners: nat, softLimit: int, run: seq<Step>, x: Hid)
    requires run != []
    ensures
      var init := run[..|run| - 1];
      var p := Exec(Initial(maxRunners, softLimit), init);
      var st := run[|run| - 1];
      && FinishRank(maxRunners, softLimit, init)(x) < |run|
      && FinishRank(maxRunners, softLimit, run)(x)
         == if Enabled(p, st) && st.RunFinish? && st.h == x then |run| else FinishRank(maxRunners, softLimit, init)(x)
  {
    LastIsPast(maxRunners, softLimit, run[..|run| - 1], Finishes(x));
  }

  /** Over any run, the queue holds the idle handlers by the time of their last finish, the latest first. */
  lemma {:induction false} QueueIsByLastFinish(maxRunners: nat, softLimit: int, run: seq<Step>)
    ensures Descending(Exec(Initial(maxRunners, softLimit), run).lru.queue, FinishRank(maxRunners, softLimit, run))
  {
    if run != [] {
      var init := run[..|run| - 1];
      var st := run[|run| - 1];
      var p := Exec(Initial(maxRunners, softLimit), init);
      var rank, rank' := FinishRank(maxRunners, softLimit, init), FinishRank(maxRunners, softLimit, run);
      QueueIsByLastFinish(maxRunners, softLimit, init);
      InvRun(maxRunners, softLimit, init);
      QueueStep(p, st, rank);
      forall x: Hid ensures rank(x) < |run| && rank'(x) == if Enabled(p, st) && st.RunFinish? && st.h == x then |run| else rank(x) {
        RankStep(maxRunners, softLimit, run, x);
      }
      if Enabled(p, st) && st.RunFinish? {
        DescendingSame(p.lru.queue, rank, rank');
        DescendingFront(p.lru.queue, rank, rank', st.h);
      } else {
        DescendingSame(Next(p, st).lru.queue, rank, rank');
      }
    }
  }

  /** The evictor's victim is the handler that has been idle for longest. */
  lemma LongestIdleIsEvicted(maxRunners: nat, softLimit: int, run: seq<Step>, h: Hid, x: Hid)
    requires
      var p := Exec(Initial(maxRunners, softLimit), run);
      Evicts(p, Evict, h) && x in p.lru.queue && x != h
    ensures Last(maxRunners, softLimit, run, Finishes(h)) < Last(maxRunners, softLimit, run, Finishes(x))
  {
    QueueIsByLastFinish(maxRunners, softLimit, run);
  }

  // ----- which handler is handed out

  predicate IsListed(p: Pool, h: Hid) {
    h < |p.hs| && p.hs[h].name in p.managers && h in p.managers[p.hs[h].name].handlers
  }

  /** The handler is put on its list: it is new, or it leaves its runner limit. */
  ghost predicate Lists(p: Pool, st: Step, h: Hid) {
    WellFormed(p) && !IsListed(p, h) && IsListed(Next(p, st), h)
  }

  ghost function Listing(h: Hid): (Pool, Step) -> bool {
    (p: Pool, st: Step) => Lists(p, st, h)
  }

  ghost function ListRank(maxRunners: nat, softLimit: int, run: seq<Step>): Hid -> nat {
    (h: Hid) => Last(maxRunners, softLimit, run, Listing(h))
  }

  /** What a step does to one list: one handler that was not on it joins it at the front, or some leave. */
  ghost predicate ListMoves(s: seq<Hid>, s': seq<Hid>, rank: Hid -> nat) {
    || (s' != [] && s'[0] !in s && s' == [s'[0]] + s)
    || (Descending(s', rank) && forall x :: x in s' ==> x in s)
  }

  lemma ListGet(p: Pool, get: string, name: string, rank: Hid -> nat)
    requires Inv(p) && Descending(ManagerOf(p, name).handlers, rank)
    ensures ListMoves(ManagerOf(p, name).handlers, ManagerOf(GetStep(p, get), name).handlers, rank)
  {
    var s := ManagerOf(p, name).handlers;
    if name == get && s == [] {
      assert |p.hs| !in s;
    }
  }

  lemma ListFinish(p: Pool, h: Hid, u1: nat, u2: nat, ok: bool, name: string, rank: Hid -> nat)
    requires Inv(p) && Enabled(p, RunFinish(h, u1, u2, ok)) && Descending(ManagerOf(p, name).handlers, rank)
    ensures ListMoves(ManagerOf(p, name).handlers, ManagerOf(RunFinishStep(p, h, u1, u2, ok), name).handlers, rank)
  {
    assert HandlerOk(p, h) && ManagerOk(p, p.hs[h].name);
    assert h in p.managers[p.hs[h].name].elements <==> h in p.managers[p.hs[h].name].handlers;
  }

  lemma ListEvict(p: Pool, name: string, rank: Hid -> nat)
    requires WellFormed(p) && Descending(ManagerOf(p, name).handlers, rank)
    ensures ListMoves(ManagerOf(p, name).handlers, ManagerOf(EvictStep(p), name).handlers, rank)
  {
    if p.lru.queue != [] {
      var h := p.lru.queue[|p.lru.queue| - 1];
      assert h in p.lru.queue;
      DescendingWithout(ManagerOf(p, name).handlers, rank, h);
      WithoutElements(ManagerOf(p, name).handlers, h);
    }
  }

  lemma ListTryRemove(p: Pool, h: Hid, name: string, rank: Hid -> nat)
    requires WellFormed(p) && h < |p.hs| && Descending(ManagerOf(p, name).handlers, rank)
    ensures ListMoves(ManagerOf(p, name).handlers, ManagerOf(TryRemoveStep(p, h), name).handlers, rank)
  {
    DescendingWithout(ManagerOf(p, name).handlers, rank, h);
    WithoutElements(ManagerOf(p, name).handlers, h);
  }

  lemma ListStep(p: Pool, st: Step, name: string, rank: Hid -> nat)
    requires Inv(p) && Descending(ManagerOf(p, name).handlers, rank)
    ensures ListMoves(ManagerOf(p, name).handlers, ManagerOf(Next(p, st), name).handlers, rank)
  {
    if Enabled(p, st) {
      match st {
        case Get(get) => ListGet(p, get, name, rank);
        case RunFinish(h, u1, u2, ok) => ListFinish(p, h, u1, u2, ok, name, rank);
        case TryRemove(h) => ListTryRemove(p, h, name, rank);
        case Evict => ListEvict(p, name, rank);
        case _ =>
      }
    }
  }

  /** A handler on the list of a lambda has its name. */
  lemma ListedIff(p: Pool, name: string, h: Hid)
    requires Inv(p)
    ensures h in ManagerOf(p, name).handlers <==> IsListed(p, h) && p.hs[h].name == name
  {
    if name in p.managers {
      assert ManagerOk(p, name);
      assert h in ManagerOf(p, name).handlers <==> h in p.managers[name].elements;
    }
  }

  lemma ListRankStep(maxRunners: nat, softLimit: int, run: seq<Step>, name: string, x: Hid)
    requires run != []
    requires
      var p := Exec(Initial(maxRunners, softLimit), run[..|run| - 1]);
      Inv(p) && x in ManagerOf(Next(p, run[|run| - 1]), name).handlers
    ensures
      var init := run[..|run| - 1];
      var p := Exec(Initial(maxRunners, softLimit), init);
      && ListRank(maxRunners, softLimit, init)(x) < |run|
      && ListRank(maxRunners, softLimit, run)(x)
         == if x in ManagerOf(p, name).handlers then ListRank(maxRunners, softLimit, init)(x) else |run|
  {
    var init := run[..|run| - 1];
    var p := Exec(Initial(maxRunners, softLimit), init);
    var q := Next(p, run[|run| - 1]);
    LastIsPast(maxRunners, softLimit, init, Listing(x));
    InvStep(p, run[|run| - 1]);
    ListedIff(p, name, x);
    ListedIff(q, name, x);
    NamesStay(p, run[|run| - 1], x);
  }

  lemma NamesOther(p: Pool, st: Step, x: Hid)
    requires WellFormed(p) && Enabled(p, st) && (st.RunStart? || st.TryRemove? || st.Nuke? || st.CheckSize?)
    ensures x < |p.hs| ==> x < |Apply(p, st).hs| && Apply(p, st).hs[x].name == p.hs[x].name
  {
  }

  lemma NamesStay(p: Pool, st: Step, x: Hid)
    requires WellFormed(p)
    ensures x < |p.hs| ==> x < |Next(p, st).hs| && Next(p, st).hs[x].name == p.hs[x].name
  {
    if Enabled(p, st) {
      match st {
        case Get(name) => NamesGet(p, name);
        case RunFinish(k, u1, u2, ok) => FinishTouchesOne(p, k, u1, u2, ok);
        case Evict => EvictTouchesLast(p);
        case _ => NamesOther(p, st, x);
      }
    }
  }

  lemma NamesGet(p: Pool, name: string)
    requires WellFormed(p)
    ensures
      var q := GetStep(p, name);
      |p.hs| <= |q.hs| && forall x :: 0 <= x < |p.hs| ==> q.hs[x].name == p.hs[x].name
  {
    if ManagerOf(p, name).handlers != [] {
      assert ManagerOf(p, name).handlers[0] in ManagerOf(p, name).handlers;
    }
  }

  /** Over any run, each list holds its handlers by the time at which they were last listed, the latest
      first. */
  lemma {:induction false} ListIsByLastListing(maxRunners: nat, softLimit: int, run: seq<Step>, name: string)
    ensures Descending(ManagerOf(Exec(Initial(maxRunners, softLimit), run), name).handlers, ListRank(maxRunners, softLimit, run))
  {
    if run != [] {
      var init := run[..|run| - 1];
      var p := Exec(Initial(maxRunners, softLimit), init);
      var q := Next(p, run[|run| - 1]);
      var rank, rank' := ListRank(maxRunners, softLimit, init), ListRank(maxRunners, softLimit, run);
      ListIsByLastListing(maxRunners, softLimit, init, name);
      InvRun(maxRunners, softLimit, init);
      ListStep(p, run[|run| - 1], name, rank);
      var s, s' := ManagerOf(p, name).handlers, ManagerOf(q, name).handlers;
      forall x: Hid | x in s' ensures rank(x) < |run| && rank'(x) == if x in s then rank(x) else |run| {
        ListRankStep(maxRunners, softLimit, run, name, x);
      }
      if s' != [] && s'[0] !in s && s' == [s'[0]] + s {
        assert forall x :: x in s ==> x in s';
        assert s'[0] in s';
        DescendingFront(s, rank, rank', s'[0]);
      } else {
        DescendingSame(s', rank, rank');
      }
    }
  }

  /** Get makes a handler only when none of the lambda can take another request; otherwise it hands out
      the one that was listed last. */
  lemma LatestIsHandedOut(maxRunners: nat, softLimit: int, run: seq<Step>, name: string)
    ensures
      var p := Exec(Initial(maxRunners, softLimit), run);
      var g := Gotten(p, name);
      && (g < |p.hs| <==> exists h :: 0 <= h < |p.hs| && p.hs[h].name == name && IsListed(p, h))
      && (g >= |p.hs| ==> g == |p.hs|)
      && (g < |p.hs| ==>
            && p.hs[g].name == name && IsListed(p, g)
            && forall h: Hid :: h < |p.hs| && h != g && p.hs[h].name == name && IsListed(p, h) ==>
                 Last(maxRunners, softLimit, run, Listing(h)) < Last(maxRunners, softLimit, run, Listing(g)))
  {
    var p := Exec(Initial(maxRunners, softLimit), run);
    InvRun(maxRunners, softLimit, run);
    ListIsByLastListing(maxRunners, softLimit, run, name);
    var s := ManagerOf(p, name).handlers;
    forall h: Hid ensures h in s <==> IsListed(p, h) && p.hs[h].name == name {
      ListedIff(p, name, h);
    }
    if s != [] {
      assert s[0] in s;
    }
  }

  /** Listed are those that are not retired and below their runner limit, but for a handler that a limit of
      one left idle outside the LRU. */
  lemma ListedWhen(p: Pool, h: Hid)
    requires Inv(p) && h < |p.hs|
    ensures
      var r := p.hs[h];
      IsListed(p, h) <==>
        && !r.retired && (p.maxRunners == 0 || r.runners < p.maxRunners)
        && !(p.maxRunners == 1 && r.runners == 0 && h !in p.lru.queue)
  {
    assert HandlerOk(p, h) && ManagerOk(p, p.hs[h].name);
    assert h in p.managers[p.hs[h].name].elements <==> h in p.managers[p.hs[h].name].handlers;
    assert h in p.lru.keys <==> h in p.lru.queue;
  }

  // ----- reclaiming

  ghost predicate NukesOk(p: Pool) {
    forall h :: 0 <= h < |p.hs| ==> (p.hs[h].retired <==> p.hs[h].nuked || h in p.nukes)
  }

  lemma NukesGet(p: Pool, name: string)
    requires Inv(p) && NukesOk(p)
    ensures NukesOk(GetStep(p, name))
  {
    assert |p.hs| !in p.nukes;
    if ManagerOf(p, name).handlers != [] {
      assert ManagerOf(p, name).handlers[0] in ManagerOf(p, name).handlers;
    }
  }

  lemma NukesFinish(p: Pool, k: Hid, u1: nat, u2: nat, ok: bool)
    requires WellFormed(p) && NukesOk(p) && Enabled(p, RunFinish(k, u1, u2, ok))
    ensures NukesOk(RunFinishStep(p, k, u1, u2, ok))
  {
    FinishTouchesOne(p, k, u1, u2, ok);
  }

  lemma NukesOther(p: Pool, st: Step)
    requires WellFormed(p) && NukesOk(p) && Enabled(p, st) && (st.RunStart? || st.TryRemove? || st.CheckSize?)
    ensures NukesOk(Apply(p, st))
  {
  }

  lemma NukesEvict(p: Pool)
    requires WellFormed(p) && NukesOk(p)
    ensures NukesOk(EvictStep(p))
  {
    if p.lru.queue != [] {
      assert p.lru.queue[|p.lru.queue| - 1] in p.lru.queue;
    }
  }

  lemma NukesStep(p: Pool, st: Step)
    requires Inv(p) && NukesOk(p)
    ensures NukesOk(Next(p, st))
  {
    if Enabled(p, st) {
      match st {
        case Get(name) => NukesGet(p, name);
        case RunFinish(k, u1, u2, ok) => NukesFinish(p, k, u1, u2, ok);
        case Evict => NukesEvict(p);
        case Nuke(h) => NukesNuke(p, h);
        case _ => NukesOther(p, st);
      }
    }
  }

  lemma NukesNuke(p: Pool, h: Hid)
    requires Inv(p) && NukesOk(p) && Enabled(p, Nuke(h))
    ensures NukesOk(NukeStep(p, h))
  {
    assert HandlerOk(p, h);
  }

  /** Over any run, whoever is retired is nuked or about to be, and nobody else. */
  lemma {:induction false} RetiredAreNuked(maxRunners: nat, softLimit: int, run: seq<Step>)
    ensures NukesOk(Exec(Initial(maxRunners, softLimit), run))
  {
    if run != [] {
      RetiredAreNuked(maxRunners, softLimit, run[..|run| - 1]);
      InvRun(maxRunners, softLimit, run[..|run| - 1]);
      NukesStep(Exec(Initial(maxRunners, softLimit), run[..|run| - 1]), run[|run| - 1]);
    }
  }

  /** While the LRU is exact, the evictor goes ahead exactly when the idle handlers together use more than
      the soft limit. */
  lemma EvictorStartsIff(p: Pool)
    requires Exact(p) && !p.crashed && !p.evicting
    ensures Enabled(p, CheckSize) <==> UsageSum(p.hs, p.lru.queue) > p.softLimit
    ensures !Enabled(p, Evict)
    ensures WellFormed(p) && Enabled(p, CheckSize) ==> Next(p, CheckSize) == p.(evicting := true)
  {
  }
}
