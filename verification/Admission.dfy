/**
 Admission of sandbox creations under a hard memory limit.

 `RunStart` re-checks the limit in a loop; while it is exceeded the handler queues itself and
 waits on its own one-slot wake channel. A scheduler polls and wakes the head of the queue.
 Each section under `sbCreatingLock`, each channel operation and each return is one step.
 Since `RunStart` holds its handler's mutex throughout, a handler has one program counter. Only a
 handler without a sandbox enters, on behalf of a request that was handed it; a failed request keeps
 counting as its runner.
 */
module Admission {
  import opened Collections

  /** Where the RunStart of a handler is. `Queuing` is before the send to the creation queue,
      `Waiting` between that send and the receive from the wake channel. */
  datatype Pc = Outside | Checking | Queuing | Waiting | Creating

  /** `made` holds the handlers whose wake channel exists, `tokens[h]` counts what is in it. `ready`
      holds the handlers that have a sandbox; of the others, `runners[h]` counts the requests that were
      handed the handler, and `gotten[h]` those of them that have not entered. */
  datatype State = State(
    hardLimit: int,
    capacity: nat,
    pc: seq<Pc>,
    made: set<nat>,
    tokens: seq<nat>,
    queue: seq<nat>,
    creating: int,
    leaked: nat,
    blocked: bool,
    ready: set<nat>,
    maxRunners: nat,
    runners: seq<nat>,
    gotten: seq<nat>)

  /** A creation fails before there is a sandbox, or after. */
  datatype Step =
    | Get(h: nat)
    | Enter(h: nat)
    | Check(h: nat, mem: int, avg: int)
    | Send(h: nat)
    | Receive(h: nat)
    | Created(h: nat)
    | Fail(h: nat, left: bool)
    | Poll(mem: int, avg: int)
    | Handoff(h: nat, mem: int, avg: int)

  function Initial(hardLimit: int, capacity: nat, maxRunners: nat, n: nat): State {
    State(hardLimit, capacity, seq(n, _ => Outside), {}, seq(n, _ => 0), [], 0, 0, false,
          {}, maxRunners, seq(n, _ => 0), seq(n, _ => 0))
  }

  /** The guard of the admission loop. */
  predicate OverLimit(s: State, mem: int, avg: int) {
    s.hardLimit != 0 && mem + (s.creating + 1) * avg > s.hardLimit
  }

  predicate SchedulerMayWake(s: State, mem: int, avg: int) {
    s.hardLimit != 0 && mem + (s.creating + 1) * avg <= s.hardLimit
  }

  predicate At(s: State, h: nat, pc: Pc) {
    h < |s.pc| && s.pc[h] == pc
  }

  predicate Shaped(s: State) {
    |s.tokens| == |s.runners| == |s.gotten| == |s.pc| && forall h :: h in s.queue ==> h < |s.pc|
  }

  /** The scheduler sends while it holds the lock: on a channel that does not exist, or that is
      full, it would stay there for good. */
  function Wake(s: State, h: nat): State
    requires Shaped(s) && h < |s.pc|
  {
    if h !in s.made || s.tokens[h] >= 1 then s.(blocked := true)
    else s.(tokens := s.tokens[h := s.tokens[h] + 1])
  }

  predicate HasRoom(s: State, h: nat) {
    h < |s.runners| && (s.maxRunners == 0 || s.runners[h] < s.maxRunners)
  }

  predicate Enabled(s: State, st: Step) {
    !s.blocked &&
    match st
    case Get(h) => h < |s.pc| && h !in s.ready && HasRoom(s, h)
    case Enter(h) => At(s, h, Outside) && h !in s.ready && h < |s.gotten| && s.gotten[h] > 0
    case Check(h, _, _) => At(s, h, Checking)
    case Send(h) => At(s, h, Queuing) && |s.queue| < s.capacity
    case Receive(h) => At(s, h, Waiting) && h < |s.tokens| && s.tokens[h] > 0
    case Created(h) => At(s, h, Creating)
    case Fail(h, _) => At(s, h, Creating)
    case Poll(_, _) => true
    case Handoff(h, mem, avg) => At(s, h, Queuing) && s.capacity == 0 && SchedulerMayWake(s, mem, avg)
  }

  function Apply(s: State, st: Step): State
    requires Shaped(s) && Enabled(s, st)
  {
    match st
    case Get(h) => s.(runners := s.runners[h := s.runners[h] + 1], gotten := s.gotten[h := s.gotten[h] + 1])
    case Enter(h) => s.(pc := s.pc[h := Checking], gotten := s.gotten[h := s.gotten[h] - 1])
    case Check(h, mem, avg) =>
      if OverLimit(s, mem, avg) then s.(pc := s.pc[h := Queuing], made := s.made + {h})
      else s.(pc := s.pc[h := Creating], creating := s.creating + 1)
    case Send(h) => s.(pc := s.pc[h := Waiting], queue := s.queue + [h])
    case Receive(h) => s.(pc := s.pc[h := Checking], tokens := s.tokens[h := s.tokens[h] - 1])
    case Created(h) => s.(pc := s.pc[h := Outside], creating := s.creating - 1, ready := s.ready + {h})
    case Fail(h, left) =>
      s.(pc := s.pc[h := Outside], leaked := s.leaked + 1, ready := if left then s.ready + {h} else s.ready)
    case Poll(mem, avg) =>
      if SchedulerMayWake(s, mem, avg) && s.queue != [] then
        assert s.queue[0] in s.queue;
        assert forall h :: h in s.queue[1..] ==> h in s.queue;
        Wake(s.(queue := s.queue[1..]), s.queue[0])
      else s
    case Handoff(h, _, _) => Wake(s.(pc := s.pc[h := Waiting]), h)
  }

  function Next(s: State, st: Step): (t: State)
    requires Shaped(s)
    ensures Shaped(t)
  {
    if Enabled(s, st) then
      assert forall k :: 0 <= k < |s.queue| ==> s.queue[k] in s.queue;
      Apply(s, st)
    else s
  }

  function Exec(s: State, run: seq<Step>): (t: State)
    requires Shaped(s)
    ensures Shaped(t)
  {
    if run == [] then s else Next(Exec(s, run[..|run| - 1]), run[|run| - 1])
  }

  // ----- the invariant

  /** In the queue or in the channel: once while the handler waits, and nowhere otherwise. */
  predicate TokenOk(s: State, h: nat)
    requires Shaped(s) && h < |s.pc|
  {
    && Count(s.queue, h) + s.tokens[h] == (if s.pc[h] == Waiting then 1 else 0)
    && (s.pc[h] == Waiting || s.pc[h] == Queuing ==> h in s.made)
  }

  ghost predicate Inv(s: State) {
    && Shaped(s)
    && (forall h: nat :: h < |s.pc| ==> TokenOk(s, h))
    && s.creating == Count(s.pc, Creating) + s.leaked
    && |s.queue| <= s.capacity
    && (s.hardLimit == 0 ==> forall h :: 0 <= h < |s.pc| ==> s.pc[h] != Queuing && s.pc[h] != Waiting)
    && !s.blocked
    && (forall h :: h in s.ready ==> At(s, h, Outside))
  }

  lemma {:induction false} CountUpdate(s: seq<Pc>, i: nat, x: Pc, y: Pc)
    requires i < |s|
    ensures Count(s[i := x], y)
         == Count(s, y) - (if s[i] == y then 1 else 0) + (if x == y then 1 else 0)
  {
    if i > 0 {
      assert s[i := x][1..] == s[1..][i - 1 := x];
      CountUpdate(s[1..], i - 1, x, y);
    } else {
      assert s[i := x][1..] == s[1..];
    }
  }

  lemma {:induction false} CountAbsent(s: seq<Pc>, y: Pc)
    requires forall i :: 0 <= i < |s| ==> s[i] != y
    ensures Count(s, y) == 0
  {
    if s != [] {
      CountAbsent(s[1..], y);
    }
  }

  lemma CountBack(q: seq<nat>, h: nat, k: nat)
    ensures Count(q + [h], k) == Count(q, k) + (if h == k then 1 else 0)
  {
    CountConcat(q, [h], k);
    assert Count([h], k) == (if h == k then 1 else 0) + Count([h][1..], k);
  }

  lemma InvMove(s: State, t: State, h: nat)
    requires Inv(s) && Shaped(t) && h < |s.pc| == |t.pc| && t.pc == s.pc[h := t.pc[h]]
    requires t.hardLimit == s.hardLimit && t.capacity == s.capacity && !t.blocked
    requires |t.queue| <= t.capacity && s.made <= t.made
    requires forall k: nat :: k < |s.pc| && k != h ==> Count(t.queue, k) + t.tokens[k] == Count(s.queue, k) + s.tokens[k]
    requires TokenOk(t, h)
    requires t.creating - t.leaked == s.creating - s.leaked
               - (if s.pc[h] == Creating then 1 else 0) + (if t.pc[h] == Creating then 1 else 0)
    requires s.hardLimit == 0 ==> t.pc[h] != Queuing && t.pc[h] != Waiting
    requires t.ready <= s.ready + {h} && (h in t.ready ==> t.pc[h] == Outside)
    ensures Inv(t)
  {
    CountUpdate(s.pc, h, t.pc[h], Creating);
    forall k: nat | k < |t.pc| ensures TokenOk(t, k) {
      assert TokenOk(s, k);
    }
  }

  lemma InvPoll(s: State, mem: int, avg: int)
    requires Inv(s) && SchedulerMayWake(s, mem, avg) && s.queue != []
    ensures Inv(Next(s, Poll(mem, avg)))
  {
    var h := s.queue[0];
    assert h in s.queue;
    CountPositive(s.queue, h);
    assert TokenOk(s, h);
    var t := Next(s, Poll(mem, avg));
    assert t.pc == s.pc[h := t.pc[h]];
    InvMove(s, t, h);
  }

  lemma InvCheck(s: State, h: nat, mem: int, avg: int)
    requires Inv(s) && At(s, h, Checking)
    ensures Inv(Next(s, Check(h, mem, avg)))
  {
    assert TokenOk(s, h);
    InvMove(s, Next(s, Check(h, mem, avg)), h);
  }

  lemma InvSend(s: State, h: nat)
    requires Inv(s) && Enabled(s, Send(h))
    ensures Inv(Next(s, Send(h)))
  {
    assert TokenOk(s, h);
    forall k: nat | k < |s.pc| ensures Count(s.queue + [h], k) == Count(s.queue, k) + (if h == k then 1 else 0) {
      CountBack(s.queue, h, k);
    }
    InvMove(s, Next(s, Send(h)), h);
  }

  lemma InvReceive(s: State, h: nat)
    requires Inv(s) && Enabled(s, Receive(h))
    ensures Inv(Next(s, Receive(h)))
  {
    assert TokenOk(s, h);
    InvMove(s, Next(s, Receive(h)), h);
  }

  lemma InvHandoff(s: State, h: nat, mem: int, avg: int)
    requires Inv(s) && Enabled(s, Handoff(h, mem, avg))
    ensures Inv(Next(s, Handoff(h, mem, avg)))
  {
    assert TokenOk(s, h);
    InvMove(s, Next(s, Handoff(h, mem, avg)), h);
  }

  lemma InvStep(s: State, st: Step)
    requires Inv(s)
    ensures Inv(Next(s, st))
  {
    if Enabled(s, st) {
      match st {
        case Get(h) => assert TokenOk(s, h); InvMove(s, Next(s, st), h);
        case Enter(h) => assert TokenOk(s, h); InvMove(s, Next(s, st), h);
        case Check(h, mem, avg) => InvCheck(s, h, mem, avg);
        case Send(h) => InvSend(s, h);
        case Receive(h) => InvReceive(s, h);
        case Created(h) => assert TokenOk(s, h); InvMove(s, Next(s, st), h);
        case Fail(h, _) => assert TokenOk(s, h); InvMove(s, Next(s, st), h);
        case Poll(mem, avg) =>
          if SchedulerMayWake(s, mem, avg) && s.queue != [] {
            InvPoll(s, mem, avg);
          }
        case Handoff(h, mem, avg) => InvHandoff(s, h, mem, avg);
      }
    }
  }

  lemma {:induction false} InvRun(hardLimit: int, capacity: nat, maxRunners: nat, n: nat, run: seq<Step>)
    ensures Inv(Exec(Initial(hardLimit, capacity, maxRunners, n), run))
  {
    var s := Initial(hardLimit, capacity, maxRunners, n);
    if run == [] {
      CountAbsent(s.pc, Creating);
    } else {
      InvRun(hardLimit, capacity, maxRunners, n, run[..|run| - 1]);
      InvStep(Exec(s, run[..|run| - 1]), run[|run| - 1]);
    }
  }

  ghost predicate Reachable(s: State) {
    exists hardLimit: int, capacity: nat, maxRunners: nat, n: nat, run: seq<Step> ::
      s == Exec(Initial(hardLimit, capacity, maxRunners, n), run)
  }

  lemma ReachableInv(s: State)
    requires Reachable(s)
    ensures Inv(s)
  {
    var hardLimit: int, capacity: nat, maxRunners: nat, n: nat, run: seq<Step> :| s == Exec(Initial(hardLimit, capacity, maxRunners, n), run);
    InvRun(hardLimit, capacity, maxRunners, n, run);
  }

  /** In every interleaving: a handler is in the queue or has a token, once, exactly while it
      waits. So no wakeup is lost or doubled, and the queue holds nobody twice. */
  lemma OneTokenPerWaiter(s: State, h: nat)
    requires Reachable(s) && Shaped(s) && h < |s.pc|
    ensures s.pc[h] == Waiting <==> h in s.queue || s.tokens[h] > 0
    ensures s.tokens[h] <= 1 && Count(s.queue, h) <= 1
    ensures !(h in s.queue && s.tokens[h] > 0)
  {
    ReachableInv(s);
    assert TokenOk(s, h);
    CountPositive(s.queue, h);
  }

  /** The scheduler never blocks on a wake channel while it holds the lock: the channel of whoever
      heads the queue exists and is empty. */
  lemma SchedulerNeverBlocks(s: State)
    requires Reachable(s)
    ensures !s.blocked
    ensures s.queue != [] ==>
      var h := s.queue[0];
      h < |s.pc| && h < |s.tokens| && h in s.made && s.tokens[h] == 0
  {
    ReachableInv(s);
    if s.queue != [] {
      var h := s.queue[0];
      assert h in s.queue;
      assert TokenOk(s, h);
      CountPositive(s.queue, h);
    }
  }

  /** `numSbCreating` counts the creations in progress and, for good, those that left by an error
      return; it is never negative. */
  lemma CreatingCount(s: State)
    requires Reachable(s)
    ensures s.creating == Count(s.pc, Creating) + s.leaked
  {
    ReachableInv(s);
  }

  /** A check admits its creation exactly when there is no limit, or the memory in use and the average usage
      of all creations in progress, of those that left by an error return and of this one fit the limit;
      otherwise it sends its handler to the queue. */
  lemma CheckAdmitsIff(s: State, h: nat, mem: int, avg: int)
    requires Reachable(s) && At(s, h, Checking)
    ensures
      var t := Next(s, Check(h, mem, avg));
      var admits := s.hardLimit == 0 || mem + (Count(s.pc, Creating) + s.leaked + 1) * avg <= s.hardLimit;
      && t.pc == s.pc[h := if admits then Creating else Queuing]
      && Count(t.pc, Creating) == Count(s.pc, Creating) + (if admits then 1 else 0)
      && t.queue == s.queue && t.tokens == s.tokens && t.leaked == s.leaked && t.ready == s.ready
  {
    CreatingCount(s);
    SchedulerNeverBlocks(s);
    CheckMoves(s, h, mem, avg, Count(s.pc, Creating) + s.leaked + 1);
    CountUpdate(s.pc, h, Next(s, Check(h, mem, avg)).pc[h], Creating);
  }

  lemma CheckMoves(s: State, h: nat, mem: int, avg: int, n: int)
    requires Shaped(s) && !s.blocked && At(s, h, Checking) && n == s.creating + 1
    ensures
      var t := Next(s, Check(h, mem, avg));
      && t.pc == s.pc[h := if s.hardLimit == 0 || mem + n * avg <= s.hardLimit then Creating else Queuing]
      && t.queue == s.queue && t.tokens == s.tokens && t.leaked == s.leaked && t.ready == s.ready
  {
  }

  /** Whether, under a limit, the memory in use and the average usage of the creations in progress, of the
      leaked ones and of one more fit it. */
  predicate Fits(s: State, mem: int, avg: int) {
    s.hardLimit != 0 && mem + (Count(s.pc, Creating) + s.leaked + 1) * avg <= s.hardLimit
  }

  /** Where a handler goes. It is admitted only by a check of its own, which it makes on entering and again
      each time that it has used up its token. It waits behind those in the queue, or, when the queue has no
      slots, after the scheduler has taken it over. A creation gives up its place unless it leaks. */
  lemma HandlerMoves(s: State, st: Step, h: nat)
    requires Reachable(s) && h < |s.pc| && h < |Next(s, st).pc| && Next(s, st).pc[h] != s.pc[h]
    ensures
      var t := Next(s, st);
      h < |s.tokens| == |t.tokens| &&
      match s.pc[h]
      case Outside => t.pc[h] == Checking && h !in s.ready
      case Checking =>
        st.Check? && t.pc[h] == if s.hardLimit == 0 || Fits(s, st.mem, st.avg) then Creating else Queuing
      case Queuing =>
        && t.pc[h] == Waiting
        && if s.capacity > 0 then |s.queue| < s.capacity && t.queue == s.queue + [h]
           else st.Handoff? && Fits(s, st.mem, st.avg) && t.tokens[h] == 1
      case Waiting => t.pc[h] == Checking && s.tokens[h] == 1 && t.tokens[h] == 0
      case Creating =>
        && t.pc[h] == Outside && t.creating == s.creating - (if st.Fail? then 0 else 1)
        && t.leaked == s.leaked + (if st.Fail? then 1 else 0)
  {
    SchedulerNeverBlocks(s);
    ReachableInv(s);
    PcMoves(s, st, h);
    match s.pc[h] {
      case Checking => CheckAdmitsIff(s, h, st.mem, st.avg);
      case Queuing => QueuingMoves(s, st, h);
      case Waiting => OneTokenPerWaiter(s, h);
      case _ =>
    }
  }

  lemma PcMoves(s: State, st: Step, h: nat)
    requires Shaped(s) && !s.blocked && h < |s.pc|
    ensures
      var t := Next(s, st);
      && |t.pc| == |s.pc| == |t.tokens|
      && (t.pc[h] != s.pc[h] ==>
            && !st.Poll? && !st.Get? && st.h == h && Enabled(s, st)
            && (s.pc[h] == Outside <==> st.Enter?) && (s.pc[h] == Checking <==> st.Check?)
            && (s.pc[h] == Waiting <==> st.Receive?))
  {
  }

  lemma QueuingMoves(s: State, st: Step, h: nat)
    requires Inv(s) && At(s, h, Queuing) && Enabled(s, st) && (st.Send? || st.Handoff?) && st.h == h
    ensures
      var t := Next(s, st);
      && t.pc == s.pc[h := Waiting]
      && if s.capacity > 0 then |s.queue| < s.capacity && t.queue == s.queue + [h]
         else st.Handoff? && Fits(s, st.mem, st.avg) && h < |t.tokens| && t.tokens[h] == 1
  {
    assert TokenOk(s, h);
    if st.Handoff? {
      FitsIff(s, st.mem, st.avg, Count(s.pc, Creating) + s.leaked + 1);
    }
  }

  lemma FitsIff(s: State, mem: int, avg: int, n: int)
    requires n == s.creating + 1
    ensures SchedulerMayWake(s, mem, avg) <==> s.hardLimit != 0 && mem + n * avg <= s.hardLimit
  {
  }

  /** A poll wakes exactly the head of the queue, and only when somebody waits and, under a limit, one more
      creation fits it; otherwise it changes nothing. */
  lemma PollWakesIff(s: State, mem: int, avg: int)
    requires Reachable(s)
    ensures
      var t := Next(s, Poll(mem, avg));
      var fits := s.hardLimit != 0 && mem + (Count(s.pc, Creating) + s.leaked + 1) * avg <= s.hardLimit;
      if s.queue != [] && fits then
        var h := s.queue[0];
        && h < |s.tokens| && s.tokens[h] == 0
        && t == s.(queue := s.queue[1..], tokens := s.tokens[h := 1])
        && h < |t.tokens| && Enabled(t, Receive(h))
      else t == s
  {
    ReachableInv(s);
    SchedulerNeverBlocks(s);
    if s.queue != [] {
      assert s.queue[0] in s.queue;
      assert TokenOk(s, s.queue[0]);
      CountPositive(s.queue, s.queue[0]);
    }
  }

  // ----- what a run makes of each handler

  /** How many steps of a run are of a kind. */
  ghost function Steps(s: State, run: seq<Step>, kind: (State, Step) -> bool): nat
    requires Shaped(s)
  {
    if run == [] then 0
    else
      var init := run[..|run| - 1];
      Steps(s, init, kind) + (if kind(Exec(s, init), run[|run| - 1]) then 1 else 0)
  }

  function Fails(): (State, Step) -> bool {
    (s: State, st: Step) => st.Fail? && Enabled(s, st)
  }

  /** Each error return leaks one creation, and nothing else does. */
  lemma {:induction false} LeakedAreFailures(hardLimit: int, capacity: nat, maxRunners: nat, n: nat, run: seq<Step>)
    ensures
      var s := Initial(hardLimit, capacity, maxRunners, n);
      Exec(s, run).leaked == Steps(s, run, Fails())
  {
    if run != [] {
      LeakedAreFailures(hardLimit, capacity, maxRunners, n, run[..|run| - 1]);
    }
  }

  function Gets(h: nat): (State, Step) -> bool {
    (s: State, st: Step) => st == Get(h) && Enabled(s, st)
  }

  function Enters(h: nat): (State, Step) -> bool {
    (s: State, st: Step) => st == Enter(h) && Enabled(s, st)
  }

  /** A handler without a sandbox has as many runners as requests were handed it, at most the limit on
      runners, and as many of those are still to enter as have not entered. */
  lemma {:induction false} RunnersAreGets(hardLimit: int, capacity: nat, maxRunners: nat, n: nat, run: seq<Step>, h: nat)
    requires h < n
    ensures
      var s := Initial(hardLimit, capacity, maxRunners, n);
      var t := Exec(s, run);
      && h < |t.runners| == |t.gotten|
      && t.runners[h] == Steps(s, run, Gets(h))
      && t.gotten[h] == Steps(s, run, Gets(h)) - Steps(s, run, Enters(h))
      && t.maxRunners == maxRunners && (maxRunners != 0 ==> t.runners[h] <= maxRunners)
  {
    var s := Initial(hardLimit, capacity, maxRunners, n);
    if run != [] {
      RunnersAreGets(hardLimit, capacity, maxRunners, n, run[..|run| - 1], h);
      RunnersStep(Exec(s, run[..|run| - 1]), run[|run| - 1], h);
    }
  }

  lemma RunnersStep(s: State, st: Step, h: nat)
    requires Shaped(s) && h < |s.pc| && (s.maxRunners != 0 ==> s.runners[h] <= s.maxRunners)
    ensures
      var t := Next(s, st);
      && |t.pc| == |s.pc| && t.maxRunners == s.maxRunners
      && t.runners[h] == s.runners[h] + (if Gets(h)(s, st) then 1 else 0)
      && t.gotten[h] == s.gotten[h] + (if Gets(h)(s, st) then 1 else 0) - (if Enters(h)(s, st) then 1 else 0)
      && (t.maxRunners != 0 ==> t.runners[h] <= t.maxRunners)
  {
  }

  /** A handler without a sandbox can be handed out exactly when it is below the limit on runners. */
  lemma HandedOutIff(s: State, h: nat)
    requires Reachable(s) && h < |s.pc| && h !in s.ready
    ensures Enabled(s, Get(h)) <==> h < |s.runners| && (s.maxRunners == 0 || s.runners[h] < s.maxRunners)
  {
    ReachableInv(s);
  }

  /** The handler gets its sandbox, from a creation that succeeds or fails late. */
  predicate GivesSandbox(s: State, st: Step, h: nat) {
    Enabled(s, st) && (st == Created(h) || st == Fail(h, true))
  }

  ghost predicate SomeGivesSandbox(s: State, run: seq<Step>, h: nat)
    requires Shaped(s)
  {
    run != [] &&
    var init := run[..|run| - 1];
    SomeGivesSandbox(s, init, h) || GivesSandbox(Exec(s, init), run[|run| - 1], h)
  }

  lemma {:induction false} ReadyIff(hardLimit: int, capacity: nat, maxRunners: nat, n: nat, run: seq<Step>, h: nat)
    ensures
      var s := Initial(hardLimit, capacity, maxRunners, n);
      h in Exec(s, run).ready <==> SomeGivesSandbox(s, run, h)
  {
    if run != [] {
      ReadyIff(hardLimit, capacity, maxRunners, n, run[..|run| - 1], h);
    }
  }

  /** When the handler last joined the queue: the number of steps up to that. */
  ghost function Joined(s: State, run: seq<Step>, h: nat): nat
    requires Shaped(s)
  {
    if run == [] then 0
    else
      var init := run[..|run| - 1];
      if run[|run| - 1] == Send(h) && Enabled(Exec(s, init), Send(h)) then |run| else Joined(s, init, h)
  }

  lemma {:induction false} JoinedBefore(s: State, run: seq<Step>, h: nat)
    requires Shaped(s)
    ensures Joined(s, run, h) <= |run|
  {
    if run != [] {
      JoinedBefore(s, run[..|run| - 1], h);
    }
  }

  ghost predicate FirstComeFirst(s: State, run: seq<Step>)
    requires Shaped(s)
  {
    var q := Exec(s, run).queue;
    forall i, j :: 0 <= i < j < |q| ==> Joined(s, run, q[i]) < Joined(s, run, q[j])
  }

  /** What a step does to the queue: one handler joins at the end, or the first leaves, or nothing. */
  lemma QueueStep(s: State, st: Step)
    requires Inv(s)
    ensures
      var t := Next(s, st);
      if st.Send? && Enabled(s, st) then t.queue == s.queue + [st.h] && st.h !in s.queue
      else t.queue == s.queue || (s.queue != [] && t.queue == s.queue[1..])
  {
    if st.Send? && Enabled(s, st) {
      assert TokenOk(s, st.h);
      CountPositive(s.queue, st.h);
    }
  }

  /** Who waits longest is woken first: the queue is in the order in which its handlers joined it. */
  lemma {:induction false} QueueIsFair(hardLimit: int, capacity: nat, maxRunners: nat, n: nat, run: seq<Step>)
    ensures FirstComeFirst(Initial(hardLimit, capacity, maxRunners, n), run)
  {
    if run != [] {
      var s := Initial(hardLimit, capacity, maxRunners, n);
      var init := run[..|run| - 1];
      QueueIsFair(hardLimit, capacity, maxRunners, n, init);
      InvRun(hardLimit, capacity, maxRunners, n, init);
      QueueStep(Exec(s, init), run[|run| - 1]);
      forall h: nat ensures Joined(s, init, h) < |run| {
        JoinedBefore(s, init, h);
      }
    }
  }

  // ----- when a creation can be admitted again

  lemma {:induction false} LeakedOnlyGrows(s: State, run: seq<Step>)
    requires Inv(s)
    ensures Inv(Exec(s, run)) && Exec(s, run).leaked >= s.leaked && Exec(s, run).hardLimit == s.hardLimit
  {
    if run != [] {
      LeakedOnlyGrows(s, run[..|run| - 1]);
      InvStep(Exec(s, run[..|run| - 1]), run[|run| - 1]);
    }
  }

  lemma Monotone(a: int, b: int, c: nat)
    requires a <= b
    ensures a * c <= b * c
  {
  }

  /** The handler has its sandbox, or no request holds it or can be handed it that would enter. */
  predicate NeverChecked(s: State, h: nat)
    requires Shaped(s) && h < |s.pc|
  {
    || h in s.ready
    || ((s.pc[h] == Outside || s.pc[h] == Creating) && s.gotten[h] == 0 && !HasRoom(s, h))
  }

  /** The creations that left by an error return fill the limit on their own. A handler that is creating
      checks again only after its creation failed too. */
  predicate LeaksFill(s: State, h: nat, avg: nat) {
    s.hardLimit != 0 && (s.leaked + (if At(s, h, Creating) then 2 else 1)) * avg > s.hardLimit
  }

  /** Whatever happens next, each check of the handler sends it to the queue. */
  ghost predicate Starved(s: State, h: nat, avg: nat)
    requires Shaped(s)
  {
    forall run: seq<Step>, mem: nat ::
      At(Exec(s, run), h, Checking) ==> At(Next(Exec(s, run), Check(h, mem, avg)), h, Queuing)
  }

  lemma NeverCheckedStep(s: State, st: Step, h: nat)
    requires Shaped(s) && h < |s.pc| && NeverChecked(s, h) && (h in s.ready ==> At(s, h, Outside))
    ensures
      var t := Next(s, st);
      |t.pc| == |s.pc| && NeverChecked(t, h) && t.pc[h] != Checking
  {
    if Enabled(s, st) && st.Poll? && s.queue != [] {
      assert s.queue[0] in s.queue;
    }
  }

  lemma {:induction false} NeverCheckedStays(s: State, run: seq<Step>, h: nat)
    requires Inv(s) && h < |s.pc| && NeverChecked(s, h)
    ensures
      var t := Exec(s, run);
      Inv(t) && |t.pc| == |s.pc| && NeverChecked(t, h) && t.pc[h] != Checking
  {
    if run == [] {
      assert h in s.ready ==> At(s, h, Outside);
    } else {
      var t := Exec(s, run[..|run| - 1]);
      NeverCheckedStays(s, run[..|run| - 1], h);
      InvStep(t, run[|run| - 1]);
      assert h in t.ready ==> At(t, h, Outside);
      NeverCheckedStep(t, run[|run| - 1], h);
    }
  }

  /** When a handler that is creating has left that, either its failure has leaked or it has a sandbox. */
  lemma {:induction false} CreatingLeaks(s: State, run: seq<Step>, h: nat)
    requires Inv(s) && At(s, h, Creating)
    ensures
      var t := Exec(s, run);
      && Inv(t) && |t.pc| == |s.pc| && t.leaked >= s.leaked && t.hardLimit == s.hardLimit
      && (At(t, h, Creating) || t.leaked >= s.leaked + 1 || h in t.ready)
  {
    if run != [] {
      CreatingLeaks(s, run[..|run| - 1], h);
      InvStep(Exec(s, run[..|run| - 1]), run[|run| - 1]);
    }
  }

  lemma OverLimitQueues(s: State, leaked: nat, h: nat, mem: nat, avg: nat)
    requires Inv(s) && s.leaked >= leaked && s.hardLimit != 0 && (leaked + 1) * avg > s.hardLimit
    ensures At(s, h, Checking) ==> At(Next(s, Check(h, mem, avg)), h, Queuing)
  {
    Monotone(leaked + 1, s.creating + 1, avg);
  }

  lemma LeaksStarve(s: State, run: seq<Step>, h: nat, mem: nat, avg: nat)
    requires Inv(s) && LeaksFill(s, h, avg)
    ensures At(Exec(s, run), h, Checking) ==> At(Next(Exec(s, run), Check(h, mem, avg)), h, Queuing)
  {
    var t := Exec(s, run);
    LeakedOnlyGrows(s, run);
    if At(s, h, Creating) {
      CreatingLeaks(s, run, h);
      assert h in t.ready ==> At(t, h, Outside);
      if At(t, h, Checking) {
        OverLimitQueues(t, s.leaked + 1, h, mem, avg);
      }
    } else {
      OverLimitQueues(t, s.leaked, h, mem, avg);
    }
  }

  lemma {:induction false} ExecConcat(s: State, a: seq<Step>, b: seq<Step>)
    requires Shaped(s)
    ensures Exec(s, a + b) == Exec(Exec(s, a), b)
  {
    if b == [] {
      assert a + b == a;
    } else {
      ExecConcat(s, a, b[..|b| - 1]);
      assert (a + b)[..|a + b| - 1] == a + b[..|b| - 1];
    }
  }

  lemma Then(s: State, st: Step, rest: seq<Step>)
    requires Shaped(s)
    ensures Exec(s, [st] + rest) == Exec(Next(s, st), rest)
  {
    ExecConcat(s, [st], rest);
    assert [st][..0] == [];
    assert Exec(s, []) == s;
  }

  /** The handler can still get to its check. */
  ghost predicate CanCheck(s: State, h: nat) {
    && Inv(s) && h < |s.pc| && h !in s.ready && s.pc[h] != Creating
    && (s.pc[h] == Outside ==> s.gotten[h] > 0 || HasRoom(s, h))
  }

  /** `t` follows `s` without a further leak. */
  ghost predicate Follows(s: State, t: State, h: nat) {
    CanCheck(t, h) && t.leaked == s.leaked && t.hardLimit == s.hardLimit
  }

  /** All creations in progress come to their end. */
  lemma {:induction false} CreationsEnd(s: State, h: nat) returns (run: seq<Step>)
    requires CanCheck(s, h)
    ensures Follows(s, Exec(s, run), h) && Exec(s, run).creating == s.leaked
    decreases Count(s.pc, Creating)
  {
    if Count(s.pc, Creating) == 0 {
      run := [];
    } else {
      CountPositive(s.pc, Creating);
      var k: nat :| k < |s.pc| && s.pc[k] == Creating;
      InvStep(s, Created(k));
      CountUpdate(s.pc, k, Outside, Creating);
      var rest := CreationsEnd(Next(s, Created(k)), h);
      run := [Created(k)] + rest;
      Then(s, Created(k), rest);
    }
  }

  /** No creation is in progress, and the scheduler may wake somebody if memory is free. */
  ghost predicate Free(s: State, h: nat, avg: nat) {
    CanCheck(s, h) && s.creating == s.leaked && !LeaksFill(s, h, avg)
  }

  /** How far the handler is from its check: the queue in front of it counts. */
  function Distance(s: State, h: nat): nat
    requires Shaped(s) && h < |s.pc|
  {
    match s.pc[h]
    case Checking => 0
    case Outside => if s.gotten[h] > 0 then 1 else 2
    case Creating => 3
    case Waiting => if s.tokens[h] > 0 then 1 else 2 + |s.queue|
    case Queuing => 4 + 2 * |s.queue|
  }

  /** The next step on the way of a handler to its check. */
  function Towards(s: State, h: nat, avg: nat): Step
    requires Shaped(s) && h < |s.pc|
  {
    match s.pc[h]
    case Outside => if s.gotten[h] > 0 then Enter(h) else Get(h)
    case Waiting => if s.tokens[h] > 0 then Receive(h) else Poll(0, avg)
    case Queuing => if |s.queue| < s.capacity then Send(h) else if s.capacity == 0 then Handoff(h, 0, avg) else Poll(0, avg)
    case _ => Check(h, 0, avg)
  }

  lemma TowardsWakes(s: State, h: nat, avg: nat)
    requires Free(s, h, avg) && Towards(s, h, avg).Poll?
    ensures
      var t := Next(s, Poll(0, avg));
      t.pc[h] == s.pc[h] && Distance(t, h) < Distance(s, h)
  {
    assert TokenOk(s, h);
    CountPositive(s.queue, h);
    assert s.queue != [];
    var k := s.queue[0];
    assert k in s.queue;
    assert TokenOk(s, k);
    CountPositive(s.queue, k);
  }

  lemma TowardsSteps(s: State, h: nat, avg: nat)
    requires Free(s, h, avg) && s.pc[h] != Checking
    ensures Enabled(s, Towards(s, h, avg)) && Distance(Next(s, Towards(s, h, avg)), h) < Distance(s, h)
  {
    assert TokenOk(s, h);
    if Towards(s, h, avg).Poll? {
      TowardsWakes(s, h, avg);
    }
  }

  lemma FreeStep(s: State, h: nat, avg: nat)
    requires Free(s, h, avg) && s.pc[h] != Checking
    ensures
      var t := Next(s, Towards(s, h, avg));
      Free(t, h, avg) && Follows(s, t, h)
  {
    InvStep(s, Towards(s, h, avg));
    TowardsSteps(s, h, avg);
  }

  /** A handler without a sandbox gets to its check. */
  lemma {:induction false} CheckIsReached(s: State, h: nat, avg: nat) returns (run: seq<Step>)
    requires Free(s, h, avg)
    ensures Free(Exec(s, run), h, avg) && At(Exec(s, run), h, Checking)
    decreases Distance(s, h)
  {
    if s.pc[h] == Checking {
      run := [];
    } else {
      var st := Towards(s, h, avg);
      TowardsSteps(s, h, avg);
      FreeStep(s, h, avg);
      var rest := CheckIsReached(Next(s, st), h, avg);
      run := [st] + rest;
      Then(s, st, rest);
    }
  }

  lemma CheckAdmits(s: State, h: nat, avg: nat)
    requires Free(s, h, avg) && At(s, h, Checking)
    ensures At(Next(s, Check(h, 0, avg)), h, Creating)
  {
  }

  lemma StillRoom(s: State, t: State, h: nat, avg: nat)
    requires Follows(s, t, h) && t.creating == t.leaked && !At(s, h, Creating) && !LeaksFill(s, h, avg)
    ensures Free(t, h, avg)
  {
  }

  lemma CheckIsAdmitted(s: State, h: nat, avg: nat) returns (run: seq<Step>)
    requires CanCheck(s, h) && !LeaksFill(s, h, avg)
    ensures At(Exec(s, run), h, Checking) && At(Next(Exec(s, run), Check(h, 0, avg)), h, Creating)
  {
    var first := CreationsEnd(s, h);
    var t := Exec(s, first);
    StillRoom(s, t, h, avg);
    var rest := CheckIsReached(t, h, avg);
    CheckAdmits(Exec(t, rest), h, avg);
    run := first + rest;
    ExecConcat(s, first, rest);
  }

  lemma CreationIsAdmitted(s: State, h: nat, avg: nat) returns (run: seq<Step>)
    requires Inv(s) && h < |s.pc| && !NeverChecked(s, h) && !LeaksFill(s, h, avg)
    ensures At(Exec(s, run), h, Checking) && At(Next(Exec(s, run), Check(h, 0, avg)), h, Creating)
  {
    if s.pc[h] == Creating {
      InvStep(s, Fail(h, false));
      var rest := CheckIsAdmitted(Next(s, Fail(h, false)), h, avg);
      run := [Fail(h, false)] + rest;
      Then(s, Fail(h, false), rest);
    } else {
      run := CheckIsAdmitted(s, h, avg);
    }
  }

  /** In every reachable state, for every handler: it is never admitted again if and only if it is never
      checked again or the leaked creations fill the limit at the given average usage. */
  lemma StarvedIff(s: State, h: nat, avg: nat)
    requires Reachable(s) && Shaped(s) && h < |s.pc|
    ensures Starved(s, h, avg) <==> NeverChecked(s, h) || LeaksFill(s, h, avg)
  {
    ReachableInv(s);
    if NeverChecked(s, h) || LeaksFill(s, h, avg) {
      forall run: seq<Step>, mem: nat
        ensures At(Exec(s, run), h, Checking) ==> At(Next(Exec(s, run), Check(h, mem, avg)), h, Queuing)
      {
        if NeverChecked(s, h) {
          NeverCheckedStays(s, run, h);
        } else {
          LeaksStarve(s, run, h, mem, avg);
        }
      }
    } else {
      var run := CreationIsAdmitted(s, h, avg);
      assert !At(Next(Exec(s, run), Check(h, 0, avg)), h, Queuing);
    }
  }

  /** `k` creations have failed, and the handlers from `k` on were not used. */
  ghost predicate Failed(s: State, k: nat) {
    && Inv(s) && s.creating == s.leaked == k <= |s.pc| && s.ready == {}
    && forall h :: k <= h < |s.pc| ==> s.pc[h] == Outside && s.runners[h] == 0 && s.gotten[h] == 0
  }

  /** The handler has entered, with the rest as it was. */
  lemma OneMoreEnters(s: State, k: nat) returns (t: State)
    requires Failed(s, k) && k < |s.pc|
    ensures
      && t == Next(Next(s, Get(k)), Enter(k)) && Inv(t) && At(t, k, Checking)
      && t.pc == s.pc[k := Checking] && t.creating == t.leaked == k && t.ready == {}
      && t.hardLimit == s.hardLimit && t.maxRunners == s.maxRunners
      && forall h :: k < h < |t.pc| ==> t.runners[h] == 0 && t.gotten[h] == 0
  {
    InvStep(s, Get(k));
    InvStep(Next(s, Get(k)), Enter(k));
    t := Next(Next(s, Get(k)), Enter(k));
  }

  lemma OneMoreFails(s: State, k: nat, avg: nat) returns (run: seq<Step>)
    requires Failed(s, k) && k < |s.pc| && s.hardLimit != 0 && (k + 1) * avg <= s.hardLimit
    ensures
      var t := Exec(s, run);
      Failed(t, k + 1) && |t.pc| == |s.pc| && t.hardLimit == s.hardLimit && t.maxRunners == s.maxRunners
  {
    var s2 := OneMoreEnters(s, k);
    var check, fail := Check(k, 0, avg), Fail(k, false);
    InvStep(s2, check);
    InvStep(Next(s2, check), fail);
    Then(Next(s2, check), fail, []);
    Then(s2, check, [fail] + []);
    Then(Next(s, Get(k)), Enter(k), [check] + ([fail] + []));
    Then(s, Get(k), [Enter(k)] + ([check] + ([fail] + [])));
    run := [Get(k)] + ([Enter(k)] + ([check] + ([fail] + [])));
  }

  /** One handler after the other fails, until the failures fill the limit. */
  lemma {:induction false} FailuresAddUp(s: State, k: nat, avg: nat) returns (run: seq<Step>)
    requires Failed(s, k) && s.hardLimit > 0 && avg > 0 && k <= s.hardLimit && |s.pc| == s.hardLimit + 1
    ensures
      var t := Exec(s, run);
      Inv(t) && |t.pc| == |s.pc| && LeaksFill(t, s.hardLimit, avg) && !NeverChecked(t, s.hardLimit)
    decreases s.hardLimit - k
  {
    run := [];
    if (k + 1) * avg <= s.hardLimit {
      assert k + 1 <= (k + 1) * avg;
      run := OneMoreFails(s, k, avg);
      var rest := FailuresAddUp(Exec(s, run), k + 1, avg);
      ExecConcat(s, run, rest);
      run := run + rest;
    }
  }

  /** Under every positive limit and average usage, and whatever the limit on runners, some run starves a
      handler that no request has used yet. */
  lemma SomeRunStarves(hardLimit: nat, capacity: nat, maxRunners: nat, avg: nat) returns (run: seq<Step>)
    requires hardLimit > 0 && avg > 0
    ensures
      var s := Exec(Initial(hardLimit, capacity, maxRunners, hardLimit + 1), run);
      |s.pc| == hardLimit + 1 && Starved(s, hardLimit, avg) && !NeverChecked(s, hardLimit)
  {
    var s0 := Initial(hardLimit, capacity, maxRunners, hardLimit + 1);
    InvRun(hardLimit, capacity, maxRunners, hardLimit + 1, []);
    run := FailuresAddUp(s0, 0, avg);
    var s := Exec(s0, run);
    forall more: seq<Step>, mem: nat
      ensures At(Exec(s, more), hardLimit, Checking) ==>
                At(Next(Exec(s, more), Check(hardLimit, mem, avg)), hardLimit, Queuing)
    {
      LeaksStarve(s, more, hardLimit, mem, avg);
    }
  }
}
