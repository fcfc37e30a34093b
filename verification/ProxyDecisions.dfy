/**
 What the proxy decides at each step of a request: whether the gate lets it in, whether it is sent to a
 server, and what a reply leads to; and how round robin spreads the requests of a whole run.
 */
module ProxyDecisions {
  import opened Arithmetic
  import opened Collections
  import opened LoadBalancer
  import opened RoundRobin
  import opened ProxyRuns

  // ----- the gate

  /** A request is let in exactly when the proxy has no limit or fewer connections than that, and counts as
      one from then on; otherwise it goes to sleep. This holds on arrival and after each wakeup. */
  lemma GateAdmitsIff(b: Balancer)
    requires WellFormed(b)
    ensures
      var c := Next(b, Arrive);
      var n := |b.phases|;
      && |c.phases| == n + 1 && c.phases[..n] == b.phases && c.lard == b.lard && c.rrIdx == b.rrIdx
      && (if b.maxConn == -1 || b.connections < b.maxConn
          then c.phases[n] == Admitted([]) && c.connections == b.connections + 1
          else c.phases[n] == Sleeping && c.connections == b.connections)
    ensures forall r :: 0 <= r < |b.phases| && b.phases[r] == Awake ==>
              var c := Next(b, Recheck(r));
              && c.lard == b.lard && c.rrIdx == b.rrIdx
              && (if b.maxConn == -1 || b.connections < b.maxConn
                  then c.phases == b.phases[r := Admitted([])] && c.connections == b.connections + 1
                  else c.phases == b.phases[r := Sleeping] && c.connections == b.connections)
  {
  }

  /** Without a limit, nobody sleeps in any run. */
  lemma {:induction false} UnlimitedNeverSleeps(b: Balancer, run: seq<Step>)
    requires Start(b) && b.maxConn == -1
    ensures forall r :: 0 <= r < |Exec(b, run).phases| ==> Exec(b, run).phases[r] != Sleeping && Exec(b, run).phases[r] != Awake
  {
    InvRun(b, run);
    if run != [] {
      var init := run[..|run| - 1];
      UnlimitedNeverSleeps(b, init);
      InvRun(b, init);
      NobodyFallsAsleep(Exec(b, init), run[|run| - 1]);
    }
  }

  lemma NobodyFallsAsleep(b: Balancer, st: Step)
    requires WellFormed(b) && b.maxConn == -1
    requires forall r :: 0 <= r < |b.phases| ==> b.phases[r] != Sleeping && b.phases[r] != Awake
    ensures forall r :: 0 <= r < |Next(b, st).phases| ==> Next(b, st).phases[r] != Sleeping && Next(b, st).phases[r] != Awake
  {
    if Enabled(b, st) {
      match st {
        case Choose(r, path) => ChoiceSleepsNot(b, r, path);
        case _ =>
      }
    }
  }

  lemma ChoiceSleepsNot(b: Balancer, r: nat, path: string)
    requires WellFormed(b) && r < |b.phases| && b.phases[r].Admitted?
    ensures
      var c := ChooseStep(b, r, path);
      && |c.phases| == |b.phases| && c.phases[r] != Sleeping && c.phases[r] != Awake
      && forall q :: 0 <= q < |b.phases| && q != r ==> c.phases[q] == b.phases[q]
  {
  }

  /** A request that leaves gives its connection back, and its broadcast wakes every sleeper. */
  lemma LeavingWakesAll(b: Balancer, r: nat)
    requires WellFormed(b) && r < |b.phases|
    ensures b.phases[r] == Served ==>
              && Next(b, Finish(r)).connections == b.connections - 1
              && Next(b, Finish(r)).phases == b.phases[r := Finished]
    ensures b.phases[r] == Finished ==>
              var c := Next(b, Broadcast(r));
              && |c.phases| == |b.phases| && c.phases[r] == Done && c.connections == b.connections
              && forall q :: 0 <= q < |b.phases| && q != r ==>
                   c.phases[q] == if b.phases[q] == Sleeping then Awake else b.phases[q]
  {
  }

  // ----- attempts

  /** A request that was refused by three servers, or by as many as there are, is over. */
  predicate OutOfAttempts(b: Balancer, tried: seq<string>) {
    |tried| >= 3 || |tried| >= |Servers(b)|
  }

  /** Under round robin, a request that is not out of attempts is sent to the next server that has not
      refused it, which is where the next choice starts. When all have refused it, it is over, or its loop
      does not end because the last choice was the last server. */
  lemma RoundRobinSends(b: Balancer, r: nat, path: string)
    requires WellFormed(b) && r < |b.phases| && b.phases[r].Admitted? && b.policy == RoundRobinPolicy
    ensures
      var tried := b.phases[r].tried;
      var c := Next(b, Choose(r, path));
      if OutOfAttempts(b, tried) then c == b.(phases := b.phases[r := Served])
      else if SomeUntried(Servers(b), tried) then
        && |c.phases| == |b.phases| && c.phases[r].Attempting? && c.phases[r].tried == tried
        && c.phases == b.phases[r := c.phases[r]]
        && c.rrIdx == c.phases[r].server < |Servers(b)| == |Servers(c)|
        && Servers(b)[c.rrIdx].name !in tried
        && b.rrIdx < |Servers(b)| && (b.rrIdx + 1) % |Servers(b)| < |Servers(b)|
        && var start, n := (b.rrIdx + 1) % |Servers(b)|, |Servers(b)|;
        && (forall j :: 0 <= j < n && Position(start, j, n) < Position(start, c.rrIdx, n) ==> Servers(b)[j].name in tried)
        && (forall j :: 0 <= j < |Servers(b)| ==>
              Servers(c)[j] == Servers(b)[j].(connections := Servers(b)[j].connections + (if j == c.rrIdx then 1 else 0)))
      else c == if b.rrIdx + 1 == |Servers(b)| then b else b.(phases := b.phases[r := Served])
  {
    var tried := b.phases[r].tried;
    if !OutOfAttempts(b, tried) && SomeUntried(Servers(b), tried) {
      var j :| 0 <= j < |Servers(b)| && Servers(b)[j].name !in tried;
      ProbeFindsUntried(Servers(b), tried, b.rrIdx, j);
      ProbeIsNext(Servers(b), tried, b.rrIdx);
    }
  }

  /** Under LARD, a request that is not out of attempts is sent where LARD decides. */
  lemma LardSends(b: Balancer, r: nat, path: string)
    requires WellFormed(b) && r < |b.phases| && b.phases[r].Admitted? && b.policy == LardPolicy
    ensures
      var tried := b.phases[r].tried;
      var c := Next(b, Choose(r, path));
      if OutOfAttempts(b, tried) then c == b.(phases := b.phases[r := Served])
      else
        && LardOk(b.lard) && c.lard == LardStep(b.lard, path, tried)
        && c.phases == b.phases[r := match LardPick(b.lard, path, tried).choice
                                     case Chosen(i) => Attempting(i, tried)
                                     case NoServer => Served
                                     case Panic => Panicked]
  {
  }

  /** A refusal takes the connection off the server and leaves the request with one more server tried; any
      other reply ends its attempts. What a reply reports replaces the usages of the server it is about. */
  lemma ReplyDecides(b: Balancer, r: nat, refused: bool, reporter: nat, cpu: real, mem: real)
    requires WellFormed(b) && r < |b.phases| && b.phases[r].Attempting?
    ensures
      var i := b.phases[r].server;
      var tried := b.phases[r].tried;
      var c := Next(b, Reply(r, refused, reporter, cpu, mem));
      && i < |Servers(b)| == |Servers(c)|
      && c.phases == b.phases[r := if refused then Admitted(tried + [Servers(b)[i].name]) else Served]
      && c.connections == b.connections && c.rrIdx == b.rrIdx && c.lard.targets == b.lard.targets
      && forall j :: 0 <= j < |Servers(b)| ==>
           && Servers(c)[j].connections == Servers(b)[j].connections - (if j == i then 1 else 0)
           && Servers(c)[j].cpu == (if j == reporter then cpu else Servers(b)[j].cpu)
           && Servers(c)[j].mem == (if j == reporter then mem else Servers(b)[j].mem)
  {
  }

  // ----- round robin over whole runs

  /** The server that a step chooses, if any. */
  function Made(b: Balancer, st: Step, c: Balancer): seq<nat> {
    if st.Choose? && b != c && st.r < |c.phases| && c.phases[st.r].Attempting? then [c.phases[st.r].server] else []
  }

  /** The servers chosen in a run, in turn. */
  ghost function Choices(b: Balancer, run: seq<Step>): seq<nat> {
    if run == [] then []
    else
      var init := run[..|run| - 1];
      Choices(b, init) + Made(Exec(b, init), run[|run| - 1], Exec(b, run))
  }

  predicate NothingRefused(run: seq<Step>) {
    forall i :: 0 <= i < |run| && run[i].Reply? ==> !run[i].refused
  }

  ghost predicate FreshRequests(b: Balancer) {
    forall r :: 0 <= r < |b.phases| && b.phases[r].Admitted? ==> b.phases[r].tried == []
  }

  lemma FreshStep(b: Balancer, st: Step)
    requires WellFormed(b) && FreshRequests(b) && (st.Reply? ==> !st.refused)
    ensures FreshRequests(Next(b, st))
  {
    if Enabled(b, st) {
      match st {
        case Choose(r, path) => ChoiceAdmitsNot(b, r, path);
        case _ =>
      }
    }
  }

  lemma ChoiceAdmitsNot(b: Balancer, r: nat, path: string)
    requires WellFormed(b) && r < |b.phases| && b.phases[r].Admitted?
    ensures
      var c := ChooseStep(b, r, path);
      && |c.phases| == |b.phases| && (c.phases[r].Admitted? ==> c.phases[r] == b.phases[r])
      && forall q :: 0 <= q < |b.phases| && q != r ==> c.phases[q] == b.phases[q]
  {
  }

  lemma IndexKept(b: Balancer, st: Step)
    requires WellFormed(b) && b.policy == RoundRobinPolicy && !st.Choose?
    ensures Next(b, st).rrIdx == b.rrIdx
  {
  }

  lemma FreshChoice(b: Balancer, r: nat, path: string)
    requires WellFormed(b) && FreshRequests(b) && b.policy == RoundRobinPolicy && Enabled(b, Choose(r, path))
    ensures
      var c := Next(b, Choose(r, path));
      if Servers(b) == [] then c.rrIdx == b.rrIdx && r < |c.phases| && c.phases[r] == Served
      else r < |c.phases| && c.phases[r].Attempting? && c.phases[r].server == c.rrIdx == (b.rrIdx + 1) % |Servers(b)|
  {
    if Servers(b) != [] {
      NothingTried(Servers(b), b.rrIdx);
    }
  }

  lemma ChoiceMade(c: Balancer, st: Step)
    requires WellFormed(c) && FreshRequests(c) && c.policy == RoundRobinPolicy && Servers(c) != []
    ensures
      var next := (c.rrIdx + 1) % |Servers(c)|;
      if st.Choose? && Enabled(c, st) then Made(c, st, Next(c, st)) == [next] && Next(c, st).rrIdx == next
      else Made(c, st, Next(c, st)) == [] && Next(c, st).rrIdx == c.rrIdx
  {
    if st.Choose? && Enabled(c, st) {
      FreshChoice(c, st.r, st.path);
      assert Next(c, st).phases[st.r] != c.phases[st.r];
    } else if !st.Choose? {
      IndexKept(c, st);
    }
  }

  lemma ChoicesBack(b: Balancer, run: seq<Step>)
    requires run != []
    ensures
      var init := run[..|run| - 1];
      var c := Exec(b, init);
      Exec(b, run) == Next(c, run[|run| - 1]) && Choices(b, run) == Choices(b, init) + Made(c, run[|run| - 1], Next(c, run[|run| - 1]))
  {
  }

  lemma {:induction false} FreshRun(b: Balancer, run: seq<Step>)
    requires Start(b) && NothingRefused(run)
    ensures FreshRequests(Exec(b, run))
  {
    if run != [] {
      var init := run[..|run| - 1];
      assert forall i :: 0 <= i < |init| ==> init[i] == run[i];
      FreshRun(b, init);
      InvRun(b, init);
      FreshStep(Exec(b, init), run[|run| - 1]);
    }
  }

  /** The servers after `rr` in turn, up to `idx`. */
  predicate InTurn(s: seq<nat>, rr: nat, idx: nat, n: nat)
    requires n > 0
  {
    (forall k :: 0 <= k < |s| ==> s[k] == (rr + 1 + k) % n) && idx == (rr + |s|) % n
  }

  lemma NextInTurn(s: seq<nat>, rr: nat, idx: nat, n: nat)
    requires n > 0 && InTurn(s, rr, idx, n)
    ensures InTurn(s + [(idx + 1) % n], rr, (idx + 1) % n, n)
  {
    NextIndex(rr + |s|, n);
  }

  lemma TurnStep(s: seq<nat>, rr: nat, c: Balancer, st: Step)
    requires WellFormed(c) && FreshRequests(c) && c.policy == RoundRobinPolicy && Servers(c) != []
    requires InTurn(s, rr, c.rrIdx, |Servers(c)|)
    ensures InTurn(s + Made(c, st, Next(c, st)), rr, Next(c, st).rrIdx, |Servers(c)|)
  {
    ChoiceMade(c, st);
    NextInTurn(s, rr, c.rrIdx, |Servers(c)|);
    assert s + [] == s;
  }

  lemma {:induction false} ChoicesInTurn(b: Balancer, run: seq<Step>)
    requires Start(b) && b.policy == RoundRobinPolicy && Servers(b) != [] && NothingRefused(run)
    ensures InTurn(Choices(b, run), b.rrIdx, Exec(b, run).rrIdx, |Servers(b)|)
  {
    if run == [] {
      Wrap(b.rrIdx, 0, |Servers(b)|);
    } else {
      var init := run[..|run| - 1];
      assert forall i :: 0 <= i < |init| ==> init[i] == run[i];
      ChoicesInTurn(b, init);
      InvRun(b, init);
      FreshRun(b, init);
      TurnStep(Choices(b, init), b.rrIdx, Exec(b, init), run[|run| - 1]);
      ChoicesBack(b, run);
    }
  }

  /** When nothing is refused, the choices of any run take the servers in turn, whichever requests they are
      for and however the steps interleave. */
  lemma ChoicesAreInTurn(b: Balancer, run: seq<Step>, k: nat)
    requires Start(b) && b.policy == RoundRobinPolicy && Servers(b) != [] && NothingRefused(run)
    requires k < |Choices(b, run)|
    ensures Choices(b, run)[k] == (b.rrIdx + 1 + k) % |Servers(b)|
  {
    ChoicesInTurn(b, run);
  }

  lemma {:induction false} TurnsExact(s: seq<nat>, rr: nat, n: nat, j: nat)
    requires rr < n && j < n && forall k :: 0 <= k < |s| ==> s[k] == (rr + 1 + k) % n
    ensures Count(s, j) == |s| / n + (if |s| % n > Turn(rr, j, n) then 1 else 0)
  {
    var m := |s|;
    if m == 0 {
      DivModIs(0, n, 0, 0);
    } else {
      var init := s[..m - 1];
      TurnsExact(init, rr, n, j);
      assert s == init + [s[m - 1]];
      CountConcat(init, [s[m - 1]], j);
      assert Count([s[m - 1]], j) == (if s[m - 1] == j then 1 else 0) + Count([s[m - 1]][1..], j);
      TurnComes(rr, m - 1, j, n);
      DivModNext(m - 1, n);
    }
  }

  /** So after any run without a refusal, with `m` choices over `n` servers, each server was chosen `m / n`
      times, rounded down or up. */
  lemma RunsAreFair(b: Balancer, run: seq<Step>, j: nat)
    requires Start(b) && b.policy == RoundRobinPolicy && Servers(b) != [] && NothingRefused(run) && j < |Servers(b)|
    ensures
      var m, n := |Choices(b, run)|, |Servers(b)|;
      m / n <= Count(Choices(b, run), j) <= m / n + 1
  {
    ChoicesInTurn(b, run);
    TurnsExact(Choices(b, run), b.rrIdx, |Servers(b)|, j);
  }
}
