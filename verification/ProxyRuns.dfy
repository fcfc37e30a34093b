/**
 Runs of the load balancer: requests that pass the gate on the total number of connections, are
 sent to servers, and leave. Each section under a lock is one step; choosing a server and
 counting the connection is one step; a run is any sequence of steps of any requests.
 */
module ProxyRuns {
  import opened Collections
  import opened LoadBalancer
  import opened RoundRobin

  datatype Policy = LardPolicy | RoundRobinPolicy

  /** `Sleeping` waits on the condition variable, `Awake` was woken and has not checked again.
      `Finished` has given its connection back and not broadcast yet. */
  datatype Phase =
    | Sleeping
    | Awake
    | Admitted(tried: seq<string>)
    | Attempting(server: nat, tried: seq<string>)
    | Served
    | Finished
    | Done
    | Panicked

  datatype Balancer = Balancer(
    policy: Policy,
    lard: Lard,
    rrIdx: nat,
    maxConn: int,
    connections: int,
    phases: seq<Phase>)

  datatype Step =
    | Arrive
    | Recheck(r: nat)
    | Choose(r: nat, path: string)
    | Reply(r: nat, refused: bool, reporter: nat, cpu: real, mem: real)
    | Finish(r: nat)
    | Broadcast(r: nat)

  predicate Room(b: Balancer) {
    b.maxConn == UNLIMITED || b.connections < b.maxConn
  }

  function Servers(b: Balancer): seq<Server> {
    b.lard.servers
  }

  function AttemptLimit(b: Balancer): nat {
    Min(3, |Servers(b)|)
  }

  ghost predicate WellFormed(b: Balancer) {
    && (Servers(b) != [] ==> LardOk(b.lard) && b.rrIdx < |Servers(b)|)
    && (forall r :: 0 <= r < |b.phases| && b.phases[r].Attempting? ==> b.phases[r].server < |Servers(b)|)
  }

  function Goto(b: Balancer, r: nat, p: Phase): Balancer
    requires r < |b.phases|
  {
    b.(phases := b.phases[r := p])
  }

  /** When the probe of round robin finds no server and its loop does not end, the request stays where
      it is for good; `ProbeEndsIff` tells when. */
  function ChooseStep(b: Balancer, r: nat, path: string): Balancer
    requires WellFormed(b) && r < |b.phases| && b.phases[r].Admitted?
  {
    var tried := b.phases[r].tried;
    if |tried| >= AttemptLimit(b) then Goto(b, r, Served)
    else
      match b.policy
      case RoundRobinPolicy =>
        (match Probe(Servers(b), tried, b.rrIdx, 0)
         case None => if b.rrIdx + 1 != |Servers(b)| then Goto(b, r, Served) else b
         case Some(i) =>
           Goto(b, r, Attempting(i, tried)).(rrIdx := i, lard := b.lard.(servers := Connect(Servers(b), i))))
      case LardPolicy =>
        var b' := b.(lard := LardStep(b.lard, path, tried));
        match LardPick(b.lard, path, tried).choice
        case Chosen(i) => Goto(b', r, Attempting(i, tried))
        case NoServer => Goto(b', r, Served)
        case Panic => Goto(b', r, Panicked)
  }

  function Disconnect(servers: seq<Server>, i: nat): seq<Server>
    requires i < |servers|
  {
    servers[i := servers[i].(connections := servers[i].connections - 1)]
  }

  function Report(servers: seq<Server>, i: nat, cpu: real, mem: real): seq<Server> {
    if i < |servers| then servers[i := servers[i].(cpu := cpu, mem := mem)] else servers
  }

  function ReplyStep(b: Balancer, r: nat, refused: bool, reporter: nat, cpu: real, mem: real): Balancer
    requires WellFormed(b) && r < |b.phases| && b.phases[r].Attempting?
  {
    var i := b.phases[r].server;
    var servers := Disconnect(Report(Servers(b), reporter, cpu, mem), i);
    var next := if refused then Admitted(b.phases[r].tried + [Servers(b)[i].name]) else Served;
    Goto(b, r, next).(lard := b.lard.(servers := servers))
  }

  function Woken(phases: seq<Phase>): (w: seq<Phase>)
    ensures |w| == |phases|
    ensures forall i :: 0 <= i < |w| ==> w[i] == if phases[i] == Sleeping then Awake else phases[i]
  {
    seq(|phases|, i requires 0 <= i < |phases| => if phases[i] == Sleeping then Awake else phases[i])
  }

  predicate Enabled(b: Balancer, st: Step) {
    match st
    case Arrive => true
    case Recheck(r) => r < |b.phases| && b.phases[r] == Awake
    case Choose(r, _) => r < |b.phases| && b.phases[r].Admitted?
    case Reply(r, _, _, _, _) => r < |b.phases| && b.phases[r].Attempting?
    case Finish(r) => r < |b.phases| && b.phases[r] == Served
    case Broadcast(r) => r < |b.phases| && b.phases[r] == Finished
  }

  function Apply(b: Balancer, st: Step): Balancer
    requires WellFormed(b) && Enabled(b, st)
  {
    match st
    case Arrive =>
      if Room(b) then b.(phases := b.phases + [Admitted([])], connections := b.connections + 1)
      else b.(phases := b.phases + [Sleeping])
    case Recheck(r) =>
      if Room(b) then Goto(b, r, Admitted([])).(connections := b.connections + 1)
      else Goto(b, r, Sleeping)
    case Choose(r, path) => ChooseStep(b, r, path)
    case Reply(r, refused, reporter, cpu, mem) => ReplyStep(b, r, refused, reporter, cpu, mem)
    case Finish(r) => Goto(b, r, Finished).(connections := b.connections - 1)
    case Broadcast(r) => b.(phases := Woken(b.phases)[r := Done])
  }

  /** A balancer whose configuration has been completed and that has served nothing yet. */
  ghost predicate Start(b: Balancer) {
    && WellFormed(b) && b.connections == 0 && b.phases == [] && b.lard.targets == map[]
    && forall i :: 0 <= i < |Servers(b)| ==> Servers(b)[i].connections == 0
  }

  // ----- tallies

  function Tally(phases: seq<Phase>, w: Phase -> nat): nat {
    if phases == [] then 0 else w(phases[0]) + Tally(phases[1..], w)
  }

  function InGate(p: Phase): nat {
    if p.Admitted? || p.Attempting? || p.Served? || p.Panicked? then 1 else 0
  }

  function InAttempt(p: Phase): nat {
    if p.Attempting? then 1 else 0
  }

  function AtServer(i: nat): Phase -> nat {
    (p: Phase) => if p.Attempting? && p.server == i then 1 else 0
  }

  lemma {:induction false} TallyUpdate(phases: seq<Phase>, w: Phase -> nat, r: nat, p: Phase)
    requires r < |phases|
    ensures Tally(phases[r := p], w) == Tally(phases, w) - w(phases[r]) + w(p)
  {
    if r == 0 {
      assert phases[r := p][1..] == phases[1..];
    } else {
      assert phases[r := p][1..] == phases[1..][r - 1 := p];
      TallyUpdate(phases[1..], w, r - 1, p);
    }
  }

  lemma {:induction false} TallyAppend(phases: seq<Phase>, w: Phase -> nat, p: Phase)
    ensures Tally(phases + [p], w) == Tally(phases, w) + w(p)
  {
    if phases == [] {
      assert phases + [p] == [p] && [p][1..] == [];
    } else {
      assert (phases + [p])[1..] == phases[1..] + [p];
      TallyAppend(phases[1..], w, p);
    }
  }

  lemma {:induction false} TallySame(phases: seq<Phase>, other: seq<Phase>, w: Phase -> nat)
    requires |phases| == |other| && forall i :: 0 <= i < |phases| ==> w(phases[i]) == w(other[i])
    ensures Tally(phases, w) == Tally(other, w)
  {
    if phases != [] {
      TallySame(phases[1..], other[1..], w);
    }
  }

  lemma {:induction false} TallyLess(phases: seq<Phase>, v: Phase -> nat, w: Phase -> nat)
    requires forall i :: 0 <= i < |phases| ==> v(phases[i]) <= w(phases[i])
    ensures Tally(phases, v) <= Tally(phases, w)
    ensures (exists r :: 0 <= r < |phases| && v(phases[r]) < w(phases[r])) ==> Tally(phases, v) < Tally(phases, w)
  {
    if phases != [] {
      TallyLess(phases[1..], v, w);
      if exists r :: 0 <= r < |phases| && v(phases[r]) < w(phases[r]) {
        var r :| 0 <= r < |phases| && v(phases[r]) < w(phases[r]);
        if r > 0 {
          assert phases[1..][r - 1] == phases[r];
        }
      }
    }
  }

  lemma {:induction false} TallyAtMost(phases: seq<Phase>, w: Phase -> nat)
    requires forall i :: 0 <= i < |phases| ==> w(phases[i]) <= 1
    ensures Tally(phases, w) <= |phases|
  {
    if phases != [] {
      TallyAtMost(phases[1..], w);
    }
  }

  // ----- the invariants

  ghost predicate CountsOk(b: Balancer) {
    && b.connections == Tally(b.phases, InGate)
    && Sum(Loads(Servers(b))) == Tally(b.phases, InAttempt)
    && forall i :: 0 <= i < |Servers(b)| ==> Servers(b)[i].connections == Tally(b.phases, AtServer(i))
  }

  ghost predicate GateOk(b: Balancer) {
    && (b.maxConn >= 0 ==> b.connections <= b.maxConn)
    && ((exists r :: 0 <= r < |b.phases| && b.phases[r] == Sleeping) && Room(b) ==>
          exists r :: 0 <= r < |b.phases| && b.phases[r] == Finished)
  }

  predicate PhaseOk(b: Balancer, p: Phase) {
    match p
    case Admitted(tried) =>
      |tried| <= AttemptLimit(b) && (b.policy == RoundRobinPolicy ==> Distinct(tried))
    case Attempting(i, tried) =>
      && |tried| < AttemptLimit(b) && i < |Servers(b)|
      && (b.policy == RoundRobinPolicy ==> Distinct(tried) && Servers(b)[i].name !in tried)
    case _ => true
  }

  ghost predicate TriedOk(b: Balancer) {
    forall r :: 0 <= r < |b.phases| ==> PhaseOk(b, b.phases[r])
  }

  predicate NotOverfilled(s: Server, f: Formula) {
    s.maxConn >= 1 ==> s.connections <= if ByLoadOfConnections(f) then s.maxConn else s.maxConn + 1
  }

  ghost predicate LimitsOk(b: Balancer) {
    b.policy == LardPolicy ==>
      forall i :: 0 <= i < |Servers(b)| ==> NotOverfilled(Servers(b)[i], b.lard.formula)
  }

  ghost predicate Inv(b: Balancer) {
    WellFormed(b) && CountsOk(b) && GateOk(b) && TriedOk(b) && LimitsOk(b)
  }

  /** What no step changes. */
  ghost predicate SameConfig(b: Balancer, c: Balancer) {
    && b.policy == c.policy && b.maxConn == c.maxConn && b.lard.formula == c.lard.formula
    && b.lard.loadHigh == c.lard.loadHigh && b.lard.loadLow == c.lard.loadLow
    && |Servers(b)| == |Servers(c)| && Limits(Servers(b)) == Limits(Servers(c))
    && forall i :: 0 <= i < |Servers(b)| ==>
         Servers(c)[i].name == Servers(b)[i].name && Servers(c)[i].maxConn == Servers(b)[i].maxConn
  }

  /** The effect of one request going from phase to phase on what the servers count. */
  lemma CountsMove(b: Balancer, c: Balancer, r: nat, p: Phase)
    requires WellFormed(b) && CountsOk(b) && r < |b.phases| && c.phases == b.phases[r := p]
    requires |Servers(c)| == |Servers(b)|
    requires c.connections == b.connections - InGate(b.phases[r]) + InGate(p)
    requires forall i: nat :: i < |Servers(b)| ==>
               Servers(c)[i].connections == Servers(b)[i].connections - AtServer(i)(b.phases[r]) + AtServer(i)(p)
    requires Sum(Loads(Servers(c))) == Sum(Loads(Servers(b))) - InAttempt(b.phases[r]) + InAttempt(p)
    ensures CountsOk(c)
  {
    TallyUpdate(b.phases, InGate, r, p);
    TallyUpdate(b.phases, InAttempt, r, p);
    forall i: nat | i < |Servers(c)| ensures Servers(c)[i].connections == Tally(c.phases, AtServer(i)) {
      TallyUpdate(b.phases, AtServer(i), r, p);
    }
  }

  lemma ConnectLoads(servers: seq<Server>, i: nat)
    requires i < |servers|
    ensures Sum(Loads(Connect(servers, i))) == Sum(Loads(servers)) + 1
    ensures Sum(Loads(Disconnect(servers, i))) == Sum(Loads(servers)) - 1
  {
    var l := Loads(servers);
    assert Loads(Connect(servers, i)) == l[i := l[i] + 1];
    assert Loads(Disconnect(servers, i)) == l[i := l[i] - 1];
    SumUpdate(l, i, l[i] + 1);
    SumUpdate(l, i, l[i] - 1);
  }

  // ----- each step

  lemma InvArrive(b: Balancer)
    requires Inv(b)
    ensures Inv(Apply(b, Arrive)) && SameConfig(b, Apply(b, Arrive))
  {
    var p := if Room(b) then Admitted([]) else Sleeping;
    var c := Apply(b, Arrive);
    TallyAppend(b.phases, InGate, p);
    TallyAppend(b.phases, InAttempt, p);
    forall i: nat | i < |Servers(c)| ensures Servers(c)[i].connections == Tally(c.phases, AtServer(i)) {
      TallyAppend(b.phases, AtServer(i), p);
    }
    forall r | 0 <= r < |c.phases| ensures PhaseOk(c, c.phases[r]) {
      if r < |b.phases| { assert PhaseOk(b, b.phases[r]); }
    }
    if Room(c) && exists r :: 0 <= r < |c.phases| && c.phases[r] == Sleeping {
      var r :| 0 <= r < |c.phases| && c.phases[r] == Sleeping;
      assert b.phases[r] == Sleeping;
      var q :| 0 <= q < |b.phases| && b.phases[q] == Finished;
      assert c.phases[q] == Finished;
    }
  }

  /** A request that moves without becoming a sleeper, or becomes one when there is no room, and
      without ceasing to be finished. */
  lemma GateMove(b: Balancer, c: Balancer, r: nat)
    requires GateOk(b) && r < |b.phases| && |c.phases| == |b.phases| && c.phases == b.phases[r := c.phases[r]]
    requires b.phases[r] != Finished
    requires c.maxConn == b.maxConn && c.connections <= b.connections + (if Room(b) then 1 else 0)
    requires c.phases[r] == Sleeping ==> !Room(c)
    requires c.phases[r] == Finished || c.connections >= b.connections
    ensures GateOk(c)
  {
    if Room(c) && exists k :: 0 <= k < |c.phases| && c.phases[k] == Sleeping {
      var k :| 0 <= k < |c.phases| && c.phases[k] == Sleeping;
      if c.phases[r] == Finished {
      } else {
        assert b.phases[k] == Sleeping;
        var q :| 0 <= q < |b.phases| && b.phases[q] == Finished;
        assert c.phases[q] == Finished;
      }
    }
  }

  lemma OthersTried(b: Balancer, c: Balancer, r: nat)
    requires TriedOk(b) && SameConfig(b, c) && r < |b.phases| && |c.phases| == |b.phases|
    requires c.phases == b.phases[r := c.phases[r]] && PhaseOk(c, c.phases[r])
    ensures TriedOk(c)
  {
    forall k | 0 <= k < |c.phases| ensures PhaseOk(c, c.phases[k]) {
      if k != r { assert PhaseOk(b, b.phases[k]); }
    }
  }

  lemma InvRecheck(b: Balancer, r: nat)
    requires Inv(b) && Enabled(b, Recheck(r))
    ensures Inv(Apply(b, Recheck(r))) && SameConfig(b, Apply(b, Recheck(r)))
  {
    var c := Apply(b, Recheck(r));
    CountsMove(b, c, r, c.phases[r]);
    GateMove(b, c, r);
    OthersTried(b, c, r);
  }

  lemma InvFinish(b: Balancer, r: nat)
    requires Inv(b) && Enabled(b, Finish(r))
    ensures Inv(Apply(b, Finish(r))) && SameConfig(b, Apply(b, Finish(r)))
  {
    var c := Apply(b, Finish(r));
    CountsMove(b, c, r, Finished);
    GateMove(b, c, r);
    OthersTried(b, c, r);
  }

  lemma InvBroadcast(b: Balancer, r: nat)
    requires Inv(b) && Enabled(b, Broadcast(r))
    ensures Inv(Apply(b, Broadcast(r))) && SameConfig(b, Apply(b, Broadcast(r)))
  {
    var c := Apply(b, Broadcast(r));
    TallySame(b.phases, c.phases, InGate);
    TallySame(b.phases, c.phases, InAttempt);
    forall i: nat | i < |Servers(c)| ensures Servers(c)[i].connections == Tally(c.phases, AtServer(i)) {
      TallySame(b.phases, c.phases, AtServer(i));
    }
    forall k | 0 <= k < |c.phases| ensures PhaseOk(c, c.phases[k]) {
      assert PhaseOk(b, b.phases[k]);
    }
    assert forall k :: 0 <= k < |c.phases| ==> c.phases[k] != Sleeping;
  }

  /** Choosing server `i` within its limits. */
  lemma InvConnect(b: Balancer, c: Balancer, r: nat, i: nat)
    requires Inv(b) && r < |b.phases| && b.phases[r].Admitted? && i < |Servers(b)|
    requires |b.phases[r].tried| < AttemptLimit(b)
    requires Servers(c) == Connect(Servers(b), i)
    requires c.phases == b.phases[r := Attempting(i, b.phases[r].tried)]
    requires WellFormed(c) && SameConfig(b, c) && c.connections == b.connections
    requires b.policy == RoundRobinPolicy ==> Servers(b)[i].name !in b.phases[r].tried
    requires b.policy == LardPolicy ==> NotOverfilled(Servers(c)[i], b.lard.formula)
    ensures Inv(c)
  {
    ConnectLoads(Servers(b), i);
    CountsMove(b, c, r, c.phases[r]);
    GateMove(b, c, r);
    assert PhaseOk(b, b.phases[r]);
    OthersTried(b, c, r);
  }

  /** A choice without a server leaves the gate and the servers alone. */
  lemma InvNoServer(b: Balancer, c: Balancer, r: nat)
    requires Inv(b) && r < |b.phases| && b.phases[r].Admitted?
    requires Servers(c) == Servers(b) && WellFormed(c) && SameConfig(b, c) && c.connections == b.connections
    requires c.phases == b.phases || (|c.phases| == |b.phases| && (c.phases[r] == Served || c.phases[r] == Panicked)
                                      && c.phases == b.phases[r := c.phases[r]])
    ensures Inv(c)
  {
    if c.phases == b.phases {
      assert forall k :: 0 <= k < |c.phases| ==> PhaseOk(b, b.phases[k]);
    } else {
      CountsMove(b, c, r, c.phases[r]);
      GateMove(b, c, r);
      OthersTried(b, c, r);
    }
  }

  lemma InvChooseRoundRobin(b: Balancer, r: nat, path: string)
    requires Inv(b) && Enabled(b, Choose(r, path)) && b.policy == RoundRobinPolicy
    ensures Inv(ChooseStep(b, r, path)) && SameConfig(b, ChooseStep(b, r, path))
  {
    var c := ChooseStep(b, r, path);
    var tried := b.phases[r].tried;
    if |tried| >= AttemptLimit(b) {
      InvNoServer(b, c, r);
    } else {
      match Probe(Servers(b), tried, b.rrIdx, 0) {
        case None => InvNoServer(b, c, r);
        case Some(i) => InvConnect(b, c, r, i);
      }
    }
  }

  lemma InvChooseLard(b: Balancer, r: nat, path: string)
    requires Inv(b) && Enabled(b, Choose(r, path)) && b.policy == LardPolicy
    ensures Inv(ChooseStep(b, r, path)) && SameConfig(b, ChooseStep(b, r, path))
  {
    var c := ChooseStep(b, r, path);
    var tried := b.phases[r].tried;
    if |tried| >= AttemptLimit(b) {
      InvNoServer(b, c, r);
    } else {
      match LardPick(b.lard, path, tried).choice {
        case Chosen(i) =>
          LardPickIsBelowLimit(b.lard, path, tried);
          InvConnect(b, c, r, i);
        case NoServer => InvNoServer(b, c, r);
        case Panic => InvNoServer(b, c, r);
      }
    }
  }

  /** A reply takes one connection off its server, whatever it reports about whichever server. */
  lemma ReplyServers(servers: seq<Server>, reporter: nat, cpu: real, mem: real, i: nat)
    requires i < |servers|
    ensures
      var t := Disconnect(Report(servers, reporter, cpu, mem), i);
      && |t| == |servers| && Limits(t) == Limits(servers)
      && Sum(Loads(t)) == Sum(Loads(servers)) - 1
      && forall k :: 0 <= k < |t| ==>
           && t[k].name == servers[k].name && t[k].maxConn == servers[k].maxConn
           && t[k].connections == servers[k].connections - (if k == i then 1 else 0)
  {
    var reported := Report(servers, reporter, cpu, mem);
    assert Loads(reported) == Loads(servers);
    ConnectLoads(reported, i);
    var t := Disconnect(reported, i);
    assert Limits(t) == Limits(servers);
  }

  lemma ReplySame(b: Balancer, r: nat, refused: bool, reporter: nat, cpu: real, mem: real)
    requires WellFormed(b) && Enabled(b, Reply(r, refused, reporter, cpu, mem))
    ensures
      var c := ReplyStep(b, r, refused, reporter, cpu, mem);
      WellFormed(c) && SameConfig(b, c)
  {
    ReplyServers(Servers(b), reporter, cpu, mem, b.phases[r].server);
  }

  lemma ReplyPhase(b: Balancer, r: nat, refused: bool, reporter: nat, cpu: real, mem: real)
    requires Inv(b) && Enabled(b, Reply(r, refused, reporter, cpu, mem))
    ensures
      var c := ReplyStep(b, r, refused, reporter, cpu, mem);
      TriedOk(c) && GateOk(c)
  {
    var c := ReplyStep(b, r, refused, reporter, cpu, mem);
    ReplySame(b, r, refused, reporter, cpu, mem);
    GateMove(b, c, r);
    assert PhaseOk(b, b.phases[r]);
    OthersTried(b, c, r);
  }

  lemma InvReply(b: Balancer, r: nat, refused: bool, reporter: nat, cpu: real, mem: real)
    requires Inv(b) && Enabled(b, Reply(r, refused, reporter, cpu, mem))
    ensures Inv(ReplyStep(b, r, refused, reporter, cpu, mem))
    ensures SameConfig(b, ReplyStep(b, r, refused, reporter, cpu, mem))
  {
    var c := ReplyStep(b, r, refused, reporter, cpu, mem);
    ReplySame(b, r, refused, reporter, cpu, mem);
    ReplyPhase(b, r, refused, reporter, cpu, mem);
    ReplyServers(Servers(b), reporter, cpu, mem, b.phases[r].server);
    CountsMove(b, c, r, c.phases[r]);
  }

  lemma InvStep(b: Balancer, st: Step)
    requires Inv(b) && Enabled(b, st)
    ensures Inv(Apply(b, st)) && SameConfig(b, Apply(b, st))
  {
    match st {
      case Arrive => InvArrive(b);
      case Recheck(r) => InvRecheck(b, r);
      case Choose(r, path) =>
        if b.policy == LardPolicy { InvChooseLard(b, r, path); } else { InvChooseRoundRobin(b, r, path); }
      case Reply(r, refused, reporter, cpu, mem) => InvReply(b, r, refused, reporter, cpu, mem);
      case Finish(r) => InvFinish(b, r);
      case Broadcast(r) => InvBroadcast(b, r);
    }
  }

  // ----- runs

  ghost function Next(b: Balancer, st: Step): Balancer {
    if WellFormed(b) && Enabled(b, st) then Apply(b, st) else b
  }

  ghost function Exec(b: Balancer, run: seq<Step>): Balancer {
    if run == [] then b else Next(Exec(b, run[..|run| - 1]), run[|run| - 1])
  }

  lemma SameConfigTransitive(a: Balancer, b: Balancer, c: Balancer)
    requires SameConfig(a, b) && SameConfig(b, c)
    ensures SameConfig(a, c)
  {
  }

  lemma {:induction false} ZeroSum(l: seq<int>)
    requires forall i :: 0 <= i < |l| ==> l[i] == 0
    ensures Sum(l) == 0
  {
    if l != [] {
      ZeroSum(l[1..]);
    }
  }

  lemma {:induction false} InvRun(b: Balancer, run: seq<Step>)
    requires Start(b)
    ensures Inv(Exec(b, run)) && SameConfig(b, Exec(b, run))
  {
    if run == [] {
      ZeroSum(Loads(Servers(b)));
    } else {
      InvRun(b, run[..|run| - 1]);
      var c := Exec(b, run[..|run| - 1]);
      if Enabled(c, run[|run| - 1]) {
        InvStep(c, run[|run| - 1]);
        SameConfigTransitive(b, c, Exec(b, run));
      }
    }
  }

  // ----- the results

  /** In every interleaving: each server counts the attempts in progress on it, all servers together
      count all of them, those are no more than the requests inside the gate, and those no more than
      the limit when there is one. */
  lemma ConnectionsAreCounted(b: Balancer, run: seq<Step>)
    requires Start(b)
    ensures
      var c := Exec(b, run);
      && (forall i :: 0 <= i < |Servers(c)| ==> Servers(c)[i].connections == Tally(c.phases, AtServer(i)))
      && Sum(Loads(Servers(c))) == Tally(c.phases, InAttempt)
      && Tally(c.phases, InAttempt) <= Tally(c.phases, InGate) == c.connections
      && (b.maxConn >= 0 ==> c.connections <= b.maxConn)
  {
    InvRun(b, run);
    TallyLess(Exec(b, run).phases, InAttempt, InGate);
  }

  /** No wakeup is lost: if a request sleeps while there is room, one that has left the gate still
      has its broadcast to do. */
  lemma NoLostWakeup(b: Balancer, run: seq<Step>, r: nat)
    requires Start(b)
    requires r < |Exec(b, run).phases| && Exec(b, run).phases[r] == Sleeping
    requires b.maxConn == -1 || Exec(b, run).connections < b.maxConn
    ensures exists q :: 0 <= q < |Exec(b, run).phases| && Exec(b, run).phases[q] == Finished
  {
    InvRun(b, run);
  }

  /** LARD never drives a limited server above its limit when the formula looks at connections, nor
      by more than one above it under any formula. */
  lemma LardRespectsLimits(b: Balancer, run: seq<Step>, i: nat)
    requires Start(b) && b.policy == LardPolicy && i < |Servers(b)| && Servers(b)[i].maxConn >= 1
    ensures
      var c := Exec(b, run);
      && i < |Servers(c)|
      && Servers(c)[i].connections <= Servers(b)[i].maxConn + 1
      && (ByLoadOfConnections(b.lard.formula) ==> Servers(c)[i].connections <= Servers(b)[i].maxConn)
  {
    InvRun(b, run);
    assert NotOverfilled(Servers(Exec(b, run))[i], b.lard.formula);
  }

  /** A proxy with one server of limit one, and room for two requests. */
  function OneServer(f: Formula, connections: int, targets: map<string, nat>, phases: seq<Phase>): Balancer {
    Balancer(LardPolicy, Lard([Server("s", 1, 0.0, 0.0, connections)], f, 0.4, 0.2, 0, targets), 0, 2, |phases|, phases)
  }

  lemma PickOnlyServer(f: Formula, connections: int, targets: map<string, nat>, phases: seq<Phase>, path: string)
    requires 0 <= connections <= 1 && !ByLoadOfConnections(f) && path !in targets
    requires forall p :: p in targets ==> targets[p] == 0
    ensures
      var b := OneServer(f, connections, targets, phases);
      && LardOk(b.lard)
      && LardPick(b.lard, path, []) == Pick(Chosen(0), true)
      && LardStep(b.lard, path, []) == OneServer(f, connections + 1, targets[path := 0], phases).lard
  {
    var l := OneServer(f, connections, targets, phases).lard;
    assert Load(l.servers[0], f) < 1.0;
    assert LeastUpTo(l.servers, f, 0, 0) == None;
    assert Rotated(0, 0, 1) == 0;
    assert LeastUpTo(l.servers, f, 0, 1) == Some(0);
  }

  lemma ExecOne(b: Balancer, run: seq<Step>, st: Step)
    ensures Exec(b, run + [st]) == Next(Exec(b, run), st)
  {
    assert (run + [st])[..|run|] == run;
  }

  lemma ArriveAndChoose(f: Formula, run: seq<Step>, connections: int, targets: map<string, nat>, phases: seq<Phase>, path: string)
    requires 0 <= connections <= 1 && !ByLoadOfConnections(f) && path !in targets && |phases| < 2
    requires forall p :: p in targets ==> targets[p] == 0
    requires forall r :: 0 <= r < |phases| ==> phases[r] == Attempting(0, [])
    requires Exec(OneServer(f, 0, map[], []), run) == OneServer(f, connections, targets, phases)
    ensures Exec(OneServer(f, 0, map[], []), run + [Arrive] + [Choose(|phases|, path)])
         == OneServer(f, connections + 1, targets[path := 0], phases + [Attempting(0, [])])
  {
    var b := OneServer(f, 0, map[], []);
    PickOnlyServer(f, connections, targets, phases, path);
    ExecOne(b, run, Arrive);
    var c := OneServer(f, connections, targets, phases + [Admitted([])]);
    assert Exec(b, run + [Arrive]) == c;
    PickOnlyServer(f, connections, targets, c.phases, path);
    ExecOne(b, run + [Arrive], Choose(|phases|, path));
    assert (phases + [Admitted([])])[|phases| := Attempting(0, [])] == phases + [Attempting(0, [])];
  }

  /** Under every other formula some run does drive a server above its limit: the scan skips a
      server only when it is already above. */
  lemma OtherFormulasOverfill(f: Formula) returns (b: Balancer, run: seq<Step>)
    requires !ByLoadOfConnections(f)
    ensures Start(b) && b.policy == LardPolicy && b.lard.formula == f
    ensures |Servers(b)| == 1 && Servers(b)[0].maxConn == 1
    ensures |Servers(Exec(b, run))| == 1 && Servers(Exec(b, run))[0].connections == 2
  {
    b := OneServer(f, 0, map[], []);
    run := [];
    var phases: seq<Phase> := [];
    var targets: map<string, nat> := map[];
    ArriveAndChoose(f, run, 0, targets, phases, "a");
    run := run + [Arrive] + [Choose(|phases|, "a")];
    phases, targets := phases + [Attempting(0, [])], targets["a" := 0];
    ArriveAndChoose(f, run, 1, targets, phases, "b");
    run := run + [Arrive] + [Choose(|phases|, "b")];
    StartOne(f);
  }

  lemma StartOne(f: Formula)
    ensures Start(OneServer(f, 0, map[], []))
  {
  }

  /** Under round robin, a request is never sent to a server that has refused it, and it is refused
      by at most three servers, or by as many as there are. */
  lemma RoundRobinRetriesElsewhere(b: Balancer, run: seq<Step>, r: nat)
    requires Start(b) && b.policy == RoundRobinPolicy && r < |Exec(b, run).phases|
    ensures
      var c := Exec(b, run);
      match c.phases[r]
      case Attempting(i, tried) =>
        i < |Servers(c)| && Servers(c)[i].name !in tried && Distinct(tried) && |tried| < Min(3, |Servers(b)|)
      case Admitted(tried) => Distinct(tried) && |tried| <= Min(3, |Servers(b)|)
      case _ => true
  {
    InvRun(b, run);
    var c := Exec(b, run);
    assert PhaseOk(c, c.phases[r]);
  }

  lemma NamesStay(b: Balancer, run: seq<Step>)
    requires Start(b) && DistinctNames(Servers(b))
    ensures DistinctNames(Servers(Exec(b, run)))
  {
    InvRun(b, run);
  }

  /** Under round robin with distinct names, whenever a request is about to choose and has attempts left,
      the probe finds a server. So its loop ends in every run. */
  lemma RoundRobinFindsServer(b: Balancer, run: seq<Step>, r: nat)
    requires Start(b) && b.policy == RoundRobinPolicy && DistinctNames(Servers(b))
    requires r < |Exec(b, run).phases| && Exec(b, run).phases[r].Admitted?
    ensures
      var c := Exec(b, run);
      var tried := c.phases[r].tried;
      |tried| < Min(3, |Servers(b)|) ==>
        && c.rrIdx < |Servers(c)| && Probe(Servers(c), tried, c.rrIdx, 0).Some?
        && exists k: nat :: ProbeStops(Servers(c), tried, c.rrIdx, k)
  {
    InvRun(b, run);
    NamesStay(b, run);
    var c := Exec(b, run);
    var tried := c.phases[r].tried;
    if |tried| < Min(3, |Servers(b)|) {
      ProbeFindsServer(Servers(c), tried, c.rrIdx);
      UntriedExists(Servers(c), tried);
      ProbeEndsIff(Servers(c), tried, c.rrIdx);
    }
  }

  // ----- the pigeonhole

  /** The configuration gives no limit for the proxy, and each server a positive limit or none. */
  ghost predicate DefaultLimits(b: Balancer) {
    && b.maxConn == DefaultMaxConn(Servers(b))
    && forall i :: 0 <= i < |Servers(b)| ==> Servers(b)[i].maxConn >= 1 || Servers(b)[i].maxConn == UNLIMITED
  }

  lemma {:induction false} SumLess(l: seq<int>, m: seq<int>)
    requires |l| == |m| && Sum(l) < Sum(m)
    ensures exists i :: 0 <= i < |l| && l[i] < m[i]
  {
    if l[0] >= m[0] {
      SumLess(l[1..], m[1..]);
      var i :| 0 <= i < |l[1..]| && l[1..][i] < m[1..][i];
      assert l[i + 1] < m[i + 1];
    }
  }

  /** While an admitted request has no attempt in progress, some server is below its limit. */
  lemma SomeServerHasRoom(b: Balancer, r: nat) returns (i: nat)
    requires Inv(b) && DefaultLimits(b) && Servers(b) != [] && |b.phases| < MAX_INT64
    requires r < |b.phases| && b.phases[r].Admitted?
    ensures i < |Servers(b)| && Servers(b)[i].maxConn != 0 && MayServe(Servers(b)[i], ByConnections)
  {
    var limits := Limits(Servers(b));
    if UNLIMITED in limits {
      i :| 0 <= i < |limits| && limits[i] == UNLIMITED;
      TallyAtMost(b.phases, AtServer(i));
      UnlimitedLoad(Servers(b)[i]);
    } else {
      TallyLess(b.phases, InAttempt, InGate);
      assert InAttempt(b.phases[r]) < InGate(b.phases[r]);
      LimitsSum(limits);
      SumLess(Loads(Servers(b)), limits);
      i :| 0 <= i < |limits| && Loads(Servers(b))[i] < limits[i];
      assert limits[i] == Servers(b)[i].maxConn;
      FullLoad(Servers(b)[i]);
    }
  }

  lemma {:induction false} LimitsSum(l: seq<int>)
    requires forall i :: 0 <= i < |l| ==> l[i] >= 1
    ensures Sum(l) >= |l|
  {
    if l != [] {
      LimitsSum(l[1..]);
    }
  }

  lemma UnlimitedLoad(s: Server)
    requires s.maxConn == UNLIMITED && s.connections < MAX_INT64
    ensures LoadByConn(s) < 1.0
  {
    var m := MAX_INT64 as real;
    assert s.connections as real == LoadByConn(s) * m;
  }

  /** With the limits left to their defaults and the load taken from the connections, LARD finds a
      server at the first attempt of every admitted request, and never dereferences nil there. */
  lemma FirstAttemptFindsServer(b: Balancer, run: seq<Step>, r: nat, path: string)
    requires Start(b) && b.policy == LardPolicy && b.lard.formula == ByConnections
    requires DefaultLimits(b) && Servers(b) != []
    requires r < |Exec(b, run).phases| < MAX_INT64 && Exec(b, run).phases[r] == Admitted([])
    ensures
      var c := Exec(b, run);
      && LardOk(c.lard)
      && LardPick(c.lard, path, []).choice.Chosen?
      && (forall start: nat :: start < |Servers(c)| ==> LeastLoad(Servers(c), ByConnections, start).Some?)
  {
    InvRun(b, run);
    var c := Exec(b, run);
    assert DefaultLimits(c);
    var i := SomeServerHasRoom(c, r);
    forall start: nat | start < |Servers(c)| ensures LeastLoad(Servers(c), ByConnections, start).Some? {
      LeastLoadIsLeast(Servers(c), ByConnections, start);
    }
  }
}
