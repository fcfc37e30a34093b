/**
 The load balancer: the defaults of its configuration, the load formulas, and the choices of a
 server by least load, by LARD and by round robin.
 */
module LoadBalancer {
  import opened Arithmetic
  import opened Collections

  const MAX_INT64: int := 0x7FFF_FFFF_FFFF_FFFF

  const UNLIMITED := -1

  datatype Formula =
    | AverageResource
    | AverageResourceConnections
    | DominantResource
    | DominantResourceConnections
    | ByConnections

  datatype Server = Server(name: string, maxConn: int, cpu: real, mem: real, connections: int)

  // ----- defaults

  function DefaultServer(s: Server): Server {
    if s.maxConn == 0 then s.(maxConn := UNLIMITED) else s
  }

  function Limits(servers: seq<Server>): (l: seq<int>)
    ensures |l| == |servers| && forall i :: 0 <= i < |l| ==> l[i] == servers[i].maxConn
  {
    seq(|servers|, i requires 0 <= i < |servers| => servers[i].maxConn)
  }

  function Loads(servers: seq<Server>): (l: seq<int>)
    ensures |l| == |servers| && forall i :: 0 <= i < |l| ==> l[i] == servers[i].connections
  {
    seq(|servers|, i requires 0 <= i < |servers| => servers[i].connections)
  }

  /** The proxy's limit when the configuration gives none: none either if some server has none,
      and the sum of the servers' limits otherwise. */
  function DefaultMaxConn(servers: seq<Server>): int {
    if servers == [] || UNLIMITED in Limits(servers) then UNLIMITED else Sum(Limits(servers))
  }

  // ----- load

  function LoadByConn(s: Server): real
    requires s.maxConn != 0
  {
    if s.maxConn == UNLIMITED then s.connections as real / MAX_INT64 as real
    else s.connections as real / s.maxConn as real
  }

  function MaxReal(a: real, b: real): real {
    if a < b then b else a
  }

  function Load(s: Server, f: Formula): real
    requires s.maxConn != 0
  {
    match f
    case AverageResource => 0.5 * s.mem + 0.5 * s.cpu
    case AverageResourceConnections => (s.mem + s.cpu + LoadByConn(s)) / 3.0
    case DominantResource => MaxReal(s.mem, s.cpu)
    case DominantResourceConnections => MaxReal(MaxReal(s.mem, s.cpu), LoadByConn(s))
    case ByConnections => LoadByConn(s)
  }

  // ----- what the formulas mean

  /** The share of connections is nothing without one and the whole at the limit, and each further
      connection adds as much as the one before. */
  lemma ConnectionsFormula(s: Server)
    requires s.maxConn != 0
    ensures Load(s.(connections := 0), ByConnections) == 0.0
    ensures s.maxConn != -1 ==> Load(s.(connections := s.maxConn), ByConnections) == 1.0
    ensures s.maxConn == -1 ==> Load(s.(connections := 0x7FFF_FFFF_FFFF_FFFF), ByConnections) == 1.0
    ensures Load(s.(connections := s.connections + 1), ByConnections) - Load(s, ByConnections)
         == Load(s.(connections := 1), ByConnections)
  {
  }

  /** The average of equal usages is their value, and shifting usage from one to the other leaves it alone. */
  lemma AverageFormula(s: Server, d: real)
    requires s.maxConn != 0
    ensures Load(s.(cpu := d, mem := d), AverageResource) == d
    ensures Load(s.(cpu := s.cpu + d, mem := s.mem - d), AverageResource) == Load(s, AverageResource)
  {
  }

  /** The same for three, of which the share of connections is one. */
  lemma AverageOfThreeFormula(s: Server, d: real)
    requires s.maxConn != 0
    ensures
      var share := Load(s, ByConnections);
      Load(s.(cpu := share, mem := share), AverageResourceConnections) == share
    ensures Load(s.(cpu := s.cpu + 3.0 * d), AverageResourceConnections) == Load(s, AverageResourceConnections) + d
    ensures Load(s.(mem := s.mem + 3.0 * d), AverageResourceConnections) == Load(s, AverageResourceConnections) + d
  {
  }

  /** The dominant usage is one of them, and none is above it. */
  lemma DominantFormula(s: Server)
    requires s.maxConn != 0
    ensures
      var load := Load(s, DominantResource);
      load >= s.cpu && load >= s.mem && (load == s.cpu || load == s.mem)
    ensures
      var load := Load(s, DominantResourceConnections);
      var share := Load(s, ByConnections);
      && load >= s.cpu && load >= s.mem && load >= share
      && (load == s.cpu || load == s.mem || load == share)
  {
  }

  predicate Full(s: Server) {
    s.maxConn != UNLIMITED && s.connections >= s.maxConn
  }

  /** The least-load scan skips only the servers above their limit. */
  predicate Skipped(s: Server) {
    s.maxConn != UNLIMITED && s.connections > s.maxConn
  }

  predicate Configured(servers: seq<Server>) {
    forall i :: 0 <= i < |servers| ==> servers[i].maxConn != 0
  }

  // ----- least load

  /** The `i`th server of a scan that starts at `start`. */
  function Rotated(start: nat, i: nat, n: nat): (j: nat)
    requires start < n && i < n
    ensures j < n
  {
    (start + i) % n
  }

  predicate Candidate(servers: seq<Server>, f: Formula, j: nat)
    requires Configured(servers)
  {
    j < |servers| && !Skipped(servers[j]) && Load(servers[j], f) < 1.0
  }

  /** What the scan has found after `k` servers. */
  function LeastUpTo(servers: seq<Server>, f: Formula, start: nat, k: nat): (best: Option<nat>)
    requires Configured(servers) && start < |servers| && k <= |servers|
    ensures best.Some? ==> Candidate(servers, f, best.value)
  {
    if k == 0 then None
    else
      var best := LeastUpTo(servers, f, start, k - 1);
      var j := Rotated(start, k - 1, |servers|);
      if Candidate(servers, f, j) && (best.Some? ==> Load(servers[j], f) < Load(servers[best.value], f))
      then Some(j) else best
  }

  function LeastLoad(servers: seq<Server>, f: Formula, start: nat): (best: Option<nat>)
    requires Configured(servers) && start < |servers|
    ensures best.Some? ==> Candidate(servers, f, best.value)
  {
    LeastUpTo(servers, f, start, |servers|)
  }

  /** A position of the scan for each server. */
  function Position(start: nat, j: nat, n: nat): (i: nat)
    requires start < n && j < n
    ensures i < n
  {
    if start <= j then j - start else j - start + n
  }

  lemma PositionInverts(start: nat, j: nat, n: nat)
    requires start < n && j < n
    ensures Rotated(start, Position(start, j, n), n) == j
  {
    Wrap(start, Position(start, j, n), n);
  }

  lemma {:induction false} LeastUpToIsLeast(servers: seq<Server>, f: Formula, start: nat, k: nat, i: nat)
    requires Configured(servers) && start < |servers| && i < k <= |servers|
    ensures
      var best := LeastUpTo(servers, f, start, k);
      var j := Rotated(start, i, |servers|);
      Candidate(servers, f, j) ==>
        best.Some? && Load(servers[best.value], f) <= Load(servers[j], f)
  {
    if i < k - 1 {
      LeastUpToIsLeast(servers, f, start, k - 1, i);
    }
  }

  /** What the scan has found stands at its first place in the scan, in front of all that are no better. */
  lemma {:induction false} LeastUpToIsFirst(servers: seq<Server>, f: Formula, start: nat, k: nat, i: nat)
    requires Configured(servers) && start < |servers| && i < k <= |servers|
    ensures
      var best := LeastUpTo(servers, f, start, k);
      var j := Rotated(start, i, |servers|);
      best.Some? ==>
        && Position(start, best.value, |servers|) < k
        && (Candidate(servers, f, j) && i < Position(start, best.value, |servers|) ==>
              Load(servers[best.value], f) < Load(servers[j], f))
  {
    var n := |servers|;
    Wrap(start, k - 1, n);
    if k > 1 {
      LeastUpToIsFirst(servers, f, start, k - 1, if i < k - 1 then i else 0);
    }
    if i < k - 1 {
      LeastUpToIsLeast(servers, f, start, k - 1, i);
    }
  }

  /** The scan finds a server exactly when some server that is not above its limit has load below one, and
      then one of least load among all of them: the first one from the start of the scan on. */
  lemma LeastLoadIsLeast(servers: seq<Server>, f: Formula, start: nat)
    requires Configured(servers) && start < |servers|
    ensures
      var best := LeastLoad(servers, f, start);
      && (best.Some? <==> exists j :: 0 <= j < |servers| && MayServe(servers[j], f))
      && (best.Some? ==>
            && best.value < |servers| && MayServe(servers[best.value], f)
            && (forall j :: 0 <= j < |servers| && MayServe(servers[j], f) ==>
                  && Load(servers[best.value], f) <= Load(servers[j], f)
                  && (Position(start, j, |servers|) < Position(start, best.value, |servers|) ==>
                        Load(servers[best.value], f) < Load(servers[j], f))))
  {
    var best := LeastLoad(servers, f, start);
    forall j | 0 <= j < |servers| && MayServe(servers[j], f)
      ensures
        && best.Some? && Load(servers[best.value], f) <= Load(servers[j], f)
        && (Position(start, j, |servers|) < Position(start, best.value, |servers|) ==>
              Load(servers[best.value], f) < Load(servers[j], f))
    {
      PositionInverts(start, j, |servers|);
      assert Candidate(servers, f, j);
      LeastUpToIsLeast(servers, f, start, |servers|, Position(start, j, |servers|));
      LeastUpToIsFirst(servers, f, start, |servers|, Position(start, j, |servers|));
    }
  }

  /** A server that the scan may choose. */
  predicate MayServe(s: Server, f: Formula)
    requires s.maxConn != 0
  {
    (s.maxConn == -1 || s.connections <= s.maxConn) && Load(s, f) < 1.0
  }

  // ----- LARD

  datatype Choice = Chosen(server: nat) | NoServer | Panic

  /** A choice, and whether it moved the start of the next least-load scan. */
  datatype Pick = Pick(choice: Choice, moved: bool)

  datatype Lard = Lard(
    servers: seq<Server>,
    formula: Formula,
    loadHigh: real,
    loadLow: real,
    leastIdx: nat,
    targets: map<string, nat>)

  predicate LardOk(l: Lard) {
    && l.servers != [] && Configured(l.servers) && l.leastIdx < |l.servers|
    && forall p :: p in l.targets ==> l.targets[p] < |l.servers|
  }

  predicate IsTried(l: Lard, i: nat, tried: seq<string>) {
    i < |l.servers| && l.servers[i].name in tried
  }

  /** Taking the load of the least loaded server when there is none dereferences nil, and so does
      comparing its name to a list that is not empty. */
  function LardPick(l: Lard, path: string, tried: seq<string>): Pick
    requires LardOk(l)
  {
    var next := LeastLoad(l.servers, l.formula, l.leastIdx);
    var choice := match next case Some(i) => Chosen(i) case None => NoServer;
    if path !in l.targets then Pick(choice, true)
    else
      var target := l.targets[path];
      var load := Load(l.servers[target], l.formula);
      var least := LeastLoad(l.servers, l.formula, 0);
      if load >= l.loadHigh && least.None? then Pick(Panic, false)
      else if (load >= l.loadHigh && Load(l.servers[least.value], l.formula) < l.loadLow)
              || load >= 2.0 * l.loadHigh
              || Full(l.servers[target]) then
        if next.None? && tried != [] then Pick(Panic, true)
        else if next.Some? && IsTried(l, next.value, tried) then Pick(NoServer, true)
        else Pick(choice, true)
      else if IsTried(l, target, tried) then Pick(NoServer, false)
      else Pick(Chosen(target), false)
  }

  function Connect(servers: seq<Server>, i: nat): seq<Server>
    requires i < |servers|
  {
    servers[i := servers[i].(connections := servers[i].connections + 1)]
  }

  function LardStep(l: Lard, path: string, tried: seq<string>): Lard
    requires LardOk(l)
  {
    var pick := LardPick(l, path, tried);
    var l' := if pick.moved then l.(leastIdx := (l.leastIdx + 1) % |l.servers|) else l;
    if pick.choice.Chosen? && pick.choice.server < |l.servers| then
      l'.(servers := Connect(l.servers, pick.choice.server), targets := l.targets[path := pick.choice.server])
    else l'
  }

  predicate ByLoadOfConnections(f: Formula) {
    f == ByConnections || f == DominantResourceConnections
  }

  /** Whoever LARD picks is within its limit, and below it when the formula looks at connections
      or the pick is the target that the path already had. */
  lemma LardPickIsBelowLimit(l: Lard, path: string, tried: seq<string>)
    requires LardOk(l) && LardPick(l, path, tried).choice.Chosen?
    ensures
      var i := LardPick(l, path, tried).choice.server;
      && i < |l.servers| && !Skipped(l.servers[i])
      && (l.servers[i].maxConn >= 1 && ByLoadOfConnections(l.formula) ==> l.servers[i].connections < l.servers[i].maxConn)
      && !IsTried(l, i, if path in l.targets then tried else [])
  {
    var i := LardPick(l, path, tried).choice.server;
    if l.servers[i].maxConn >= 1 && ByLoadOfConnections(l.formula) && !Full(l.servers[i]) {
    } else if l.servers[i].maxConn >= 1 && ByLoadOfConnections(l.formula) {
      FullLoad(l.servers[i]);
    }
  }

  lemma FullLoad(s: Server)
    requires s.maxConn >= 1
    ensures LoadByConn(s) < 1.0 <==> s.connections < s.maxConn
  {
    var m := s.maxConn as real;
    assert s.connections as real == LoadByConn(s) * m;
    if LoadByConn(s) < 1.0 {
      assert LoadByConn(s) * m < 1.0 * m;
    } else {
      assert LoadByConn(s) * m >= 1.0 * m;
    }
  }

  // ----- round robin

  /** The first server that was not tried, from the one after `rr` on, in at most `n` probes. */
  function Probe(servers: seq<Server>, tried: seq<string>, rr: nat, k: nat): (i: Option<nat>)
    requires rr < |servers| && k <= |servers|
    ensures i.Some? ==> i.value < |servers| && servers[i.value].name !in tried
    decreases |servers| - k
  {
    if k == |servers| then None
    else
      var j := (rr + 1 + k) % |servers|;
      if servers[j].name !in tried then Some(j) else Probe(servers, tried, rr, k + 1)
  }

  /** With a server left that was not tried, the probes find one. */
  lemma {:induction false} ProbeFinds(servers: seq<Server>, tried: seq<string>, rr: nat, k: nat, j: nat, i: nat)
    requires rr < |servers| && k <= i < |servers| && j == (rr + 1 + i) % |servers|
    requires servers[j].name !in tried
    ensures Probe(servers, tried, rr, k).Some?
    decreases |servers| - k
  {
    if k < i {
      ProbeFinds(servers, tried, rr, k + 1, j, i);
    }
  }

  lemma ProbeFindsUntried(servers: seq<Server>, tried: seq<string>, rr: nat, j: nat)
    requires rr < |servers| && j < |servers| && servers[j].name !in tried
    ensures Probe(servers, tried, rr, 0).Some?
  {
    var n := |servers|;
    if j > rr {
      DivModIs(j, n, 0, j);
      ProbeFinds(servers, tried, rr, 0, j, j - rr - 1);
    } else {
      DivModIs(j + n, n, 1, j);
      ProbeFinds(servers, tried, rr, 0, j, j + n - rr - 1);
    }
  }

  /** The `k`th probe after `rr` is at place `k` from the server after `rr` on. */
  lemma ProbePlace(rr: nat, k: nat, n: nat)
    requires rr < n && k < n
    ensures (rr + 1) % n < n && (rr + 1 + k) % n < n && Position((rr + 1) % n, (rr + 1 + k) % n, n) == k
  {
    if rr + 1 < n {
      Wrap(rr + 1, 0, n);
      Wrap(rr + 1, k, n);
    } else {
      Wrap(rr, 1, n);
      DivModIs(rr + 1 + k, n, 1, k);
    }
  }

  lemma {:induction false} ProbeFromPlace(servers: seq<Server>, tried: seq<string>, rr: nat, k: nat)
    requires rr < |servers| && k <= |servers| && Probe(servers, tried, rr, k).Some?
    ensures (rr + 1) % |servers| < |servers|
    ensures
      var start := (rr + 1) % |servers|;
      var i := Probe(servers, tried, rr, k).value;
      forall j :: 0 <= j < |servers| && k <= Position(start, j, |servers|) < Position(start, i, |servers|) ==>
        servers[j].name in tried
    decreases |servers| - k
  {
    ProbePlace(rr, k, |servers|);
    if servers[(rr + 1 + k) % |servers|].name in tried {
      ProbeFromPlace(servers, tried, rr, k + 1);
    }
    var start := (rr + 1) % |servers|;
    forall j | 0 <= j < |servers| && Position(start, j, |servers|) == k ensures j == (rr + 1 + k) % |servers| {
      SamePlace(start, j, (rr + 1 + k) % |servers|, |servers|);
    }
  }

  lemma SamePlace(start: nat, i: nat, j: nat, n: nat)
    requires start < n && i < n && j < n && Position(start, i, n) == Position(start, j, n)
    ensures i == j
  {
  }

  /** The probe takes the next server after `rr`, around the list, that was not tried. */
  lemma ProbeIsNext(servers: seq<Server>, tried: seq<string>, rr: nat)
    requires rr < |servers| && Probe(servers, tried, rr, 0).Some?
    ensures (rr + 1) % |servers| < |servers|
    ensures
      var start := (rr + 1) % |servers|;
      var i := Probe(servers, tried, rr, 0).value;
      && servers[i].name !in tried
      && forall j :: 0 <= j < |servers| && Position(start, j, |servers|) < Position(start, i, |servers|) ==>
           servers[j].name in tried
  {
    ProbeFromPlace(servers, tried, rr, 0);
  }
}
