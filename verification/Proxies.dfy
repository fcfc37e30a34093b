/**
 The proxy as an object: its servers, the targets of paths and its indices are updated in place
 by the methods below, each proved against the functions of `LoadBalancer` and `RoundRobin`.
 */
module Proxies {
  import opened Arithmetic
  import opened Collections
  import opened LoadBalancer
  import opened RoundRobin

  class Proxy {
    var servers: seq<Server>
    var formula: Formula
    var loadHigh: real
    var loadLow: real
    var targets: map<string, nat>
    var maxConn: int
    var leastIdx: nat
    var rrIdx: nat

    function LardState(): Lard
      reads this
    {
      Lard(servers, formula, loadHigh, loadLow, leastIdx, targets)
    }

    constructor (servers: seq<Server>, formula: Formula, loadHigh: real, loadLow: real, maxConn: int)
      ensures this.servers == servers && this.maxConn == maxConn
      ensures LardState() == Lard(servers, formula, loadHigh, loadLow, 0, map[]) && rrIdx == 0
    {
      this.servers, this.formula, this.maxConn := servers, formula, maxConn;
      this.loadHigh, this.loadLow := loadHigh, loadLow;
      targets, leastIdx, rrIdx := map[], 0, 0;
    }

    /** Fills in the limits and the thresholds that the configuration leaves at zero. */
    method SetDefaultValues()
      modifies this`servers, this`maxConn, this`loadHigh, this`loadLow
      ensures |servers| == |old(servers)| && Configured(servers)
      ensures forall i :: 0 <= i < |servers| ==>
                var s := old(servers)[i];
                servers[i] == if s.maxConn == 0 then s.(maxConn := -1) else s
      ensures old(maxConn) != 0 ==> maxConn == old(maxConn)
      ensures old(maxConn) == 0 && (servers == [] || exists i :: 0 <= i < |servers| && servers[i].maxConn == -1) ==> maxConn == -1
      ensures old(maxConn) == 0 && servers != [] && (forall i :: 0 <= i < |servers| ==> servers[i].maxConn != -1) ==>
                maxConn == Sum(Limits(servers))
      ensures loadHigh == (if old(loadHigh) == 0.0 then 0.4 else old(loadHigh))
      ensures loadLow == (if old(loadLow) == 0.0 then 0.2 else old(loadLow))
    {
      for i := 0 to |servers|
        invariant |servers| == |old(servers)|
        invariant forall k :: 0 <= k < i ==> servers[k] == DefaultServer(old(servers)[k])
        invariant forall k :: i <= k < |servers| ==> servers[k] == old(servers)[k]
        invariant maxConn == old(maxConn) && loadHigh == old(loadHigh) && loadLow == old(loadLow)
      {
        if servers[i].maxConn == 0 {
          servers := servers[i := servers[i].(maxConn := UNLIMITED)];
        }
      }
      if loadHigh == 0.0 {
        loadHigh := 0.4;
      }
      if loadLow == 0.0 {
        loadLow := 0.2;
      }
      if maxConn == 0 {
        if servers == [] {
          maxConn := UNLIMITED;
        } else {
          SumLimits();
        }
      }
    }

    method SumLimits()
      requires maxConn == 0 && servers != []
      modifies this`maxConn
      ensures maxConn == DefaultMaxConn(servers)
    {
      var limits := Limits(servers);
      for i := 0 to |servers|
        invariant maxConn == Sum(limits[..i])
        invariant UNLIMITED !in limits[..i]
      {
        if servers[i].maxConn == UNLIMITED {
          maxConn := UNLIMITED;
          assert limits[i] in limits;
          return;
        }
        maxConn := maxConn + servers[i].maxConn;
        assert limits[..i + 1] == limits[..i] + [limits[i]];
        SumConcat(limits[..i], [limits[i]]);
        assert Sum([limits[i]]) == limits[i] + Sum([limits[i]][1..]);
      }
      assert limits[..|limits|] == limits;
    }

    method GetLeastLoad(moveIndex: bool) returns (target: Option<nat>)
      requires LardOk(LardState())
      modifies this`leastIdx
      ensures target == LeastLoad(servers, formula, if moveIndex then old(leastIdx) else 0)
      ensures target.Some? <==> exists j :: 0 <= j < |servers| && MayServe(servers[j], formula)
      ensures leastIdx == if moveIndex then (old(leastIdx) + 1) % |servers| else old(leastIdx)
    {
      target := None;
      var minLoad := 1.0;
      var start := 0;
      if moveIndex {
        start := leastIdx;
        leastIdx := (leastIdx + 1) % |servers|;
      }
      for i := 0 to |servers|
        invariant target == LeastUpTo(servers, formula, start, i)
        invariant minLoad == if target.Some? then Load(servers[target.value], formula) else 1.0
      {
        var j := (start + i) % |servers|;
        var server := servers[j];
        if server.maxConn != UNLIMITED && server.connections > server.maxConn {
          continue;
        }
        var load := Load(server, formula);
        if load < minLoad {
          minLoad, target := load, Some(j);
        }
      }
      LeastLoadIsLeast(servers, formula, start);
    }

    method LardChooseServer(tried: seq<string>, path: string) returns (choice: Choice)
      requires LardOk(LardState())
      modifies this
      ensures choice == LardPick(old(LardState()), path, tried).choice
      ensures LardState() == LardStep(old(LardState()), path, tried)
    {
      var target: Option<nat>;
      if path in targets {
        target := Some(targets[path]);
        var server := servers[targets[path]];
        var move := false;
        if Load(server, formula) >= loadHigh {
          var least := GetLeastLoad(false);
          if least.None? {
            return Panic;
          }
          move := Load(servers[least.value], formula) < loadLow;
        }
        if move || Load(server, formula) >= 2.0 * loadHigh
           || (server.maxConn != UNLIMITED && server.connections >= server.maxConn) {
          target := GetLeastLoad(true);
        }
        if tried != [] {
          if target.None? {
            return Panic;
          }
          if servers[target.value].name in tried {
            target := None;
          }
        }
      } else {
        target := GetLeastLoad(true);
      }
      if target.None? {
        return NoServer;
      }
      servers := Connect(servers, target.value);
      targets := targets[path := target.value];
      return Chosen(target.value);
    }

    /** The condition under which the loop ends, as `ProbeEndsIff` states it. */
    method RoundRobinChooseServer(tried: seq<string>) returns (chosen: Option<nat>)
      requires servers != [] ==> rrIdx < |servers|
      requires servers != [] ==> SomeUntried(servers, tried) || rrIdx + 1 != |servers|
      modifies this`servers, this`rrIdx
      ensures old(servers) == [] ==> chosen == None
      ensures old(servers) != [] ==> chosen == Probe(old(servers), tried, old(rrIdx), 0)
      ensures chosen.Some? ==> servers == Connect(old(servers), chosen.value) && rrIdx == chosen.value
      ensures chosen.None? ==> servers == old(servers) && rrIdx == old(rrIdx)
    {
      if servers == [] {
        return None;
      }
      var first := true;
      var next := (rrIdx + 1) % |servers|;
      ghost var k := 0;
      while first || next != rrIdx + 1
        invariant servers == old(servers) && rrIdx == old(rrIdx)
        invariant k <= |servers| && first == (k == 0) && next == ProbeIndex(rrIdx, k, |servers|)
        invariant Probe(servers, tried, rrIdx, 0) == Probe(servers, tried, rrIdx, k)
        decreases |servers| - k
      {
        MoreToProbe(servers, tried, rrIdx, k);
        if servers[next].name in tried {
          first := false;
          NextProbe(servers, tried, rrIdx, k);
          next := (next + 1) % |servers|;
          k := k + 1;
          continue;
        }
        rrIdx := next;
        servers := Connect(servers, next);
        return Some(next);
      }
      BackAtStart(rrIdx, k, |servers|);
      return None;
    }

    /** One request under round robin. `refused[i]` tells whether the `i`th attempt is refused; the
        connections of all servers are back where they were. */
    method AttemptServers(tried: seq<string>, refused: seq<bool>) returns (sent: seq<nat>)
      requires servers != [] && rrIdx < |servers| && DistinctNames(servers)
      modifies this`servers, this`rrIdx
      ensures sent == Attempts(old(servers), tried, old(rrIdx), refused)
      ensures servers == old(servers) && rrIdx < |servers|
      decreases 3 - |tried|
    {
      if |tried| >= 3 || |tried| >= |servers| {
        return [];
      }
      UntriedExists(servers, tried);
      ProbeFindsServer(servers, tried, rrIdx);
      var chosen := RoundRobinChooseServer(tried);
      var i := chosen.value;
      servers := servers[i := servers[i].(connections := servers[i].connections - 1)];
      assert servers == old(servers);
      if refused != [] && refused[0] {
        var rest := AttemptServers(tried + [servers[i].name], refused[1..]);
        return [i] + rest;
      }
      return [i];
    }
  }

  function ProbeIndex(rr: nat, k: nat, n: nat): (i: nat)
    requires n > 0
    ensures i < n
  {
    (rr + 1 + k) % n
  }

  /** The probe goes on after a server that was tried. */
  lemma NextProbe(servers: seq<Server>, tried: seq<string>, rr: nat, k: nat)
    requires rr < |servers| && k < |servers| && servers[ProbeIndex(rr, k, |servers|)].name in tried
    ensures (ProbeIndex(rr, k, |servers|) + 1) % |servers| == ProbeIndex(rr, k + 1, |servers|)
    ensures Probe(servers, tried, rr, k) == Probe(servers, tried, rr, k + 1)
  {
    NextIndex(rr + 1 + k, |servers|);
  }

  /** Inside the loop, fewer than all servers have been probed. */
  lemma MoreToProbe(servers: seq<Server>, tried: seq<string>, rr: nat, k: nat)
    requires rr < |servers| && k <= |servers|
    requires SomeUntried(servers, tried) || rr + 1 != |servers|
    requires Probe(servers, tried, rr, 0) == Probe(servers, tried, rr, k)
    requires k == 0 || ProbeIndex(rr, k, |servers|) != rr + 1
    ensures k < |servers|
  {
    if SomeUntried(servers, tried) {
      var j :| 0 <= j < |servers| && servers[j].name !in tried;
      ProbeFindsUntried(servers, tried, rr, j);
    } else {
      DivModIs(rr + 1 + |servers|, |servers|, 1, rr + 1);
    }
  }

  /** The walk is back at the server after `rr` only after a full circle. */
  lemma BackAtStart(rr: nat, k: nat, n: nat)
    requires rr < n && 0 < k <= n && ProbeIndex(rr, k, n) == rr + 1
    ensures k == n
  {
    if k < n && rr + 1 + k < n {
      DivModIs(rr + 1 + k, n, 0, rr + 1 + k);
    } else if k < n {
      DivModIs(rr + 1 + k, n, 1, rr + 1 + k - n);
    }
  }
}
