/**
 Round robin: how evenly it spreads requests, and which servers one request tries.
 */
module RoundRobin {
  import opened Arithmetic
  import opened Collections
  import opened LoadBalancer

  // ----- fairness

  /** The index after `m` choices in which no server was ignored. */
  function After(servers: seq<Server>, rr: nat, m: nat): (i: nat)
    requires rr < |servers|
    ensures i < |servers|
  {
    if m == 0 then rr
    else
      var prev := After(servers, rr, m - 1);
      assert servers[(prev + 1) % |servers|].name !in [];
      Probe(servers, [], prev, 0).value
  }

  /** How often the first `m` choices took server `j`. */
  function Times(servers: seq<Server>, rr: nat, m: nat, j: nat): nat
    requires rr < |servers|
  {
    if m == 0 then 0
    else Times(servers, rr, m - 1, j) + (if After(servers, rr, m) == j then 1 else 0)
  }

  lemma NothingTried(servers: seq<Server>, rr: nat)
    requires rr < |servers|
    ensures Probe(servers, [], rr, 0) == Some((rr + 1) % |servers|)
  {
    assert servers[(rr + 1) % |servers|].name !in [];
  }

  lemma {:induction false} AfterIsRotation(servers: seq<Server>, rr: nat, m: nat)
    requires rr < |servers|
    ensures After(servers, rr, m) == (rr + m) % |servers|
  {
    var n := |servers|;
    if m > 0 {
      AfterIsRotation(servers, rr, m - 1);
      var prev := (rr + m - 1) % n;
      NothingTried(servers, prev);
      NextIndex(rr + m - 1, n);
    }
  }

  /** The choice that first takes server `j`, counted from 0. */
  function Turn(rr: nat, j: nat, n: nat): (d: nat)
    requires rr < n && j < n
    ensures d < n
  {
    if j > rr then j - rr - 1 else j - rr - 1 + n
  }

  lemma {:induction false} TurnComes(rr: nat, m: nat, j: nat, n: nat)
    requires rr < n && j < n
    ensures (rr + m + 1) % n == j <==> m % n == Turn(rr, j, n)
  {
    var q, r := m / n, m % n;
    if rr + 1 + r < n {
      DivModIs(rr + m + 1, n, q, rr + 1 + r);
    } else {
      DivModIs(rr + m + 1, n, q + 1, rr + 1 + r - n);
    }
  }

  /** After any number of choices, the count of each server is exact. */
  lemma {:induction false} TimesExact(servers: seq<Server>, rr: nat, m: nat, j: nat)
    requires rr < |servers| && j < |servers|
    ensures
      var n := |servers|;
      Times(servers, rr, m, j) == m / n + (if m % n > Turn(rr, j, n) then 1 else 0)
  {
    var n := |servers|;
    if m > 0 {
      TimesExact(servers, rr, m - 1, j);
      AfterIsRotation(servers, rr, m);
      TurnComes(rr, m - 1, j, n);
      DivModNext(m - 1, n);
    } else {
      DivModIs(0, n, 0, 0);
    }
  }

  /** After `m` choices over `n` servers, with nothing ignored, each server was chosen `m / n` times
      rounded down or up. */
  lemma RoundRobinIsFair(servers: seq<Server>, rr: nat, m: nat, j: nat)
    requires rr < |servers| && j < |servers|
    ensures
      var n := |servers|;
      && m / n <= Times(servers, rr, m, j) <= m / n + 1
      && (m % n == 0 ==> Times(servers, rr, m, j) == m / n)
  {
    TimesExact(servers, rr, m, j);
  }

  // ----- the probe loop

  predicate SomeUntried(servers: seq<Server>, tried: seq<string>) {
    exists j :: 0 <= j < |servers| && servers[j].name !in tried
  }

  /** The loop compares the next index with `rr + 1`, not reduced modulo the number of servers. */
  predicate ProbeStops(servers: seq<Server>, tried: seq<string>, rr: nat, k: nat)
    requires rr < |servers|
  {
    var j := (rr + 1 + k) % |servers|;
    servers[j].name !in tried || (k > 0 && j == rr + 1)
  }

  /** The loop ends if and only if some server was not tried or the last choice was not the last
      server of the list. */
  lemma ProbeEndsIff(servers: seq<Server>, tried: seq<string>, rr: nat)
    requires rr < |servers|
    ensures (exists k: nat :: ProbeStops(servers, tried, rr, k))
       <==> SomeUntried(servers, tried) || rr + 1 != |servers|
  {
    var n := |servers|;
    if SomeUntried(servers, tried) {
      var j :| 0 <= j < |servers| && servers[j].name !in tried;
      TurnComes(rr, Turn(rr, j, n), j, n);
      DivModIs(Turn(rr, j, n), n, 0, Turn(rr, j, n));
      assert (rr + 1 + Turn(rr, j, n)) % n == j;
      assert ProbeStops(servers, tried, rr, Turn(rr, j, n));
    } else if rr + 1 != n {
      DivModIs(rr + 1 + n, n, 1, rr + 1);
      assert ProbeStops(servers, tried, rr, n);
    }
  }

  // ----- one request

  /** The servers that one request is sent to, when each attempt may be refused. The list of tried
      names grows until a server answers or the attempts run out. */
  function Attempts(servers: seq<Server>, tried: seq<string>, rr: nat, refused: seq<bool>): (a: seq<nat>)
    requires rr < |servers|
    ensures forall i :: 0 <= i < |a| ==> a[i] < |servers|
    decreases 3 - |tried|
  {
    if |tried| >= 3 || |tried| >= |servers| then []
    else
      match Probe(servers, tried, rr, 0)
      case None => []
      case Some(i) =>
        [i] + (if refused != [] && refused[0] then Attempts(servers, tried + [servers[i].name], i, refused[1..]) else [])
  }

  function Min(a: nat, b: nat): nat {
    if a < b then a else b
  }

  predicate AllRefused(refused: seq<bool>, k: nat) {
    k <= |refused| && forall i :: 0 <= i < k ==> refused[i]
  }

  predicate DistinctNames(servers: seq<Server>) {
    forall i, j :: 0 <= i < j < |servers| ==> servers[i].name != servers[j].name
  }

  function Names(servers: seq<Server>): set<string> {
    set i | 0 <= i < |servers| :: servers[i].name
  }

  lemma {:induction false} NamesSize(servers: seq<Server>)
    requires DistinctNames(servers)
    ensures |Names(servers)| == |servers|
  {
    if servers != [] {
      var n := |servers| - 1;
      NamesSize(servers[..n]);
      assert Names(servers) == Names(servers[..n]) + {servers[n].name};
      assert servers[n].name !in Names(servers[..n]);
    }
  }

  /** As long as fewer names were tried than there are servers, some server was not tried. */
  lemma UntriedExists(servers: seq<Server>, tried: seq<string>)
    requires DistinctNames(servers) && |tried| < |servers|
    ensures SomeUntried(servers, tried)
  {
    NamesSize(servers);
    DistinctIffSize(tried);
    assert !SomeUntried(servers, tried) ==> Names(servers) <= Elements(tried);
    SubsetSize(Names(servers), Elements(tried));
  }

  lemma ProbeFindsServer(servers: seq<Server>, tried: seq<string>, rr: nat)
    requires rr < |servers| && DistinctNames(servers) && |tried| < |servers|
    ensures Probe(servers, tried, rr, 0).Some?
  {
    UntriedExists(servers, tried);
    var j :| 0 <= j < |servers| && servers[j].name !in tried;
    ProbeFindsUntried(servers, tried, rr, j);
  }

  /** The attempts after a refusal are on other servers than the one that refused. */
  lemma PrependAttempt(servers: seq<Server>, tried: seq<string>, i: nat, rest: seq<nat>)
    requires i < |servers| && servers[i].name !in tried
    requires Distinct(rest) && forall x :: 0 <= x < |rest| ==> rest[x] < |servers|
    requires forall x :: 0 <= x < |rest| ==> servers[rest[x]].name !in tried + [servers[i].name]
    ensures Distinct([i] + rest)
    ensures forall x :: 0 <= x < |[i] + rest| ==> servers[([i] + rest)[x]].name !in tried
  {
    assert servers[i].name in tried + [servers[i].name];
    assert forall n :: n in tried ==> n in tried + [servers[i].name];
  }

  /** One request is sent to different servers only, none of them tried before, to as many as refuse
      it in a row and one more, and to at most three or as many as there are. */
  lemma {:induction false} AttemptsAreDifferent(servers: seq<Server>, tried: seq<string>, rr: nat, refused: seq<bool>, k: nat)
    requires rr < |servers| && DistinctNames(servers) && |tried| <= Min(3, |servers|)
    requires AllRefused(refused, k) && (k < |refused| ==> !refused[k])
    ensures
      var a := Attempts(servers, tried, rr, refused);
      && |a| == Min(k + 1, Min(3, |servers|) - |tried|)
      && Distinct(a)
      && forall i :: 0 <= i < |a| ==> servers[a[i]].name !in tried
    decreases 3 - |tried|
  {
    if |tried| < Min(3, |servers|) {
      ProbeFindsServer(servers, tried, rr);
      var i := Probe(servers, tried, rr, 0).value;
      if k > 0 {
        AttemptsAreDifferent(servers, tried + [servers[i].name], i, refused[1..], k - 1);
        PrependAttempt(servers, tried, i, Attempts(servers, tried + [servers[i].name], i, refused[1..]));
      }
    }
  }

  /** With nothing tried before, the attempts of one request are the servers after `rr` in turn. */
  lemma {:induction false} AttemptsAreInTurn(servers: seq<Server>, tried: seq<string>, rr: nat, refused: seq<bool>, first: nat, k: nat)
    requires rr < |servers| && first < |servers| && DistinctNames(servers) && |tried| <= Min(3, |servers|)
    requires forall i :: 0 <= i < |tried| ==> tried[i] == servers[(first + 1 + i) % |servers|].name
    requires rr == (first + |tried|) % |servers|
    requires k < |Attempts(servers, tried, rr, refused)|
    ensures Attempts(servers, tried, rr, refused)[k] == (first + 1 + |tried| + k) % |servers|
    decreases k
  {
    var n := |servers|;
    var i := (first + 1 + |tried|) % n;
    NextIndex(first + |tried|, n);
    NextIsUntried(servers, tried, first);
    assert Probe(servers, tried, rr, 0) == Some(i);
    if k > 0 {
      AttemptsAreInTurn(servers, tried + [servers[i].name], i, refused[1..], first, k - 1);
    }
  }

  lemma NextIsUntried(servers: seq<Server>, tried: seq<string>, first: nat)
    requires first < |servers| && DistinctNames(servers) && |tried| < |servers|
    requires forall i :: 0 <= i < |tried| ==> tried[i] == servers[(first + 1 + i) % |servers|].name
    ensures servers[(first + 1 + |tried|) % |servers|].name !in tried
  {
    var n := |servers|;
    forall i | 0 <= i < |tried| ensures tried[i] != servers[(first + 1 + |tried|) % n].name {
      DifferentTurns(first + 1, i, |tried|, n);
    }
  }

  lemma DifferentTurns(a: nat, i: nat, k: nat, n: nat)
    requires i < k < n
    ensures (a + i) % n != (a + k) % n
  {
    if (a + i) % n == (a + k) % n {
      var q, p := (a + i) / n, (a + k) / n;
      MulOrder(q, p, n);
      MulOrder(p, q, n);
    }
  }
}
