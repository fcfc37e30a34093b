/**
 What LARD decides, in terms of the loads, the thresholds and the limits: when a known path leaves its
 target, where it goes, and when the choice fails or dereferences nil.
 */
module LardChoices {
  import opened Arithmetic
  import opened Collections
  import opened LoadBalancer

  /** Nobody may serve, or `i` is the first of least load from the start of the scan on. */
  ghost predicate FirstLeast(servers: seq<Server>, f: Formula, start: nat, i: Option<nat>)
    requires Configured(servers) && start < |servers|
  {
    match i
    case None => forall j :: 0 <= j < |servers| ==> !MayServe(servers[j], f)
    case Some(w) =>
      && w < |servers| && MayServe(servers[w], f)
      && forall j :: 0 <= j < |servers| && MayServe(servers[j], f) ==>
           && Load(servers[w], f) <= Load(servers[j], f)
           && (Position(start, j, |servers|) < Position(start, w, |servers|) ==> Load(servers[w], f) < Load(servers[j], f))
  }

  /** The state after a choice: the server gains a connection and becomes the target, or nothing does; the
      next scan starts one further on if this choice scanned from the moving start. */
  ghost predicate Becomes(l: Lard, l': Lard, path: string, choice: Choice, scanned: bool)
    requires LardOk(l)
  {
    && l'.formula == l.formula && l'.loadHigh == l.loadHigh && l'.loadLow == l.loadLow
    && l'.leastIdx == (if scanned then (if l.leastIdx + 1 == |l.servers| then 0 else l.leastIdx + 1) else l.leastIdx)
    && match choice
       case Chosen(i) =>
         && i < |l.servers| == |l'.servers|
         && (forall j :: 0 <= j < |l.servers| ==>
               l'.servers[j] == l.servers[j].(connections := l.servers[j].connections + (if j == i then 1 else 0)))
         && path in l'.targets && l'.targets[path] == i
         && l'.targets.Keys == l.targets.Keys + {path}
         && forall p :: p in l.targets && p != path ==> l'.targets[p] == l.targets[p]
       case _ => l'.servers == l.servers && l'.targets == l.targets
  }

  lemma NextStart(l: Lard)
    requires LardOk(l)
    ensures (l.leastIdx + 1) % |l.servers| == if l.leastIdx + 1 == |l.servers| then 0 else l.leastIdx + 1
  {
    Wrap(l.leastIdx, 1, |l.servers|);
  }

  lemma StepBecomes(l: Lard, path: string, tried: seq<string>)
    requires LardOk(l)
    ensures
      var pick := LardPick(l, path, tried);
      (pick.choice.Chosen? ==> pick.choice.server < |l.servers|) && Becomes(l, LardStep(l, path, tried), path, pick.choice, pick.moved)
  {
    NextStart(l);
    LeastLoadIsLeast(l.servers, l.formula, l.leastIdx);
  }

  /** A path without a target goes to the first least loaded server from the moving start on. */
  lemma NewPath(l: Lard, path: string, tried: seq<string>)
    requires LardOk(l) && path !in l.targets
    ensures
      var choice := LardPick(l, path, tried).choice;
      && choice != Panic && Becomes(l, LardStep(l, path, tried), path, choice, true)
      && FirstLeast(l.servers, l.formula, l.leastIdx, if choice.Chosen? then Some(choice.server) else None)
  {
    StepBecomes(l, path, tried);
    LeastLoadIsLeast(l.servers, l.formula, l.leastIdx);
  }

  /** Some server that may serve has less than the low load. */
  ghost predicate SomeIsIdle(l: Lard)
    requires LardOk(l)
  {
    exists j :: 0 <= j < |l.servers| && MayServe(l.servers[j], l.formula) && Load(l.servers[j], l.formula) < l.loadLow
  }

  ghost predicate NobodyMayServe(l: Lard)
    requires LardOk(l)
  {
    forall j :: 0 <= j < |l.servers| ==> !MayServe(l.servers[j], l.formula)
  }

  lemma LeastIsIdleIff(l: Lard)
    requires LardOk(l)
    ensures
      var least := LeastLoad(l.servers, l.formula, 0);
      && (least.None? <==> NobodyMayServe(l))
      && (least.Some? ==> (Load(l.servers[least.value], l.formula) < l.loadLow <==> SomeIsIdle(l)))
  {
    LeastLoadIsLeast(l.servers, l.formula, 0);
  }

  /** A known path leaves its target if and only if the target has the high load while some server has less
      than the low one, or it has twice the high load, or it is at its limit. It then goes to the first least
      loaded server, which becomes its target; otherwise it keeps its target. A server that was tried is
      refused. Nil is dereferenced if and only if nobody may serve, and the target has the high load, or
      the path leaves its target with some server tried. */
  lemma KnownPathMovesIff(l: Lard, path: string, tried: seq<string>)
    requires LardOk(l) && path in l.targets
    ensures
      var t := l.targets[path];
      var s := l.servers[t];
      var load := Load(s, l.formula);
      var leaves := (load >= l.loadHigh && SomeIsIdle(l)) || load >= 2.0 * l.loadHigh
                    || (s.maxConn != -1 && s.connections >= s.maxConn);
      var choice := LardPick(l, path, tried).choice;
      && (choice == Panic <==> NobodyMayServe(l) && (load >= l.loadHigh || (leaves && tried != [])))
      && (choice != Panic ==> Becomes(l, LardStep(l, path, tried), path, choice, leaves))
      && (choice != Panic && !leaves ==> choice == if s.name in tried then NoServer else Chosen(t))
      && (choice != Panic && leaves ==>
            exists w: Option<nat> :: FirstLeast(l.servers, l.formula, l.leastIdx, w)
              && choice == if w.Some? && w.value < |l.servers| && l.servers[w.value].name !in tried
                           then Chosen(w.value) else NoServer)
  {
    StepBecomes(l, path, tried);
    LeastIsIdleIff(l);
    LeastLoadIsLeast(l.servers, l.formula, l.leastIdx);
    assert FirstLeast(l.servers, l.formula, l.leastIdx, LeastLoad(l.servers, l.formula, l.leastIdx));
  }

  /** The thresholds at work: with loads nine and five of ten, the path leaves for the other server. */
  lemma TwiceTheHighLoadLeaves()
    ensures
      var a, b := Server("a", 10, 0.0, 0.0, 9), Server("b", 10, 0.0, 0.0, 5);
      var l := Lard([a, b], ByConnections, 0.4, 0.2, 0, map["p" := 0]);
      && LardOk(l) && LardPick(l, "p", []).choice == Chosen(1)
      && "p" in LardStep(l, "p", []).targets && LardStep(l, "p", []).targets["p"] == 1
  {
    var a, b := Server("a", 10, 0.0, 0.0, 9), Server("b", 10, 0.0, 0.0, 5);
    var l := Lard([a, b], ByConnections, 0.4, 0.2, 0, map["p" := 0]);
    KnownPathMovesIff(l, "p", []);
    assert Load(l.servers[0], l.formula) == 0.9 && Load(l.servers[1], l.formula) == 0.5;
    assert MayServe(l.servers[1], l.formula);
  }
}
