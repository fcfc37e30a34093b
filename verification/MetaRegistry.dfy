/**
 The meta registry: which packages each handler depends on, and back, kept as lists of ids with
 one table of names per kind.
 */
module MetaRegistry {
  import opened Collections

  // ----- what the registry stands for

  datatype Entry = Entry(handler: string, deps: seq<string>)

  predicate Registered(log: seq<Entry>, handler: string) {
    exists i :: 0 <= i < |log| && log[i].handler == handler
  }

  /** A second push of a handler is refused. */
  function Accept(log: seq<Entry>, e: Entry): seq<Entry> {
    if Registered(log, e.handler) then log else log + [e]
  }

  function LogOf(pushes: seq<Entry>): seq<Entry> {
    if pushes == [] then [] else Accept(LogOf(pushes[..|pushes| - 1]), pushes[|pushes| - 1])
  }

  /** Nothing for an unknown handler, as for one without dependencies. */
  function DepsOf(log: seq<Entry>, handler: string): seq<string> {
    if log == [] then []
    else if log[|log| - 1].handler == handler then log[|log| - 1].deps
    else DepsOf(log[..|log| - 1], handler)
  }

  function Repeat<T>(x: T, n: nat): (s: seq<T>)
    ensures |s| == n && forall i :: 0 <= i < n ==> s[i] == x
  {
    seq(n, _ => x)
  }

  /** The ids of the handlers that use a package, each as often as it names the package. */
  function UserIds(log: seq<Entry>, package: string): seq<nat> {
    if log == [] then []
    else
      var n := |log| - 1;
      UserIds(log[..n], package) + Repeat(n, Count(log[n].deps, package))
  }

  function UsedBy(log: seq<Entry>, package: string): seq<string> {
    if log == [] then []
    else
      var n := |log| - 1;
      UsedBy(log[..n], package) + Repeat(log[n].handler, Count(log[n].deps, package))
  }

  predicate DistinctHandlers(log: seq<Entry>) {
    forall i, j :: 0 <= i < j < |log| ==> log[i].handler != log[j].handler
  }

  lemma {:induction false} LogHasDistinctHandlers(pushes: seq<Entry>)
    ensures DistinctHandlers(LogOf(pushes))
  {
    if pushes != [] {
      LogHasDistinctHandlers(pushes[..|pushes| - 1]);
    }
  }

  lemma {:induction false} DepsOfEntry(log: seq<Entry>, i: nat)
    requires DistinctHandlers(log) && i < |log|
    ensures DepsOf(log, log[i].handler) == log[i].deps
  {
    var n := |log| - 1;
    if i < n {
      DepsOfEntry(log[..n], i);
      assert log[i].handler != log[n].handler;
    }
  }

  lemma {:induction false} DepsOfUnknown(log: seq<Entry>, handler: string)
    requires !Registered(log, handler)
    ensures DepsOf(log, handler) == []
  {
    if log != [] {
      var n := |log| - 1;
      assert forall i :: 0 <= i < n ==> log[..n][i] == log[i];
      assert log[n].handler != handler;
      DepsOfUnknown(log[..n], handler);
    }
  }

  /** The list first pushed for a handler. */
  function FirstPush(pushes: seq<Entry>, handler: string): seq<string> {
    if pushes == [] then []
    else if pushes[0].handler == handler then pushes[0].deps
    else FirstPush(pushes[1..], handler)
  }

  predicate Pushed(pushes: seq<Entry>, handler: string) {
    exists i :: 0 <= i < |pushes| && pushes[i].handler == handler
  }

  lemma {:induction false} FirstPushBack(pushes: seq<Entry>, handler: string)
    requires pushes != []
    ensures
      var n := |pushes| - 1;
      FirstPush(pushes, handler) ==
        if Pushed(pushes[..n], handler) then FirstPush(pushes[..n], handler)
        else if pushes[n].handler == handler then pushes[n].deps
        else []
  {
    var n := |pushes| - 1;
    if pushes[0].handler == handler {
      assert n > 0 ==> pushes[..n][0].handler == handler;
    } else if n > 0 {
      FirstPushBack(pushes[1..], handler);
      assert pushes[1..][..n - 1] == pushes[..n][1..];
      if Pushed(pushes[..n], handler) {
        var i :| 0 <= i < n && pushes[..n][i].handler == handler;
        assert pushes[..n][1..][i - 1].handler == handler;
      }
      if Pushed(pushes[..n][1..], handler) {
        var i :| 0 <= i < n - 1 && pushes[..n][1..][i].handler == handler;
        assert pushes[..n][i + 1].handler == handler;
      }
    }
  }

  lemma AcceptRegisters(log: seq<Entry>, e: Entry, handler: string)
    ensures Registered(Accept(log, e), handler) <==> Registered(log, handler) || e.handler == handler
  {
    var after := Accept(log, e);
    assert log <= after;
    if Registered(log, handler) {
      var k :| 0 <= k < |log| && log[k].handler == handler;
      assert after[k].handler == handler;
    } else if e.handler == handler {
      assert after[|log|].handler == handler;
    }
  }

  lemma {:induction false} RegisteredIffPushed(pushes: seq<Entry>, handler: string)
    ensures Registered(LogOf(pushes), handler) <==> Pushed(pushes, handler)
  {
    if pushes != [] {
      var n := |pushes| - 1;
      RegisteredIffPushed(pushes[..n], handler);
      AcceptRegisters(LogOf(pushes[..n]), pushes[n], handler);
      assert pushes == pushes[..n] + [pushes[n]];
      if Pushed(pushes[..n], handler) {
        var i :| 0 <= i < n && pushes[..n][i].handler == handler;
        assert pushes[i].handler == handler;
      }
      if Pushed(pushes, handler) && pushes[n].handler != handler {
        var i :| 0 <= i < |pushes| && pushes[i].handler == handler;
        assert pushes[..n][i].handler == handler;
      }
    }
  }

  /** After any sequence of pushes, a handler's dependencies are those of its first push. */
  lemma {:induction false} DepsAreFirstPush(pushes: seq<Entry>, handler: string)
    ensures DepsOf(LogOf(pushes), handler) == FirstPush(pushes, handler)
  {
    if pushes != [] {
      var n := |pushes| - 1;
      DepsAreFirstPush(pushes[..n], handler);
      FirstPushBack(pushes, handler);
      RegisteredIffPushed(pushes[..n], handler);
      RegisteredIffPushed(pushes[..n], pushes[n].handler);
      var log := LogOf(pushes[..n]);
      if !Registered(log, handler) {
        DepsOfUnknown(log, handler);
      }
      assert (log + [pushes[n]])[..|log|] == log;
    }
  }

  lemma {:induction false} CountRepeat<T>(x: T, n: nat, y: T)
    ensures Count(Repeat(x, n), y) == if x == y then n else 0
  {
    if n > 0 {
      assert Repeat(x, n)[1..] == Repeat(x, n - 1);
      CountRepeat(x, n - 1, y);
    }
  }

  lemma {:induction false} UsersOfUnknown(log: seq<Entry>, handler: string, package: string)
    requires !Registered(log, handler)
    ensures Count(UsedBy(log, package), handler) == 0
  {
    if log != [] {
      var n := |log| - 1;
      assert forall i :: 0 <= i < n ==> log[..n][i] == log[i];
      assert log[n].handler != handler;
      UsersOfUnknown(log[..n], handler, package);
      CountConcat(UsedBy(log[..n], package), Repeat(log[n].handler, Count(log[n].deps, package)), handler);
      CountRepeat(log[n].handler, Count(log[n].deps, package), handler);
    }
  }

  /** The two directions of the graph agree, with multiplicity: a handler occurs among the users of
      a package as often as the package occurs among the handler's dependencies. */
  lemma {:induction false} UsersMirrorDeps(log: seq<Entry>, handler: string, package: string)
    requires DistinctHandlers(log)
    ensures Count(UsedBy(log, package), handler) == Count(DepsOf(log, handler), package)
  {
    if log != [] {
      var n := |log| - 1;
      var init := log[..n];
      CountConcat(UsedBy(init, package), Repeat(log[n].handler, Count(log[n].deps, package)), handler);
      CountRepeat(log[n].handler, Count(log[n].deps, package), handler);
      if log[n].handler == handler {
        assert forall i :: 0 <= i < n ==> init[i].handler != handler;
        UsersOfUnknown(init, handler, package);
      } else {
        UsersMirrorDeps(init, handler, package);
      }
    }
  }

  /** The whole graph after any pushes, in terms of the pushes alone. */
  lemma GraphOfPushes(pushes: seq<Entry>, handler: string, package: string)
    ensures DepsOf(LogOf(pushes), handler) == FirstPush(pushes, handler)
    ensures Count(UsedBy(LogOf(pushes), package), handler) == Count(FirstPush(pushes, handler), package)
  {
    LogHasDistinctHandlers(pushes);
    DepsAreFirstPush(pushes, handler);
    UsersMirrorDeps(LogOf(pushes), handler, package);
  }

  // ----- the registry

  /** Ids and names invert each other. */
  ghost predicate NamesOk(names: seq<string>, table: map<string, seq<nat>>) {
    && Distinct(names)
    && table.Keys == Elements(names)
    && forall d :: 0 <= d < |names| ==> |table[names[d]]| >= 1 && table[names[d]][0] == d
  }

  /** Each package's list ends in the ids of its users. */
  ghost predicate UsersOk(log: seq<Entry>, table: map<string, seq<nat>>) {
    forall p :: p in table ==> |table[p]| >= 1 && table[p][1..] == UserIds(log, p)
  }

  /** A handler's list ends in the ids of its dependencies. */
  ghost predicate ListsDeps(names: seq<string>, ids: seq<nat>, deps: seq<string>) {
    && |ids| == 1 + |deps|
    && forall k :: 1 <= k < |ids| ==> ids[k] < |names| && names[ids[k]] == deps[k - 1]
  }

  ghost predicate HandlersOk(log: seq<Entry>, depMap: map<string, seq<nat>>, depNames: seq<string>) {
    forall i :: 0 <= i < |log| ==> log[i].handler in depMap && ListsDeps(depNames, depMap[log[i].handler], log[i].deps)
  }

  ghost predicate DepsKnown(log: seq<Entry>, table: map<string, seq<nat>>) {
    forall i :: 0 <= i < |log| ==> Elements(log[i].deps) <= table.Keys
  }

  function HandlerNames(log: seq<Entry>): (s: seq<string>)
    ensures |s| == |log| && forall i :: 0 <= i < |s| ==> s[i] == log[i].handler
  {
    seq(|log|, i requires 0 <= i < |log| => log[i].handler)
  }

  /** No entry of the log names the package. */
  lemma {:induction false} NewPackageHasNoUsers(log: seq<Entry>, package: string)
    requires forall i :: 0 <= i < |log| ==> package !in log[i].deps
    ensures UserIds(log, package) == []
  {
    if log != [] {
      var n := |log| - 1;
      NewPackageHasNoUsers(log[..n], package);
      CountPositive(log[n].deps, package);
    }
  }

  lemma {:induction false} UserNames(log: seq<Entry>, package: string)
    ensures |UserIds(log, package)| == |UsedBy(log, package)|
    ensures forall k :: 0 <= k < |UserIds(log, package)| ==>
              UserIds(log, package)[k] < |log| && log[UserIds(log, package)[k]].handler == UsedBy(log, package)[k]
  {
    if log != [] {
      UserNames(log[..|log| - 1], package);
    }
  }

  predicate Increasing(s: seq<nat>) {
    forall i, j :: 0 <= i < j < |s| ==> s[i] <= s[j]
  }

  /** The users of a package are told in the order in which they were pushed: there are places in the log,
      each not before the one in front of it, where they stand and name the package. */
  lemma {:induction false} UsersAreInOrder(log: seq<Entry>, package: string)
    ensures
      var ids := UserIds(log, package);
      && Increasing(ids) && |ids| == |UsedBy(log, package)|
      && forall k :: 0 <= k < |ids| ==>
           ids[k] < |log| && package in log[ids[k]].deps && UsedBy(log, package)[k] == log[ids[k]].handler
  {
    UserNames(log, package);
    if log != [] {
      var n := |log| - 1;
      UsersAreInOrder(log[..n], package);
      CountPositive(log[n].deps, package);
    }
  }

  /** Each list has grown by one `hid` for each time that `packages` names its package. */
  ghost predicate Appended(before: map<string, seq<nat>>, after: map<string, seq<nat>>, hid: nat, packages: seq<string>) {
    && after.Keys == before.Keys
    && forall p :: p in after ==> after[p] == before[p] + Repeat(hid, Count(packages, p))
  }

  /** One `hid` goes to the end of the list of each package that is named. */
  function AppendAll(table: map<string, seq<nat>>, hid: nat, packages: seq<string>): map<string, seq<nat>> {
    if packages == [] then table
    else
      var p := packages[|packages| - 1];
      var t := AppendAll(table, hid, packages[..|packages| - 1]);
      if p in t then t[p := t[p] + [hid]] else t
  }

  function IdsOf(table: map<string, seq<nat>>, packages: seq<string>): seq<nat> {
    if packages == [] then []
    else
      var p := packages[|packages| - 1];
      IdsOf(table, packages[..|packages| - 1]) + (if p in table && table[p] != [] then [table[p][0]] else [])
  }

  lemma {:induction false} AppendAllHead(table: map<string, seq<nat>>, hid: nat, packages: seq<string>, p: string)
    requires p in table && table[p] != []
    ensures
      var t := AppendAll(table, hid, packages);
      p in t && t[p] != [] && t[p][0] == table[p][0]
  {
    if packages != [] {
      AppendAllHead(table, hid, packages[..|packages| - 1], p);
    }
  }

  lemma {:induction false} AppendAllAppends(table: map<string, seq<nat>>, hid: nat, packages: seq<string>)
    requires Elements(packages) <= table.Keys
    ensures Appended(table, AppendAll(table, hid, packages), hid, packages)
  {
    if packages == [] {
      assert forall p :: p in table ==> table[p] + [] == table[p];
    } else {
      var n := |packages| - 1;
      var p := packages[n];
      assert p in Elements(packages);
      assert packages == packages[..n] + [p];
      assert forall x :: x in Elements(packages[..n]) ==> x in Elements(packages);
      AppendAllAppends(table, hid, packages[..n]);
      AppendOne(table, AppendAll(table, hid, packages[..n]), hid, packages[..n], p);
    }
  }

  lemma {:induction false} IdsListDeps(names: seq<string>, table: map<string, seq<nat>>, hid: nat, packages: seq<string>)
    requires NamesOk(names, table) && Elements(packages) <= table.Keys
    ensures ListsDeps(names, [hid] + IdsOf(table, packages), packages)
  {
    if packages != [] {
      var n := |packages| - 1;
      var p := packages[n];
      assert p in Elements(packages);
      assert packages == packages[..n] + [p];
      assert forall x :: x in Elements(packages[..n]) ==> x in Elements(packages);
      IdsListDeps(names, table, hid, packages[..n]);
      IdOf(names, table, p);
      ListsOne(names, [hid] + IdsOf(table, packages[..n]), packages[..n], table[p][0]);
      assert [hid] + IdsOf(table, packages) == [hid] + IdsOf(table, packages[..n]) + [table[p][0]];
    }
  }

  lemma AppendKeepsNames(names: seq<string>, before: map<string, seq<nat>>, after: map<string, seq<nat>>, hid: nat, packages: seq<string>)
    requires NamesOk(names, before) && Appended(before, after, hid, packages)
    ensures NamesOk(names, after)
  {
    forall d | 0 <= d < |names| ensures |after[names[d]]| >= 1 && after[names[d]][0] == d {
      assert names[d] in Elements(names);
    }
  }

  lemma AppendOne(before: map<string, seq<nat>>, after: map<string, seq<nat>>, hid: nat, packages: seq<string>, p: string)
    requires Appended(before, after, hid, packages) && p in after
    ensures Appended(before, after[p := after[p] + [hid]], hid, packages + [p])
  {
    var next := after[p := after[p] + [hid]];
    forall q | q in next ensures next[q] == before[q] + Repeat(hid, Count(packages + [p], q)) {
      CountConcat(packages, [p], q);
      assert Count([p], q) == (if p == q then 1 else 0) + Count([p][1..], q);
      assert q == p ==> Repeat(hid, Count(packages, q)) + [hid] == Repeat(hid, Count(packages, q) + 1);
    }
  }

  lemma IdOf(names: seq<string>, table: map<string, seq<nat>>, p: string)
    requires NamesOk(names, table) && p in table
    ensures |table[p]| >= 1 && table[p][0] < |names| && names[table[p][0]] == p
  {
    assert p in Elements(names);
    var d :| 0 <= d < |names| && names[d] == p;
  }

  /** A new entry, its list of ids and the grown lists of its packages fit together. */
  lemma EntryAdded(log: seq<Entry>, e: Entry, depMap: map<string, seq<nat>>, names: seq<string>,
                   names': seq<string>, ids: seq<nat>)
    requires HandlersOk(log, depMap, names) && names <= names' && ListsDeps(names', ids, e.deps)
    requires e.handler !in depMap
    ensures HandlersOk(log + [e], depMap[e.handler := ids], names')
  {
    var log' := log + [e];
    var depMap' := depMap[e.handler := ids];
    forall i | 0 <= i < |log'|
      ensures log'[i].handler in depMap' && ListsDeps(names', depMap'[log'[i].handler], log'[i].deps)
    {
      if i < |log| {
        assert ListsDeps(names, depMap[log[i].handler], log[i].deps);
      }
    }
  }

  lemma UsersAdded(log: seq<Entry>, e: Entry, before: map<string, seq<nat>>, after: map<string, seq<nat>>)
    requires UsersOk(log, before) && Appended(before, after, |log|, e.deps)
    ensures UsersOk(log + [e], after)
  {
    assert (log + [e])[..|log|] == log;
    forall p | p in after ensures |after[p]| >= 1 && after[p][1..] == UserIds(log + [e], p) {
      var r := Repeat(|log|, Count(e.deps, p));
      assert (before[p] + r)[1..] == before[p][1..] + r;
    }
  }

  ghost predicate HandlerPart(log: seq<Entry>, handlerNames: seq<string>, depMap: map<string, seq<nat>>, depNames: seq<string>) {
    && DistinctHandlers(log) && handlerNames == HandlerNames(log)
    && NamesOk(handlerNames, depMap)
    && HandlersOk(log, depMap, depNames)
  }

  lemma ListsOne(names: seq<string>, ids: seq<nat>, deps: seq<string>, id: nat)
    requires ListsDeps(names, ids, deps) && id < |names|
    ensures ListsDeps(names, ids + [id], deps + [names[id]])
  {
  }

  lemma NameAdded(names: seq<string>, table: map<string, seq<nat>>, name: string, ids: seq<nat>)
    requires NamesOk(names, table) && name !in table && |ids| >= 1 && ids[0] == |names|
    ensures NamesOk(names + [name], table[name := ids])
  {
    assert name !in Elements(names);
    assert Elements(names + [name]) == Elements(names) + {name};
  }

  /** The names of the packages and their table. */
  datatype Ids = Ids(names: seq<string>, table: map<string, seq<nat>>)

  function WithPackages(d: Ids, packages: seq<string>): Ids {
    if packages == [] then d
    else
      var p := packages[|packages| - 1];
      var c := WithPackages(d, packages[..|packages| - 1]);
      if p in c.table then c else Ids(c.names + [p], c.table[p := [|c.names|]])
  }

  /** The table holds the names, the users and every dependency of the log. */
  ghost predicate IdsOk(log: seq<Entry>, d: Ids) {
    NamesOk(d.names, d.table) && UsersOk(log, d.table) && DepsKnown(log, d.table)
  }

  lemma WithPackageOk(log: seq<Entry>, c: Ids, p: string)
    requires IdsOk(log, c) && p !in c.table
    ensures IdsOk(log, Ids(c.names + [p], c.table[p := [|c.names|]]))
  {
    NameAdded(c.names, c.table, p, [|c.names|]);
    forall k | 0 <= k < |log| ensures p !in log[k].deps {
      assert p !in Elements(log[k].deps);
    }
    NewPackageHasNoUsers(log, p);
  }

  lemma {:induction false} WithPackagesGrows(d: Ids, packages: seq<string>)
    ensures
      var c := WithPackages(d, packages);
      c.table.Keys == d.table.Keys + Elements(packages) && d.names <= c.names
  {
    if packages != [] {
      var n := |packages| - 1;
      WithPackagesGrows(d, packages[..n]);
      assert packages == packages[..n] + [packages[n]];
      assert Elements(packages) == Elements(packages[..n]) + {packages[n]};
    }
  }

  lemma {:induction false} WithPackagesOk(log: seq<Entry>, d: Ids, packages: seq<string>)
    requires IdsOk(log, d)
    ensures IdsOk(log, WithPackages(d, packages))
  {
    if packages != [] {
      var n := |packages| - 1;
      WithPackagesOk(log, d, packages[..n]);
      var c := WithPackages(d, packages[..n]);
      if packages[n] !in c.table {
        WithPackageOk(log, c, packages[n]);
      }
    }
  }

  lemma PushKeepsUsers(log: seq<Entry>, e: Entry, d: Ids)
    requires IdsOk(log, d)
    ensures
      var c := WithPackages(d, e.deps);
      var lut := AppendAll(c.table, |log|, e.deps);
      && NamesOk(c.names, c.table) && Elements(e.deps) <= c.table.Keys && d.names <= c.names
      && NamesOk(c.names, lut) && UsersOk(log + [e], lut)
  {
    WithPackagesOk(log, d, e.deps);
    WithPackagesGrows(d, e.deps);
    var c := WithPackages(d, e.deps);
    AppendAllAppends(c.table, |log|, e.deps);
    AppendKeepsNames(c.names, c.table, AppendAll(c.table, |log|, e.deps), |log|, e.deps);
    UsersAdded(log, e, c.table, AppendAll(c.table, |log|, e.deps));
  }

  lemma PushKeepsParts(log: seq<Entry>, e: Entry, handlerNames: seq<string>, depMap: map<string, seq<nat>>, d: Ids)
    requires HandlerPart(log, handlerNames, depMap, d.names) && e.handler !in depMap
    requires IdsOk(log, d)
    ensures
      var c := WithPackages(d, e.deps);
      var ids := [|handlerNames|] + IdsOf(c.table, e.deps);
      var lut := AppendAll(c.table, |handlerNames|, e.deps);
      && HandlerPart(log + [e], handlerNames + [e.handler], depMap[e.handler := ids], c.names)
      && NamesOk(c.names, c.table) && Elements(e.deps) <= c.table.Keys
      && NamesOk(c.names, lut) && UsersOk(log + [e], lut)
  {
    var hid := |handlerNames|;
    PushKeepsUsers(log, e, d);
    var c := WithPackages(d, e.deps);
    IdsListDeps(c.names, c.table, hid, e.deps);
    HandlerAdded(log, e, handlerNames, depMap, [hid] + IdsOf(c.table, e.deps), d.names, c.names);
  }

  lemma HandlerAdded(log: seq<Entry>, e: Entry, handlerNames: seq<string>, depMap: map<string, seq<nat>>, ids: seq<nat>,
                     depNames: seq<string>, depNames': seq<string>)
    requires HandlerPart(log, handlerNames, depMap, depNames) && e.handler !in depMap
    requires depNames <= depNames' && ListsDeps(depNames', ids, e.deps) && ids[0] == |handlerNames|
    ensures HandlerPart(log + [e], handlerNames + [e.handler], depMap[e.handler := ids], depNames')
  {
    NameAdded(handlerNames, depMap, e.handler, ids);
    EntryAdded(log, e, depMap, depNames, depNames', ids);
    assert e.handler !in Elements(handlerNames);
    assert forall i :: 0 <= i < |log| ==> handlerNames[i] in Elements(handlerNames);
  }

  class Registry {
    var depMap: map<string, seq<nat>>
    var packageLut: map<string, seq<nat>>
    var depNames: seq<string>
    var handlerNames: seq<string>
    ghost var log: seq<Entry>

    ghost predicate Valid()
      reads this
    {
      && HandlerPart(log, handlerNames, depMap, depNames)
      && NamesOk(depNames, packageLut) && UsersOk(log, packageLut)
    }

    constructor ()
      ensures Valid() && log == LogOf([])
    {
      depMap, packageLut, depNames, handlerNames, log := map[], map[], [], [], [];
    }

    /** Gives an id to each package that has none. */
    method RegisterPackages(packages: seq<string>)
      modifies this`packageLut, this`depNames
      ensures Ids(depNames, packageLut) == WithPackages(Ids(old(depNames), old(packageLut)), packages)
    {
      for i := 0 to |packages|
        invariant Ids(depNames, packageLut) == WithPackages(Ids(old(depNames), old(packageLut)), packages[..i])
      {
        assert packages[..i + 1][..i] == packages[..i];
        if packages[i] !in packageLut {
          packageLut := packageLut[packages[i] := [|depNames|]];
          depNames := depNames + [packages[i]];
        }
      }
      assert packages[..|packages|] == packages;
    }

    /** Records the edges of a new handler, in both directions. */
    method Link(handler: string, hid: nat, packages: seq<string>)
      requires NamesOk(depNames, packageLut) && Elements(packages) <= packageLut.Keys
      requires handler in depMap && depMap[handler] == [hid]
      modifies this`depMap, this`packageLut
      ensures packageLut == AppendAll(old(packageLut), hid, packages)
      ensures depMap == old(depMap)[handler := [hid] + IdsOf(old(packageLut), packages)]
    {
      assert [hid] + IdsOf(packageLut, []) == [hid];
      assert packages[..0] == [];
      for i := 0 to |packages|
        invariant packageLut == AppendAll(old(packageLut), hid, packages[..i])
        invariant depMap == old(depMap)[handler := [hid] + IdsOf(old(packageLut), packages[..i])]
      {
        assert packages[..i + 1][..i] == packages[..i];
        assert packages[i] in Elements(packages);
        IdOf(depNames, old(packageLut), packages[i]);
        AppendAllHead(old(packageLut), hid, packages[..i], packages[i]);
        assert [hid] + IdsOf(old(packageLut), packages[..i + 1])
            == [hid] + IdsOf(old(packageLut), packages[..i]) + [old(packageLut)[packages[i]][0]];
        depMap := depMap[handler := depMap[handler] + [packageLut[packages[i]][0]]];
        packageLut := packageLut[packages[i] := packageLut[packages[i]] + [depMap[handler][0]]];
      }
      assert packages[..|packages|] == packages;
    }

    /** Records a handler that is not known yet. */
    method PushNew(handler: string, packages: seq<string>)
      requires
        var d := WithPackages(Ids(depNames, packageLut), packages);
        NamesOk(d.names, d.table) && Elements(packages) <= d.table.Keys
      modifies this`depMap, this`handlerNames, this`packageLut, this`depNames
      ensures
        var d := WithPackages(Ids(old(depNames), old(packageLut)), packages);
        var hid := |old(handlerNames)|;
        && depNames == d.names && packageLut == AppendAll(d.table, hid, packages)
        && depMap == old(depMap)[handler := [hid] + IdsOf(d.table, packages)]
        && handlerNames == old(handlerNames) + [handler]
    {
      var hid := |handlerNames|;
      depMap := depMap[handler := [hid]];
      handlerNames := handlerNames + [handler];
      RegisterPackages(packages);
      Link(handler, hid, packages);
    }

    /** Returns 0 and records the handler, or -1 and changes nothing when it is known. */
    method Push(handler: string, packages: seq<string>) returns (code: int)
      requires Valid()
      modifies this
      ensures Valid()
      ensures log == Accept(old(log), Entry(handler, packages))
      ensures code == if Registered(old(log), handler) then -1 else 0
    {
      KnownIffRegistered();
      if handler in depMap {
        return -1;
      }
      DepsAreKnown();
      ghost var e := Entry(handler, packages);
      PushKeepsParts(log, e, handlerNames, depMap, Ids(depNames, packageLut));
      PushNew(handler, packages);
      log := log + [e];
      return 0;
    }

    lemma KnownIffRegistered()
      requires Valid()
      ensures forall h :: h in depMap <==> Registered(log, h)
    {
      forall h ensures h in depMap <==> Registered(log, h) {
        if h in depMap {
          assert h in Elements(handlerNames);
          var i :| 0 <= i < |handlerNames| && handlerNames[i] == h;
          assert log[i].handler == h;
        }
        if Registered(log, h) {
          var i :| 0 <= i < |log| && log[i].handler == h;
          assert handlerNames[i] in Elements(handlerNames);
        }
      }
    }

    lemma DepsAreKnown()
      requires Valid()
      ensures DepsKnown(log, packageLut)
    {
      forall i, p | 0 <= i < |log| && p in Elements(log[i].deps) ensures p in packageLut.Keys {
        var k :| 0 <= k < |log[i].deps| && log[i].deps[k] == p;
        assert ListsDeps(depNames, depMap[log[i].handler], log[i].deps);
        var ids := depMap[log[i].handler];
        assert depNames[ids[k + 1]] == p && depNames[ids[k + 1]] in Elements(depNames);
      }
    }

    /** The dependencies of a handler, by name; none for an unknown handler. */
    method PeekHandlerDeps(handler: string) returns (deps: seq<string>)
      requires Valid()
      ensures deps == DepsOf(log, handler)
    {
      KnownIffRegistered();
      deps := [];
      if handler !in depMap {
        DepsOfUnknown(log, handler);
        return;
      }
      ghost var i :| 0 <= i < |log| && log[i].handler == handler;
      DepsOfEntry(log, i);
      var ids := depMap[handler];
      assert ListsDeps(depNames, ids, log[i].deps);
      for k := 1 to |ids|
        invariant deps == log[i].deps[..k - 1]
      {
        deps := deps + [depNames[ids[k]]];
      }
    }

    /** The handlers that use a package, by name; none for an unknown package. */
    method PeekDepsUsedBy(package: string) returns (users: seq<string>)
      requires Valid()
      ensures users == UsedBy(log, package)
    {
      users := [];
      UserNames(log, package);
      if package !in packageLut {
        DepsAreKnown();
        forall i | 0 <= i < |log| ensures package !in log[i].deps {
          assert package !in Elements(log[i].deps);
        }
        NewPackageHasNoUsers(log, package);
        return;
      }
      var ids := packageLut[package];
      assert ids[1..] == UserIds(log, package);
      for k := 1 to |ids|
        invariant users == UsedBy(log, package)[..k - 1]
      {
        assert ids[k] == ids[1..][k - 1];
        users := users + [handlerNames[ids[k]]];
      }
    }
  }
}
