/**
 The cache manager as the worker keeps it: one object whose methods update the list of fork
 servers and their records in place. Each method is proved to take the step that `ImportCache`
 describes.
 */
module CacheManagers {
  import opened Collections
  import opened SubsetMatcher
  import opened ImportCache
  import opened ImportCacheProofs

  class CacheManager {
    const importable: set<Module>
    var table: seq<ForkServer>
    var servers: seq<Fid>
    var seqNo: nat
    var full: bool
    var evicting: Option<Fid>
    var kills: seq<Fid>
    var flights: seq<Flight>
    var processes: seq<Process>
    var totalHits: nat

    function State(): Cache
      reads this
    {
      Cache(importable, table, servers, seqNo, full, evicting, kills, flights, processes, totalHits)
    }

    constructor (importable: set<Module>)
      ensures State() == Initial(importable) && Inv(State())
    {
      this.importable := importable;
      table, servers, seqNo, full := [Root()], [0], 0, false;
      evicting, kills, flights, processes, totalHits := None, [], [], [], 0;
      new;
      InvInitial(importable);
    }

    /** The section of Provision under the manager's lock. */
    method BeginProvision(request: seq<Module>, createOk: bool, size: Size) returns (hit: bool, err: bool)
      requires Shaped(State())
      modifies this
      ensures State() == BeginStep(old(State()), request, createOk, size)
      ensures hit <==> Best(ImportsOf(old(State())), request) != 0
      ensures err <==> !createOk && !old(full) && ToCache(ImportsOf(old(State())), request) != []
    {
      var best, toCache, h := Match(ImportsOf(State()), request);
      hit, err := h, false;
      var fs := servers[best];
      assert fs == Chosen(State(), request);
      if toCache != [] && !full {
        err := NewCacheEntry(fs, toCache, createOk, size);
        if err {
          return;
        }
        servers := servers + [|table| - 1];
        seqNo := seqNo + 1;
        flights := flights + [Flight(|table| - 1, [], request)];
      } else {
        flights := flights + [Flight(fs, toCache, request)];
      }
    }

    method NewCacheEntry(base: Fid, toCache: seq<Module>, createOk: bool, size: Size) returns (err: bool)
      requires base < |table|
      modifies this`table
      ensures err == !createOk
      ensures
        var b := old(table)[base];
        table == if createOk then
                   old(table)[base := b.(children := b.children + 1)] + [NewEntry(old(State()), base, toCache, size)]
                 else old(table)[base := b.(children := b.children + 1, failed := b.failed + 1)]
    {
      var imports := table[base].imports;
      for k := 0 to |toCache|
        invariant imports == table[base].imports + Elements(toCache[..k])
        invariant table == old(table)
      {
        assert toCache[..k + 1] == toCache[..k] + [toCache[k]];
        assert Elements(toCache[..k + 1]) == Elements(toCache[..k]) + {toCache[k]};
        imports := imports + {toCache[k]};
      }
      assert toCache[..|toCache|] == toCache;
      var loaded := ImportModules(table[base].loaded, toCache, importable);
      var fs := ForkServer(imports, {}, 0, Some(base), 0, size, 0, false);
      table := table[base := table[base].(children := table[base].children + 1)];
      if !createOk {
        table := table[base := table[base].(failed := table[base].failed + 1)];
        return true;
      }
      table := table + [fs.(loaded := loaded)];
      return false;
    }

    /** The walk ends because the import sets of the ancestors shrink. */
    method Hit(fs: Fid)
      requires Tree(table) && fs < |table| && ShrinkingImports(table)
      modifies this`table
      ensures table == HitFrom(old(table), fs)
    {
      var curr: Option<Fid> := Some(fs);
      while curr.Some?
        invariant Tree(table) && ShrinkingImports(table)
        invariant curr.Some? ==> curr.value < |table|
        invariant HitFrom(old(table), fs) == if curr.Some? then HitFrom(table, curr.value) else table
        decreases match curr case None => 0 case Some(e) => 1 + |table[e].imports|
      {
        var e := curr.value;
        var parent := table[e].parent;
        if parent.Some? {
          SubsetSize(table[parent.value].imports, table[e].imports);
        }
        table := table[e := AddHit(table[e])];
        curr := parent;
      }
    }

    /** The section of Provision under the server's lock. */
    method FinishProvision(i: nat, forkOk: bool) returns (modules: set<Module>)
      requires TableOk(State()) && FlightsOk(State()) && Shaped(State()) && i < |flights|
      modifies this
      ensures State() == ForkStep(old(State()), i, forkOk)
      ensures Distinct(old(flights)[i].request) ==> modules == FromScratch(old(flights)[i].request, importable)
    {
      if Distinct(flights[i].request) {
        ForkedHoldsRequest(State(), i);
      }
      ImportsShrink(State());
      var f := flights[i];
      modules := ImportModules(table[f.server].loaded, f.toCache, importable);
      Hit(f.server);
      totalHits := totalHits + 1;
      if forkOk {
        processes := processes + [Process(f.request, modules)];
      }
      flights := flights[..i] + flights[i + 1..];
    }

    /** The evictor's scan; 0 stands for no victim. */
    method FindVictim() returns (idx: nat)
      requires Shaped(State())
      ensures idx == VictimUpTo(State(), |servers|) && idx < |servers|
      ensures IsVictim(State(), |servers|, idx)
    {
      ScanFindsVictim(State(), |servers|);
      idx := 0;
      var worst := 0.0;
      for k := 1 to |servers|
        invariant idx == VictimUpTo(State(), k) && idx < k
        invariant idx != 0 ==> worst == Ratio(table[servers[idx]])
      {
        assert servers[k] in servers;
        var s := table[servers[k]];
        if s.children == 0 && s.size != 0.0 {
          var ratio := s.hits as real / s.size;
          if idx == 0 || ratio < worst {
            idx, worst := k, ratio;
          }
        }
      }
    }

    /** The check of the memory usage, and the choice of a victim. */
    method CheckUsage(over: bool)
      requires Shaped(State()) && evicting.None?
      modifies this
      ensures State() == CheckUsageStep(old(State()), over)
    {
      VictimIgnoresFull(State(), over, |servers|);
      full := over;
      if over {
        var idx := FindVictim();
        if idx != 0 {
          evicting := Some(servers[idx]);
        }
      }
    }

    /** The evictor has seen the victim's lock free. */
    method FinishEvict()
      requires evicting.Some?
      modifies this
      ensures State() == UnlistStep(old(State()), old(evicting).value)
    {
      var victim := evicting.value;
      servers := Without(servers, victim);
      evicting := None;
      kills := kills + [victim];
    }

    method KillServer(victim: Fid)
      requires Shaped(State()) && victim in kills
      modifies this
      ensures State() == KillStep(old(State()), victim)
    {
      kills := Without(kills, victim);
      table := table[victim := table[victim].(dead := true)];
      match table[victim].parent {
        case None =>
        case Some(p) => table := table[p := table[p].(children := table[p].children - 1)];
      }
    }
  }

  /** Every entry has strictly more imports than its parent. */
  ghost predicate ShrinkingImports(table: seq<ForkServer>)
    requires Tree(table)
  {
    forall e {:trigger table[e]} :: 0 <= e < |table| && table[e].parent.Some? ==>
      table[table[e].parent.value].imports < table[e].imports
  }

  lemma ImportsShrink(c: Cache)
    requires TableOk(c) && Tree(c.table)
    ensures ShrinkingImports(c.table)
  {
    forall e | 0 <= e < |c.table| && c.table[e].parent.Some?
      ensures c.table[c.table[e].parent.value].imports < c.table[e].imports
    {
      assert EntryOk(c, e);
    }
  }

  lemma {:induction false} VictimIgnoresFull(c: Cache, full: bool, n: nat)
    requires Shaped(c) && n <= |c.servers|
    ensures VictimUpTo(c.(full := full), n) == VictimUpTo(c, n)
  {
    if n > 1 {
      VictimIgnoresFull(c, full, n - 1);
    }
  }
}
