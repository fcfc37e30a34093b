/**
 The import cache: a tree of fork servers, each of which has imported its parent's modules and
 some more. A request is provisioned by forking the server that `SubsetMatcher` chooses, after
 adding a new server for the request when the cache is not full; an evictor removes leaves.

 `Provision` has a section under the manager's lock, which ends with the chosen server's lock
 held, and a section under that lock; eviction chooses a victim under the manager's lock, waits
 for the victim's lock, and only then unlists it; the victim is killed later. These are steps.
 A run is any sequence of them, with any memory readings.
 */
module ImportCache {
  import opened Collections
  import opened SubsetMatcher

  /** Fork servers are named by their creation order; 0 is the root. */
  type Fid = nat

  type Size = r: real | r >= 0.0

  /** `imports` is what the manager records, `loaded` what the process holds. `failed` counts the
      children whose creation failed. */
  datatype ForkServer = ForkServer(
    imports: set<Module>,
    loaded: set<Module>,
    hits: nat,
    parent: Option<Fid>,
    children: int,
    size: Size,
    failed: nat,
    dead: bool)

  /** A Provision that holds the lock of its server and has not sent its fork request yet. */
  datatype Flight = Flight(server: Fid, toCache: seq<Module>, request: seq<Module>)

  /** A provisioned handler process: what was asked for and what it holds. */
  datatype Process = Process(request: seq<Module>, modules: set<Module>)

  /** `importable` are the modules whose import succeeds. `evicting` is the victim while the evictor
      holds the manager's lock. */
  datatype Cache = Cache(
    importable: set<Module>,
    table: seq<ForkServer>,
    servers: seq<Fid>,
    seqNo: nat,
    full: bool,
    evicting: Option<Fid>,
    kills: seq<Fid>,
    flights: seq<Flight>,
    processes: seq<Process>,
    totalHits: nat)

  /** `size` is the size that a new entry is given; `newCacheEntry` gives none, which is zero. */
  datatype Step =
    | Begin(request: seq<Module>, createOk: bool, size: Size)
    | Fork(i: nat, forkOk: bool)
    | CheckUsage(over: bool)
    | Unlist
    | Kill(victim: Fid)

  function Root(): ForkServer {
    ForkServer({}, {}, 0, None, 0, 1.0, 0, false)
  }

  function Initial(importable: set<Module>): Cache {
    Cache(importable, [Root()], [0], 0, false, None, [], [], [], 0)
  }

  /** Parents are older than their children. */
  predicate Tree(table: seq<ForkServer>) {
    forall e {:trigger table[e]} :: 0 <= e < |table| && table[e].parent.Some? ==> table[e].parent.value < e
  }

  ghost predicate Shaped(c: Cache) {
    && Tree(c.table)
    && c.servers != []
    && (forall e :: e in c.servers ==> e < |c.table|)
    && (forall e :: e in c.kills ==> e < |c.table|)
    && (forall i :: 0 <= i < |c.flights| ==> c.flights[i].server < |c.table|)
    && (c.evicting.Some? ==> c.evicting.value < |c.table|)
  }

  // ----- forking

  /** What a process holds after it forked off `parent` and imported `mods`; a failing import is
      reported and skipped. */
  function LoadedAfter(parent: set<Module>, mods: seq<Module>, importable: set<Module>): set<Module> {
    parent + (Elements(mods) * importable)
  }

  /** The import loop of a forked process. */
  method ImportModules(parent: set<Module>, mods: seq<Module>, importable: set<Module>)
    returns (globals: set<Module>)
    ensures globals == LoadedAfter(parent, mods, importable)
  {
    globals := parent;
    for i := 0 to |mods|
      invariant globals == LoadedAfter(parent, mods[..i], importable)
    {
      assert mods[..i + 1] == mods[..i] + [mods[i]];
      assert Elements(mods[..i + 1]) == Elements(mods[..i]) + {mods[i]};
      if mods[i] in importable {
        globals := globals + {mods[i]};
      }
    }
    assert mods[..|mods|] == mods;
  }

  /** What a fresh process holds that imports the whole request itself. */
  function FromScratch(request: seq<Module>, importable: set<Module>): set<Module> {
    Elements(request) * importable
  }

  // ----- hits

  function AddHit(s: ForkServer): ForkServer {
    s.(hits := s.hits + 1)
  }

  /** Hit counts for the server and for all its ancestors. */
  function HitFrom(table: seq<ForkServer>, e: Fid): (t: seq<ForkServer>)
    requires Tree(table) && e < |table|
    ensures |t| == |table| && Tree(t)
    decreases e
  {
    var t := table[e := AddHit(table[e])];
    assert Tree(t);
    match table[e].parent
    case None => t
    case Some(p) => HitFrom(t, p)
  }

  // ----- the sections

  function ImportsOf(c: Cache): (s: seq<set<Module>>)
    requires Shaped(c)
    ensures |s| == |c.servers|
    ensures forall i :: 0 <= i < |s| ==> c.servers[i] < |c.table| && s[i] == c.table[c.servers[i]].imports
  {
    assert forall i :: 0 <= i < |c.servers| ==> c.servers[i] in c.servers;
    seq(|c.servers|, i requires 0 <= i < |c.servers| => c.table[c.servers[i]].imports)
  }

  function Chosen(c: Cache, request: seq<Module>): (e: Fid)
    requires Shaped(c)
    ensures e < |c.table| && e in c.servers
  {
    var best := Best(ImportsOf(c), request);
    assert c.servers[best] in c.servers;
    c.servers[best]
  }

  function NewEntry(c: Cache, base: Fid, toCache: seq<Module>, size: Size): ForkServer
    requires base < |c.table|
  {
    var b := c.table[base];
    ForkServer(b.imports + Elements(toCache), LoadedAfter(b.loaded, toCache, c.importable), 0, Some(base), 0,
               size, 0, false)
  }

  /** A new entry counts as a child before its creation can fail. */
  function BeginStep(c: Cache, request: seq<Module>, createOk: bool, size: Size): Cache
    requires Shaped(c)
  {
    var base := Chosen(c, request);
    var toCache := ToCache(ImportsOf(c), request);
    if toCache != [] && !c.full then
      var b := c.table[base];
      if createOk then
        var fs := |c.table|;
        c.(table := c.table[base := b.(children := b.children + 1)] + [NewEntry(c, base, toCache, size)],
           servers := c.servers + [fs],
           seqNo := c.seqNo + 1,
           flights := c.flights + [Flight(fs, [], request)])
      else
        c.(table := c.table[base := b.(children := b.children + 1, failed := b.failed + 1)])
    else
      c.(flights := c.flights + [Flight(base, toCache, request)])
  }

  function ForkStep(c: Cache, i: nat, forkOk: bool): Cache
    requires Shaped(c) && i < |c.flights|
  {
    var f := c.flights[i];
    var c' := c.(
      table := HitFrom(c.table, f.server),
      totalHits := c.totalHits + 1,
      flights := c.flights[..i] + c.flights[i + 1..]);
    if forkOk then
      c'.(processes := c.processes
                       + [Process(f.request, LoadedAfter(c.table[f.server].loaded, f.toCache, c.importable))])
    else c'
  }

  /** `Hits / Size` in floating point: with size zero it is not a number or infinite, and either
      way not below the worst ratio so far. */
  predicate Evictable(s: ForkServer) {
    s.children == 0 && s.size != 0.0
  }

  function Ratio(s: ForkServer): real
    requires s.size != 0.0
  {
    s.hits as real / s.size
  }

  /** The evictor's scan of the servers `1..n`: the first evictable one of least ratio, or 0. */
  function VictimUpTo(c: Cache, n: nat): (idx: nat)
    requires Shaped(c) && n <= |c.servers|
    ensures idx == 0 || idx < n
    ensures idx != 0 ==> c.servers[idx] < |c.table| && Evictable(c.table[c.servers[idx]])
  {
    if n <= 1 then 0
    else
      var idx := VictimUpTo(c, n - 1);
      assert c.servers[n - 1] in c.servers;
      var s := c.table[c.servers[n - 1]];
      if Evictable(s) && (idx == 0 || Ratio(s) < Ratio(c.table[c.servers[idx]])) then n - 1 else idx
  }

  function CheckUsageStep(c: Cache, over: bool): Cache
    requires Shaped(c)
  {
    var c' := c.(full := over);
    var idx := VictimUpTo(c, |c.servers|);
    if over && idx != 0 then c'.(evicting := Some(c.servers[idx])) else c'
  }

  function UnlistStep(c: Cache, victim: Fid): Cache {
    c.(servers := Without(c.servers, victim), evicting := None, kills := c.kills + [victim])
  }

  function KillStep(c: Cache, victim: Fid): Cache
    requires Shaped(c) && victim < |c.table|
  {
    var t := c.table[victim := c.table[victim].(dead := true)];
    var t' := match c.table[victim].parent
              case None => t
              case Some(p) => t[p := t[p].(children := t[p].children - 1)];
    c.(kills := Without(c.kills, victim), table := t')
  }

  predicate Locked(c: Cache, e: Fid) {
    exists i :: 0 <= i < |c.flights| && c.flights[i].server == e
  }

  ghost predicate Enabled(c: Cache, st: Step)
    requires Shaped(c)
  {
    match st
    case Begin(request, _, _) => c.evicting.None? && !Locked(c, Chosen(c, request))
    case Fork(i, _) => i < |c.flights|
    case CheckUsage(_) => c.evicting.None?
    case Unlist => c.evicting.Some? && !Locked(c, c.evicting.value)
    case Kill(victim) => victim in c.kills
  }

  ghost function Apply(c: Cache, st: Step): Cache
    requires Shaped(c) && Enabled(c, st)
  {
    match st
    case Begin(request, createOk, size) => BeginStep(c, request, createOk, size)
    case Fork(i, forkOk) => ForkStep(c, i, forkOk)
    case CheckUsage(over) => CheckUsageStep(c, over)
    case Unlist => UnlistStep(c, c.evicting.value)
    case Kill(victim) => KillStep(c, victim)
  }
}
