/**
 The handler pool of a worker: the handlers of every lambda, the per-lambda lists from
 which `Get` picks, and the LRU of idle handlers from which the evictor reclaims.

 The pool is a state machine. Every section that the worker runs under its locks is one
 step, and a run is any sequence of steps. `RunFinish` of an over-limit handler drops the
 handler lock before `TryRemoveHandler`, so these are two steps.
 */
module HandlerPool {
  import opened Collections

  /** Handlers are named by their creation order. */
  type Hid = nat

  datatype SandboxState = Stopped | Running | Paused

  /** `gotten`, `active` and `leaked` split the runners into the requests that hold the handler
      but have not started, those between a successful RunStart and RunFinish, and those whose
      RunStart failed. `limbo` marks a handler that its last, over-limit finish left outside the
      LRU; `retired` one that was taken out for reclamation. */
  datatype Handler = Handler(
    name: string,
    runners: int,
    usage: nat,
    sandbox: Option<SandboxState>,
    gotten: int,
    active: int,
    leaked: int,
    limbo: bool,
    retired: bool,
    nuked: bool,
    startFailed: bool)

  datatype Manager = Manager(handlers: seq<Hid>, elements: set<Hid>, maxHandlers: nat)

  /** `queue` is most recent first. */
  datatype Lru = Lru(queue: seq<Hid>, keys: set<Hid>, size: int)

  /** `evicting` is set while the evictor has seen the size over the limit and not taken its victim. */
  datatype Pool = Pool(
    maxRunners: nat,
    softLimit: int,
    managers: map<string, Manager>,
    hs: seq<Handler>,
    lru: Lru,
    pending: multiset<Hid>,
    nukes: multiset<Hid>,
    evicting: bool,
    crashed: bool)

  /** How RunStart ends. The error returns differ in what they leave behind. */
  datatype StartOutcome =
    | Ok
    | NoSandbox
    | LeftAsCreated
    | LateFailure

  datatype Step =
    | Get(name: string)
    | RunStart(h: Hid, outcome: StartOutcome, created: SandboxState)
    | RunFinish(h: Hid, usageAtCheck: nat, usageAtAdd: nat, pauseOk: bool)
    | TryRemove(h: Hid)
    | CheckSize
    | Evict
    | Nuke(h: Hid)

  function Initial(maxRunners: nat, softLimit: int): (p: Pool)
    ensures WellFormed(p)
  {
    Pool(maxRunners, softLimit, map[], [], Lru([], {}, 0), multiset{}, multiset{}, false, false)
  }

  /** Every handler that some structure mentions exists, and has a manager. */
  ghost predicate WellFormed(p: Pool) {
    && (forall h :: 0 <= h < |p.hs| ==> p.hs[h].name in p.managers)
    && (forall n, h :: n in p.managers && h in p.managers[n].handlers ==> h < |p.hs|)
    && (forall h :: h in p.lru.queue ==> h < |p.hs|)
    && (forall h :: h in p.pending ==> h < |p.hs|)
    && (forall h :: h in p.nukes ==> h < |p.hs|)
  }

  function Max(a: nat, b: nat): nat {
    if a < b then b else a
  }

  // ----- the list of a manager

  function EmptyManager(): Manager {
    Manager([], {}, 0)
  }

  function ManagerOf(p: Pool, name: string): Manager {
    if name in p.managers then p.managers[name] else EmptyManager()
  }

  function PushHandler(m: Manager, h: Hid): Manager {
    Manager([h] + m.handlers, m.elements + {h}, Max(m.maxHandlers, |m.handlers| + 1))
  }

  function DropHandler(m: Manager, h: Hid): Manager {
    if h in m.elements then Manager(Without(m.handlers, h), m.elements - {h}, m.maxHandlers) else m
  }

  /** AddHandler relists a handler that has just left its runner limit. */
  function AddHandler(m: Manager, h: Hid, runners: int, maxRunners: nat): Manager {
    if maxRunners != 0 && runners == maxRunners - 1 then PushHandler(m, h) else m
  }

  // ----- the LRU

  function LruAdd(l: Lru, h: Hid, usage: nat): Lru {
    Lru([h] + l.queue, l.keys + {h}, l.size + usage)
  }

  /** Remove subtracts the usage even when the handler has no entry. */
  function LruRemove(l: Lru, h: Hid, usage: nat): Lru {
    Lru(if h in l.keys then Without(l.queue, h) else l.queue, l.keys - {h}, l.size - usage)
  }

  // ----- the steps

  function NewHandler(name: string): Handler {
    Handler(name, 1, 0, None, 1, 0, 0, false, false, false, false)
  }

  function GetStep(p: Pool, name: string): (q: Pool)
    requires WellFormed(p)
  {
    var m := ManagerOf(p, name);
    if m.handlers == [] then
      var h := |p.hs|;
      var m' := if p.maxRunners == 0 || 1 < p.maxRunners then PushHandler(m, h) else m;
      p.(managers := p.managers[name := m'], hs := p.hs + [NewHandler(name)])
    else
      var h := m.handlers[0];
      assert h in m.handlers;
      var r := p.hs[h];
      var m' := if p.maxRunners != 0 && r.runners + 1 == p.maxRunners then
                  m.(handlers := m.handlers[1..], elements := m.elements - {h})
                else m;
      p.(managers := p.managers[name := m'],
         hs := p.hs[h := r.(runners := r.runners + 1, gotten := r.gotten + 1, limbo := false)],
         lru := if r.runners == 0 then LruRemove(p.lru, h, r.usage) else p.lru)
  }

  /** The handler that `Get` hands out. */
  function Gotten(p: Pool, name: string): Hid {
    var m := ManagerOf(p, name);
    if m.handlers == [] then |p.hs| else m.handlers[0]
  }

  /** The sandbox that RunStart leaves, for the state in which the factory creates one. */
  function StartedSandbox(sandbox: Option<SandboxState>, outcome: StartOutcome, created: SandboxState)
    : Option<SandboxState>
  {
    match sandbox
    case None =>
      (match outcome
       case NoSandbox => None
       case LeftAsCreated => Some(created)
       case _ => Some(Running))
    case Some(Paused) => if outcome == Ok || outcome == LateFailure then Some(Running) else sandbox
    case _ => sandbox
  }

  function Started(r: Handler, outcome: StartOutcome, created: SandboxState): Handler {
    var s := StartedSandbox(r.sandbox, outcome, created);
    r.(
      sandbox := s,
      gotten := r.gotten - 1,
      active := if outcome == Ok then r.active + 1 else r.active,
      leaked := if outcome == Ok then r.leaked else r.leaked + 1,
      startFailed := r.startFailed || (r.sandbox == None && s == Some(Stopped)))
  }

  function RunStartStep(p: Pool, h: Hid, outcome: StartOutcome, created: SandboxState): Pool
    requires h < |p.hs|
  {
    p.(hs := p.hs[h := Started(p.hs[h], outcome, created)])
  }

  function PausedSandbox(sandbox: Option<SandboxState>, pauseOk: bool): Option<SandboxState> {
    if sandbox == Some(Running) && pauseOk then Some(Paused) else sandbox
  }

  function RunFinishStep(p: Pool, h: Hid, usageAtCheck: nat, usageAtAdd: nat, pauseOk: bool): Pool
    requires WellFormed(p) && h < |p.hs|
  {
    var r0 := p.hs[h];
    var r := r0.(runners := r0.runners - 1, active := r0.active - 1);
    var m := p.managers[r.name];
    var m' := AddHandler(m, h, r.runners, p.maxRunners);
    if r.runners != 0 then
      p.(hs := p.hs[h := r], managers := p.managers[r.name := m'])
    else
      var idle := r.(sandbox := PausedSandbox(r.sandbox, pauseOk));
      if usageAtCheck > p.softLimit then
        p.(hs := p.hs[h := idle.(limbo := true)], pending := p.pending + multiset{h})
      else if h in p.lru.keys then
        p.(crashed := true)
      else
        p.(hs := p.hs[h := idle.(usage := usageAtAdd)],
           managers := p.managers[r.name := m'],
           lru := LruAdd(p.lru, h, usageAtAdd))
  }

  function TryRemoveStep(p: Pool, h: Hid): Pool
    requires WellFormed(p) && h < |p.hs|
  {
    var r := p.hs[h];
    var p' := p.(pending := p.pending - multiset{h});
    if r.runners > 0 then p'
    else
      p'.(hs := p.hs[h := r.(retired := true)],
          managers := p.managers[r.name := DropHandler(p.managers[r.name], h)],
          nukes := p.nukes + multiset{h})
  }

  /** The rest of a round of the evictor, which does not look at the size again. Unlinking a handler
      that its manager does not list dereferences nil. */
  function EvictStep(p: Pool): Pool
    requires WellFormed(p)
  {
    if p.lru.queue == [] then p.(evicting := false)
    else
      var n := |p.lru.queue| - 1;
      var h := p.lru.queue[n];
      assert h in p.lru.queue;
      var r := p.hs[h];
      var m := p.managers[r.name];
      if h !in m.elements then p.(evicting := false, crashed := true)
      else
        p.(lru := Lru(p.lru.queue[..n], p.lru.keys - {h}, p.lru.size - r.usage),
           hs := p.hs[h := r.(retired := true)],
           managers := p.managers[r.name := DropHandler(m, h)],
           nukes := p.nukes + multiset{h},
           evicting := false)
  }

  function NukeStep(p: Pool, h: Hid): Pool
    requires h < |p.hs|
  {
    p.(nukes := p.nukes - multiset{h},
       hs := p.hs[h := p.hs[h].(nuked := true, sandbox := Some(Stopped))])
  }

  predicate Enabled(p: Pool, st: Step) {
    !p.crashed &&
    match st
    case Get(_) => true
    case RunStart(h, _, _) => h < |p.hs| && p.hs[h].gotten > 0
    case RunFinish(h, _, _, _) => h < |p.hs| && p.hs[h].active > 0
    case TryRemove(h) => h < |p.hs| && h in p.pending
    case CheckSize => !p.evicting && p.lru.size > p.softLimit
    case Evict => p.evicting
    case Nuke(h) => h < |p.hs| && h in p.nukes
  }

  function Apply(p: Pool, st: Step): Pool
    requires WellFormed(p) && Enabled(p, st)
  {
    match st
    case Get(name) => GetStep(p, name)
    case RunStart(h, outcome, created) => RunStartStep(p, h, outcome, created)
    case RunFinish(h, u1, u2, ok) => RunFinishStep(p, h, u1, u2, ok)
    case TryRemove(h) => TryRemoveStep(p, h)
    case CheckSize => p.(evicting := true)
    case Evict => EvictStep(p)
    case Nuke(h) => NukeStep(p, h)
  }

  lemma GetWellFormed(p: Pool, name: string)
    requires WellFormed(p)
    ensures WellFormed(GetStep(p, name))
  {
    var m := ManagerOf(p, name);
    if m.handlers != [] {
      assert m.handlers[0] in m.handlers;
      assert forall x :: x in m.handlers[1..] ==> x in m.handlers;
      WithoutElements(p.lru.queue, m.handlers[0]);
    }
  }

  lemma DropWellFormed(p: Pool, n: string, h: Hid)
    requires WellFormed(p) && n in p.managers
    ensures WellFormed(p.(managers := p.managers[n := DropHandler(p.managers[n], h)]))
  {
    WithoutElements(p.managers[n].handlers, h);
  }

  lemma EvictWellFormed(p: Pool)
    requires WellFormed(p)
    ensures WellFormed(EvictStep(p))
  {
    if p.lru.queue != [] {
      var n := |p.lru.queue| - 1;
      var h := p.lru.queue[n];
      assert h in p.lru.queue;
      assert forall x :: x in p.lru.queue[..n] ==> x in p.lru.queue;
      DropWellFormed(p, p.hs[h].name, h);
    }
  }

  lemma BusyFinishWellFormed(p: Pool, h: Hid, u1: nat, u2: nat, ok: bool)
    requires WellFormed(p) && h < |p.hs| && p.hs[h].runners != 1
    ensures WellFormed(RunFinishStep(p, h, u1, u2, ok))
  {
  }

  lemma OverLimitWellFormed(p: Pool, h: Hid, u1: nat, u2: nat, ok: bool)
    requires WellFormed(p) && h < |p.hs| && p.hs[h].runners == 1 && u1 > p.softLimit
    ensures WellFormed(RunFinishStep(p, h, u1, u2, ok))
  {
  }

  lemma IdleFinishWellFormed(p: Pool, h: Hid, u1: nat, u2: nat, ok: bool)
    requires WellFormed(p) && h < |p.hs| && p.hs[h].runners == 1 && u1 <= p.softLimit
    ensures WellFormed(RunFinishStep(p, h, u1, u2, ok))
  {
  }

  lemma RunFinishWellFormed(p: Pool, h: Hid, u1: nat, u2: nat, ok: bool)
    requires WellFormed(p) && h < |p.hs|
    ensures WellFormed(RunFinishStep(p, h, u1, u2, ok))
  {
    if p.hs[h].runners != 1 {
      BusyFinishWellFormed(p, h, u1, u2, ok);
    } else if u1 > p.softLimit {
      OverLimitWellFormed(p, h, u1, u2, ok);
    } else {
      IdleFinishWellFormed(p, h, u1, u2, ok);
    }
  }

  lemma TryRemoveWellFormed(p: Pool, h: Hid)
    requires WellFormed(p) && h < |p.hs|
    ensures WellFormed(TryRemoveStep(p, h))
  {
    DropWellFormed(p, p.hs[h].name, h);
  }

  lemma ApplyWellFormed(p: Pool, st: Step)
    requires WellFormed(p) && Enabled(p, st)
    ensures WellFormed(Apply(p, st))
  {
    match st {
      case Get(name) => GetWellFormed(p, name);
      case RunFinish(h, u1, u2, ok) => RunFinishWellFormed(p, h, u1, u2, ok);
      case TryRemove(h) => TryRemoveWellFormed(p, h);
      case Evict => EvictWellFormed(p);
      case _ =>
    }
  }

  /** A step that is not enabled leaves the pool alone, so that a run is any sequence. */
  function Next(p: Pool, st: Step): (q: Pool)
    requires WellFormed(p)
    ensures WellFormed(q)
  {
    if Enabled(p, st) then ApplyWellFormed(p, st); Apply(p, st) else p
  }

  function Exec(p: Pool, run: seq<Step>): (q: Pool)
    requires WellFormed(p)
    ensures WellFormed(q)
  {
    if run == [] then p else Next(Exec(p, run[..|run| - 1]), run[|run| - 1])
  }
}
