/**
 The pool as the worker keeps it: objects whose methods update lists, maps and counters in
 place. Each method is proved to take the step that `HandlerPool` describes.
 */
module HandlerManagerSets {
  import opened Collections
  import opened HandlerPool
  import opened HandlerPoolProofs
  import opened HandlerPoolExact

  class HandlerLRU {
    var hqueue: seq<Hid>
    var hmap: set<Hid>
    var size: int

    function State(): Lru
      reads this
    {
      Lru(hqueue, hmap, size)
    }

    constructor ()
      ensures State() == Lru([], {}, 0)
    {
      hqueue, hmap, size := [], {}, 0;
    }

    method Add(h: Hid, usage: nat)
      requires h !in hmap
      modifies this
      ensures State() == LruAdd(old(State()), h, usage)
    {
      hqueue := [h] + hqueue;
      size := size + usage;
      hmap := hmap + {h};
    }

    method Remove(h: Hid, usage: nat)
      modifies this
      ensures State() == LruRemove(old(State()), h, usage)
    {
      var present := h in hmap;
      hmap := hmap - {h};
      if present {
        hqueue := Without(hqueue, h);
      }
      size := size - usage;
    }
  }

  class HandlerManagerSet {
    const maxRunners: nat
    const softLimit: int
    var hmMap: map<string, Manager>
    var handlers: seq<Handler>
    const lru: HandlerLRU
    var pending: multiset<Hid>
    var nukes: multiset<Hid>
    var evicting: bool
    var crashed: bool

    function State(): Pool
      reads this, lru
    {
      Pool(maxRunners, softLimit, hmMap, handlers, lru.State(), pending, nukes, evicting, crashed)
    }

    constructor (maxRunners: nat, softLimit: int)
      ensures State() == Initial(maxRunners, softLimit)
    {
      this.maxRunners, this.softLimit := maxRunners, softLimit;
      hmMap, handlers := map[], [];
      lru := new HandlerLRU();
      pending, nukes, evicting, crashed := multiset{}, multiset{}, false, false;
    }

    method Get(name: string) returns (h: Hid)
      requires WellFormed(State())
      modifies this, lru
      ensures State() == GetStep(old(State()), name)
      ensures h == Gotten(old(State()), name)
    {
      if name !in hmMap {
        hmMap := hmMap[name := EmptyManager()];
      }
      var hm := hmMap[name];
      if hm.handlers == [] {
        h := |handlers|;
        handlers := handlers + [NewHandler(name)];
        if maxRunners == 0 || 1 < maxRunners {
          hmMap := hmMap[name := PushHandler(hm, h)];
        }
      } else {
        h := hm.handlers[0];
        assert h in hm.handlers;
        if handlers[h].runners == 0 {
          lru.Remove(h, handlers[h].usage);
        }
        var r := handlers[h];
        handlers := handlers[h := r.(runners := r.runners + 1, gotten := r.gotten + 1, limbo := false)];
        if maxRunners != 0 && handlers[h].runners == maxRunners {
          hmMap := hmMap[name := hm.(handlers := hm.handlers[1..], elements := hm.elements - {h})];
        }
      }
    }

    /** The sandbox part of RunStart, for the state in which the factory creates one. */
    method StartSandbox(sandbox: Option<SandboxState>, outcome: StartOutcome, created: SandboxState)
      returns (s: Option<SandboxState>)
      ensures s == StartedSandbox(sandbox, outcome, created)
      ensures outcome == Ok ==> s.Some? && s != Some(Paused)
      ensures outcome == Ok ==> (s == Some(Running) <==> sandbox != Some(Stopped))
    {
      s := sandbox;
      if s == None {
        if outcome == LeftAsCreated {
          s := Some(created);
        } else if outcome != NoSandbox {
          s := Some(Running);
        }
      } else if s == Some(Paused) {
        if outcome == Ok || outcome == LateFailure {
          s := Some(Running);
        }
      }
      if s.Some? {
        assert s.value == Running || s.value == Paused || s.value == Stopped;
      }
    }

    method RunStart(h: Hid, outcome: StartOutcome, created: SandboxState)
      requires h < |handlers|
      modifies this`handlers
      ensures State() == RunStartStep(old(State()), h, outcome, created)
    {
      var r := handlers[h];
      var s := StartSandbox(r.sandbox, outcome, created);
      r := r.(startFailed := r.startFailed || (r.sandbox == None && s == Some(Stopped)), sandbox := s);
      if outcome == Ok {
        r := r.(gotten := r.gotten - 1, active := r.active + 1);
      } else {
        r := r.(gotten := r.gotten - 1, leaked := r.leaked + 1);
      }
      handlers := handlers[h := r];
    }

    method RunFinish(h: Hid, usageAtCheck: nat, usageAtAdd: nat, pauseOk: bool)
      requires WellFormed(State()) && h < |handlers|
      modifies this, lru
      ensures State() == RunFinishStep(old(State()), h, usageAtCheck, usageAtAdd, pauseOk)
    {
      var r := handlers[h];
      r := r.(runners := r.runners - 1, active := r.active - 1);
      if r.runners != 0 {
        hmMap := hmMap[r.name := AddHandler(hmMap[r.name], h, r.runners, maxRunners)];
        handlers := handlers[h := r];
        return;
      }
      r := r.(sandbox := PausedSandbox(r.sandbox, pauseOk));
      if usageAtCheck > softLimit {
        handlers := handlers[h := r.(limbo := true)];
        pending := pending + multiset{h};
      } else if h in lru.hmap {
        crashed := true;
      } else {
        hmMap := hmMap[r.name := AddHandler(hmMap[r.name], h, r.runners, maxRunners)];
        handlers := handlers[h := r.(usage := usageAtAdd)];
        lru.Add(h, usageAtAdd);
      }
    }

    method TryRemoveHandler(h: Hid) returns (removed: bool)
      requires WellFormed(State()) && h < |handlers|
      modifies this
      ensures State() == TryRemoveStep(old(State()), h)
      ensures removed <==> old(handlers[h].runners) <= 0
    {
      pending := pending - multiset{h};
      if handlers[h].runners > 0 {
        return false;
      }
      var name := handlers[h].name;
      hmMap := hmMap[name := DropHandler(hmMap[name], h)];
      handlers := handlers[h := handlers[h].(retired := true)];
      nukes := nukes + multiset{h};
      return true;
    }

    /** The rest of a round after its check. Unlinking a handler that its manager does not list dereferences nil. */
    method EvictOne()
      requires WellFormed(State())
      modifies this, lru
      ensures State() == EvictStep(old(State()))
    {
      evicting := false;
      if lru.hqueue == [] {
        return;
      }
      var n := |lru.hqueue| - 1;
      var h := lru.hqueue[n];
      assert h in lru.hqueue;
      var name := handlers[h].name;
      if h !in hmMap[name].elements {
        crashed := true;
        return;
      }
      lru.hqueue := lru.hqueue[..n];
      lru.hmap := lru.hmap - {h};
      lru.size := lru.size - handlers[h].usage;
      hmMap := hmMap[name := DropHandler(hmMap[name], h)];
      handlers := handlers[h := handlers[h].(retired := true)];
      nukes := nukes + multiset{h};
    }

    /** The evictor's rounds while nothing is added, from any state of a run. From an exact one they end
        within a limit that is not negative, at the shortest eviction that is enough, without a crash. */
    method Evictor()
      requires Inv(State())
      modifies this, lru
      ensures State() == EvictRounds(old(State()))
      ensures old(Exact(State()) && !crashed) ==> !crashed && ShortestEviction(old(State()), State())
      ensures old(Exact(State()) && !crashed) && softLimit >= 0 ==> lru.size <= softLimit
    {
      if Exact(State()) && !crashed {
        EvictRoundsRemoveShortestRun(State());
      }
      while !crashed && lru.size > softLimit && lru.hqueue != []
        invariant WellFormed(State())
        invariant EvictRounds(State()) == EvictRounds(old(State()))
        decreases if crashed then 0 else |lru.hqueue| + 1
      {
        EvictWellFormed(State());
        EvictForgetsCheck(State());
        evicting := true;
        EvictOne();
      }
    }
  }

  lemma EvictForgetsCheck(p: Pool)
    requires WellFormed(p)
    ensures WellFormed(p.(evicting := true)) && EvictStep(p.(evicting := true)) == EvictStep(p)
  {
  }
}
