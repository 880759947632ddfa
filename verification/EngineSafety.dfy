/** What holds of the engine across every interleaving: its roots, configuration and state agree, and
    no server is triggered that the running configuration does not have. */
module EngineSafety {
  import opened Types
  import opened EngineRuns
  import opened Clients

  // ---- the watcher and the configuration --------------------------------------------------

  /** Running means that the watcher has the roots of the configuration; blocked, that it has none. */
  ghost predicate Coherent(s: System) {
    && (s.state.Running? ==> s.config.Some? && s.roots == s.config.value.watchPaths)
    && (s.state.Blocked? ==> s.roots == {})
  }

  /** `start` has passed the gate. */
  predicate Entered(s: System) {
    s.start.Looping? || s.start.Headless?
  }

  lemma {:induction false} StepKeepsCoherent(s: System, step: Step, lower: char -> char)
    requires Entered(s) && Coherent(s) && Possible(s, step)
    ensures Entered(Next(s, step, lower)) && Coherent(Next(s, step, lower))
  {
  }

  /** A swap makes the two agree, whatever they were before; the configuration is the new one from then
      on, and no trigger begins in between. */
  lemma {:induction false} SwapIsCoherent(s: System, ok: bool, lower: char -> char)
    requires Possible(s, Swap(ok))
    ensures var v := Next(s, Swap(ok), lower);
            Coherent(v) && v.config == Some(s.build.value.config) && v.triggers == s.triggers
  {
  }

  /** `start` passes the gate with the configuration it read, which a rebuild may have replaced while
      it waited.  Exactly when this leaves the watcher and the configuration in agreement. */
  lemma {:induction false} EnterIsCoherent(s: System, ok: bool, park: bool, lower: char -> char)
    requires Inv(s) && Possible(s, Enter(ok, park))
    ensures Coherent(Next(s, Enter(ok, park), lower))
            <==> if ok then s.config.value.watchPaths == s.start.config.watchPaths
                 else park || s.roots == {}
  {
  }

  /** Without a swap in between, they agree. */
  lemma {:induction false} UndisturbedStart(s: System, steps: seq<Step>, lower: char -> char, ok: bool, park: bool)
    requires Inv(s) && Possible(s, Wire) && Run(Next(s, Wire, lower), steps, lower)
    requires forall i :: 0 <= i < |steps| ==> !steps[i].Swap?
    requires Possible(After(Next(s, Wire, lower), steps, lower), Enter(ok, park))
    ensures Coherent(Next(After(Next(s, Wire, lower), steps, lower), Enter(ok, park), lower))
  {
    StepInv(s, Wire, lower);
    RunInv(Next(s, Wire, lower), steps, lower);
    WaitsUnchanged(Next(s, Wire, lower), steps, lower);
    EnterIsCoherent(After(Next(s, Wire, lower), steps, lower), ok, park, lower);
  }

  lemma {:induction false} WaitByStep(s: System, step: Step, lower: char -> char)
    requires Possible(s, step) && !step.Swap? && Wired(s)
    ensures var v := Next(s, step, lower);
            && Wired(v)
            && (v.start.Gating? ==> v.start == s.start && v.config == s.config && v.roots == s.roots)
  {
  }

  lemma {:induction false} WaitsUnchanged(s: System, steps: seq<Step>, lower: char -> char)
    requires s.start.Gating? && s.config == Some(s.start.config) && s.roots == {} && s.rebuild.Idle?
    requires Run(s, steps, lower)
    requires forall i :: 0 <= i < |steps| ==> !steps[i].Swap?
    ensures var v := After(s, steps, lower);
            Wired(v) && (v.start.Gating? ==> v.start == s.start && v.config == s.config && v.roots == {})
  {
    if |steps| > 0 {
      WaitsUnchanged(s, steps[..|steps| - 1], lower);
      WaitByStep(After(s, steps[..|steps| - 1], lower), steps[|steps| - 1], lower);
    }
  }

  /** A start without watch paths does not wait, so nothing can come between. */
  ghost predicate NothingBetween(s: System) {
    Ungated(s) ==> s.config == Some(s.start.config) && s.rebuild.Idle? && s.build.None? && s.roots == {}
  }

  lemma {:induction false} StepKeepsNothingBetween(s: System, step: Step, lower: char -> char)
    requires Inv(s) && NothingBetween(s) && Possible(s, step)
    ensures NothingBetween(Next(s, step, lower))
  {
    if Ungated(s) {
      assert step.Enter?;
    } else if step.Wire? {
      assert s.rebuild.Idle? && s.roots == {};
    }
  }

  lemma {:induction false} RunKeepsNothingBetween(steps: seq<Step>, lower: char -> char)
    requires Run(Fresh(), steps, lower)
    ensures NothingBetween(After(Fresh(), steps, lower))
  {
    if |steps| > 0 {
      var before := steps[..|steps| - 1];
      RunKeepsNothingBetween(before, lower);
      FreshInv();
      RunInv(Fresh(), before, lower);
      StepKeepsNothingBetween(After(Fresh(), before, lower), steps[|steps| - 1], lower);
    }
  }

  /** In every run a start whose configuration has no watch paths enters its loop in agreement. */
  lemma {:induction false} EmptyStartIsCoherent(steps: seq<Step>, ok: bool, park: bool, lower: char -> char)
    requires Run(Fresh(), steps, lower) && Possible(After(Fresh(), steps, lower), Enter(ok, park))
    requires After(Fresh(), steps, lower).start.config.watchPaths == {}
    ensures var s := After(Fresh(), steps, lower);
            s.config == Some(s.start.config) && Coherent(Next(s, Enter(ok, park), lower))
  {
    RunKeepsNothingBetween(steps, lower);
    FreshInv();
    RunInv(Fresh(), steps, lower);
    EnterIsCoherent(After(Fresh(), steps, lower), ok, park, lower);
  }

  /** From the moment `start` has passed the gate in agreement, every sequence of rebuilds and gate
      outcomes, with events, timers and the close in between, keeps the engine coherent. */
  lemma {:induction false} EngineCoherence(s: System, steps: seq<Step>, lower: char -> char)
    requires Inv(s) && Entered(s) && Coherent(s) && Run(s, steps, lower)
    ensures var v := After(s, steps, lower);
            && Entered(v) && Coherent(v) && v.config.Some?
            && v.adapters.Keys <= v.config.value.servers.Keys
            && v.debouncer.servers == v.config.value.servers
            && (!v.close.Closed? ==> v.clients.Keys == v.adapters.Keys)
  {
    RunInv(s, steps, lower);
    if |steps| > 0 {
      var before := steps[..|steps| - 1];
      EngineCoherence(s, before, lower);
      StepKeepsCoherent(After(s, before, lower), steps[|steps| - 1], lower);
    }
  }

  // ---- triggers ---------------------------------------------------------------------------

  /** A step begins at most one trigger. */
  lemma {:induction false} OneTrigger(s: System, step: Step, lower: char -> char)
    requires Possible(s, step)
    ensures var v := Next(s, step, lower);
            && s.triggers <= v.triggers && |v.triggers| <= |s.triggers| + 1
            && (v.triggers != s.triggers ==>
                  var t := v.triggers[|s.triggers|];
                  t.req.serverId in s.adapters && t.adapter == s.adapters[t.req.serverId])
  {
  }

  /** A trigger begins on the adapter of the latest swap: made from the server's entry in the running
      configuration and, until the engine has let go of its clients, with the server's current client. */
  lemma {:induction false} TriggerIsCurrent(s: System, step: Step, lower: char -> char)
    requires Inv(s) && Possible(s, step)
    requires Next(s, step, lower).triggers != s.triggers
    ensures var v := Next(s, step, lower);
            && |v.triggers| == |s.triggers| + 1 && s.config.Some?
            && var t, config := v.triggers[|s.triggers|], s.config.value;
            && t.req.serverId in config.servers && t.adapter.server == config.servers[t.req.serverId]
            && (!s.close.Closed? ==> t.req.serverId in s.clients && t.adapter.client == s.clients[t.req.serverId])
  {
    OneTrigger(s, step, lower);
    assert !Wired(s) ==> s.adapters == map[];
  }

  /** In every run, a trigger that begins before `aclose` closes clients begins on an open one: its client
      is held as the current client of its server and nowhere else, neither closed nor about to be. */
  lemma {:induction false} TriggerIsOnOpenClient(steps: seq<Step>, step: Step, lower: char -> char)
    requires Run(Fresh(), steps, lower) && Possible(After(Fresh(), steps, lower), step)
    requires var s := After(Fresh(), steps, lower);
             !s.close.ClosingClients? && !s.close.Closed? && Next(s, step, lower).triggers != s.triggers
    ensures var s := After(Fresh(), steps, lower);
            var v := Next(s, step, lower);
            && |v.triggers| == |s.triggers| + 1
            && var client := v.triggers[|s.triggers|].adapter.client;
            && client !in s.closed
            && (s.rebuild.Retiring? ==> forall id :: id in s.rebuild.clients ==> s.rebuild.clients[id] != client)
  {
    var s := After(Fresh(), steps, lower);
    FreshInv();
    RunInv(Fresh(), steps, lower);
    OwnedBeforeLoop(steps, lower);
    TriggerIsCurrent(s, step, lower);
    CurrentIsOpen(Held(s), Next(s, step, lower).triggers[|s.triggers|].req.serverId);
  }

  /** No swap of the run brings the server back. */
  ghost predicate NeverAdds(s: System, steps: seq<Step>, lower: char -> char, id: int)
    requires Run(s, steps, lower)
  {
    |steps| > 0 ==>
      var before, step := steps[..|steps| - 1], steps[|steps| - 1];
      && NeverAdds(s, before, lower, id)
      && (step.Swap? ==> id !in After(s, before, lower).build.value.config.servers)
  }

  /** From a state whose configuration does not have a server, no trigger for it begins until a swap
      brings it back: not by a request routed before, not by a timer already awake, not by a new event. */
  lemma {:induction false} NoTriggerOnDroppedServer(s: System, steps: seq<Step>, lower: char -> char, id: int)
    requires Inv(s) && Wired(s) && id !in s.config.value.servers
    requires Run(s, steps, lower) && NeverAdds(s, steps, lower, id)
    ensures var v := After(s, steps, lower);
            && |s.triggers| <= |v.triggers|
            && forall k :: |s.triggers| <= k < |v.triggers| ==> v.triggers[k].req.serverId != id
  {
    StaysDropped(s, steps, lower, id);
  }

  /** The state `v` still has no adapter for the server, and no trigger for it has begun since `s`. */
  ghost predicate StillWithout(s: System, v: System, id: int) {
    && Wired(v) && id !in v.adapters
    && s.triggers <= v.triggers
    && forall k :: |s.triggers| <= k < |v.triggers| ==> v.triggers[k].req.serverId != id
  }

  lemma {:induction false} StaysDropped(s: System, steps: seq<Step>, lower: char -> char, id: int)
    requires Inv(s) && Wired(s) && id !in s.adapters
    requires Run(s, steps, lower) && NeverAdds(s, steps, lower, id)
    ensures StillWithout(s, After(s, steps, lower), id)
  {
    if |steps| > 0 {
      var before, step := steps[..|steps| - 1], steps[|steps| - 1];
      StaysDropped(s, before, lower, id);
      RunInv(s, before, lower);
      DroppedByStep(s, After(s, before, lower), step, lower, id);
    }
  }

  lemma {:induction false} DroppedByStep(s: System, u: System, step: Step, lower: char -> char, id: int)
    requires StillWithout(s, u, id) && BuildsLinked(u) && Possible(u, step)
    requires step.Swap? ==> id !in u.build.value.config.servers
    ensures StillWithout(s, Next(u, step, lower), id)
  {
    OneTrigger(u, step, lower);
    AdaptersByStep(u, step, lower, id);
  }

  lemma {:induction false} AdaptersByStep(s: System, step: Step, lower: char -> char, id: int)
    requires BuildsLinked(s) && Wired(s) && id !in s.adapters && Possible(s, step)
    requires step.Swap? ==> id !in s.build.value.config.servers
    ensures Wired(Next(s, step, lower)) && id !in Next(s, step, lower).adapters
  {
  }
}
