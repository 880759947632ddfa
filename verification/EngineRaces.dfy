/** Runs of the engine that end badly: a start overtaken by a rebuild, a rebuild that raises, and a swap
    under the closing loop. */
module EngineRaces {
  import opened Types
  import opened EngineRuns
  import opened Clients
  import opened EngineSafety
  import opened Repo
  import opened Schemas
  import opened Snapshot
  import W = Writes

  /** `steps` is a run of a fresh engine that ends in `v`. */
  ghost predicate Ends(steps: seq<Step>, v: System, lower: char -> char) {
    Run(Fresh(), steps, lower) && After(Fresh(), steps, lower) == v
  }

  lemma {:induction false} Then(steps: seq<Step>, u: System, step: Step, lower: char -> char)
    requires Ends(steps, u, lower) && Possible(u, step)
    ensures Ends(steps + [step], Next(u, step, lower), lower)
  {
    Extend(Fresh(), steps, step, lower);
  }

  /** The rest of a build, every adapter working. */
  lemma {:induction false} BuildsOn(steps: seq<Step>, u: System, lower: char -> char) returns (more: seq<Step>, v: System)
    requires Ends(steps, u, lower) && u.build.Some? && u.build.value.failing.None?
    requires u.build.value.todo <= u.build.value.config.servers.Keys
    ensures Ends(more, v, lower) && v == u.(build := v.build, built := v.built)
    ensures BuildDone(v) && v.build.value.config == u.build.value.config
    ensures v.build.value.clients.Keys == u.build.value.clients.Keys + u.build.value.todo
    decreases u.build.value.todo
  {
    var b := u.build.value;
    if b.todo == {} {
      more, v := steps, u;
    } else {
      assert (forall k :: k !in b.todo) ==> b.todo == {};
      var id :| id in b.todo;
      Then(steps, u, BuildOne(id, true), lower);
      more, v := BuildsOn(steps + [BuildOne(id, true)], WithOneBuilt(u, id, true), lower);
    }
  }

  lemma {:induction false} Started(config: RuntimeConfig, lower: char -> char) returns (steps: seq<Step>, v: System)
    ensures Ends(steps, v, lower)
    ensures v == Fresh().(start := Wiring, state := Starting, config := Some(config), build := Some(NewBuild(config)))
  {
    assert Ends([], Fresh(), lower);
    Then([], Fresh(), Start, lower);
    var u := Fresh().(start := ReadingConfig, state := Starting);
    Then([] + [Start], u, ConfigRead(config), lower);
    steps, v := [] + [Start] + [ConfigRead(config)], Next(u, ConfigRead(config), lower);
  }

  /** A start that has wired its pipeline and waits for the gate. */
  lemma {:induction false} Waiting(config: RuntimeConfig, lower: char -> char) returns (steps: seq<Step>, v: System)
    ensures Ends(steps, v, lower) && Inv(v)
    ensures v.start == Gating(config) && v.config == Some(config) && v.rebuild.Idle? && v.close.Open? && v.build.None?
    ensures v.clients.Keys == config.servers.Keys && v.closed == [] && v.lost == []
  {
    steps, v := Started(config, lower);
    steps, v := BuildsOn(steps, v, lower);
    Then(steps, v, Wire, lower);
    steps, v := steps + [Wire], WiredUp(v);
    FreshInv();
    RunInv(Fresh(), steps, lower);
  }

  /** A rebuild that has built its adapters and waits for the gate. */
  lemma {:induction false} Rebuilt(steps: seq<Step>, u: System, config: RuntimeConfig, lower: char -> char)
    returns (more: seq<Step>, v: System)
    requires Ends(steps, u, lower) && Wired(u) && u.rebuild.Idle? && !MidStretch(u)
    ensures Ends(more, v, lower) && v == u.(rebuild := Rebuilding, build := v.build, built := v.built)
    ensures BuildDone(v) && v.build.value.config == config && v.build.value.clients.Keys == config.servers.Keys
  {
    Then(steps, u, BeginRebuild, lower);
    more, v := steps + [BeginRebuild], Next(u, BeginRebuild, lower);
    Then(more, v, ConfigRead(config), lower);
    more, v := more + [ConfigRead(config)], Next(v, ConfigRead(config), lower);
    more, v := BuildsOn(more, v, lower);
  }

  /** A rebuild that swaps while `start` waits for the gate is overwritten: whatever the two configurations,
      if the first has something to wait for, the engine runs with the roots of the one it no longer has. */
  lemma {:induction false} StaleStart(first: RuntimeConfig, second: RuntimeConfig, lower: char -> char)
    returns (steps: seq<Step>, v: System)
    requires first.watchPaths != {} && first.watchPaths != second.watchPaths
    ensures Ends(steps, v, lower)
    ensures v.state.Running? && v.start.Looping? && v.config == Some(second) && v.roots == first.watchPaths && !Coherent(v)
  {
    steps, v := Waiting(first, lower);
    steps, v := Rebuilt(steps, v, second, lower);
    Then(steps, v, Swap(true), lower);
    steps, v := steps + [Swap(true)], Next(v, Swap(true), lower);
    Then(steps, v, Enter(true, true), lower);
    steps, v := steps + [Enter(true, true)], Next(v, Enter(true, true), lower);
  }

  /** Such configurations are the snapshots before and after a change of one folder's path, in the history
      in which an enabled server is created with that folder. */
  lemma {:induction false} StaleStartFromWrites(data: ServerCreate, p: string, q: string, ignoreDirs: set<string>, lower: char -> char)
    returns (first: RuntimeConfig, second: RuntimeConfig, steps: seq<Step>, v: System)
    requires data.enabled && DifferentPaths(p, q)
    ensures var history := [W.Creation(data, p), W.PathChange(data, q)];
            && W.History(history, lower)
            && Agrees(W.TablesOf(history[..1]), first, [1], lower) && Agrees(W.TablesOf(history), second, [1], lower)
    ensures Ends(steps, v, lower)
    ensures v.state.Running? && v.start.Looping? && v.config == Some(second) && v.roots == first.watchPaths && !Coherent(v)
  {
    W.CreatedAndMoved(data, p, q, lower);
    EventTypesRoundTrip(data.eventTypes);
    first, second := TwoSnapshots(NewServer(data), p, q, ignoreDirs, lower);
    steps, v := StaleStart(first, second, lower);
  }

  // ---- clients ----------------------------------------------------------------------------

  /** A running engine with a finished build of a rebuild, its clients all at different places. */
  lemma {:induction false} RunningAndRebuilt(config: RuntimeConfig, lower: char -> char) returns (steps: seq<Step>, v: System)
    ensures Ends(steps, v, lower) && Owned(Held(v))
    ensures v.start.Looping? && v.rebuild.Rebuilding? && BuildDone(v) && v.close.Open? && v.closed == []
    ensures v.build.value.config == config && (config.watchPaths != {} ==> !MidStretch(v))
    ensures v.clients.Keys == config.servers.Keys && v.build.value.clients.Keys == config.servers.Keys
  {
    steps, v := Waiting(config, lower);
    Then(steps, v, Enter(true, true), lower);
    steps, v := steps + [Enter(true, true)], Next(v, Enter(true, true), lower);
    steps, v := Rebuilt(steps, v, config, lower);
    OwnedBeforeLoop(steps, lower);
  }

  /** The rest of the closing loop. */
  lemma {:induction false} ClosesOn(steps: seq<Step>, u: System, lower: char -> char) returns (more: seq<Step>, v: System)
    requires Ends(steps, u, lower) && u.close.ClosingClients? && !MidStretch(u)
    ensures Ends(more, v, lower) && v == u.(close := ClosingClients(map[]), closed := v.closed)
    ensures forall c :: c in v.closed ==> c in u.closed || exists k :: k in u.close.clients && u.close.clients[k] == c
    decreases u.close.clients.Keys
  {
    var todo := u.close.clients;
    if todo == map[] {
      more, v := steps, u;
    } else {
      var id := SomeServer(todo);
      Then(steps, u, CloseOne(id), lower);
      more, v := ClosesOn(steps + [CloseOne(id)], WithOneClosed(u, id), lower);
    }
  }

  lemma {:induction false} ToTheLoop(steps: seq<Step>, u: System, lower: char -> char) returns (more: seq<Step>, v: System)
    requires Ends(steps, u, lower) && u.close.Open? && !MidStretch(u)
    ensures Ends(more, v, lower) && v == WithTimersClosed(u.(close := ReleasingWatcher)).(close := ClosingClients(u.clients))
  {
    Then(steps, u, BeginClose, lower);
    more, v := steps + [BeginClose], Next(u, BeginClose, lower);
    Then(more, v, CloseTimers, lower);
    more, v := more + [CloseTimers], Next(v, CloseTimers, lower);
    Then(more, v, BeginClientClose, lower);
    more, v := more + [BeginClientClose], Next(v, BeginClientClose, lower);
  }

  lemma {:induction false} RaisedHoldingClient(config: RuntimeConfig, id: int, lower: char -> char)
    returns (steps: seq<Step>, v: System, c: nat)
    requires id in config.servers && config.watchPaths != {}
    ensures Ends(steps, v, lower) && v.close.Open? && v.rebuild.Idle? && v.build.None? && v.closed == [] && !MidStretch(v)
    ensures c < v.built && forall k :: k in v.clients ==> v.clients[k] != c
  {
    steps, v := RunningAndRebuilt(config, lower);
    var h := Held(v);
    c := v.build.value.clients[id];
    assert At(h, InBuild(id)) == Some(c);
    assert forall k :: k in v.clients ==> At(h, Current(k)) == Some(v.clients[k]);
    Then(steps, v, RebuildRaises, lower);
    steps, v := steps + [RebuildRaises], Next(v, RebuildRaises, lower);
  }

  lemma {:induction false} Closes(steps: seq<Step>, u: System, lower: char -> char) returns (more: seq<Step>, v: System)
    requires Ends(steps, u, lower) && u.close.Open? && !MidStretch(u)
    ensures Ends(more, v, lower) && v.close.Closed? && v.rebuild == u.rebuild && v.build == u.build && v.built == u.built
    ensures forall c :: c in v.closed ==> c in u.closed || exists k :: k in u.clients && u.clients[k] == c
  {
    more, v := ToTheLoop(steps, u, lower);
    more, v := ClosesOn(more, v, lower);
    Then(more, v, EndClose, lower);
    more, v := more + [EndClose], Next(v, EndClose, lower);
  }

  /** A rebuild whose gate check raises leaves the clients it built open for good: with any configuration
      that has a server and a watch path, the engine ends closed and such a client was never closed. */
  lemma {:induction false} RaisingRebuildLeaks(config: RuntimeConfig, id: int, lower: char -> char)
    returns (steps: seq<Step>, v: System, c: nat)
    requires id in config.servers && config.watchPaths != {}
    ensures Ends(steps, v, lower) && v.close.Closed? && v.rebuild.Idle? && v.build.None?
    ensures c < v.built && c !in v.closed
  {
    steps, v, c := RaisedHoldingClient(config, id, lower);
    steps, v := Closes(steps, v, lower);
  }

  /** A swap under the closing loop closes a client twice. */
  lemma {:induction false} SwapUnderLoopClosesTwice(config: RuntimeConfig, id: int, lower: char -> char)
    returns (steps: seq<Step>, v: System)
    requires id in config.servers && config.watchPaths != {}
    ensures Ends(steps, v, lower) && |v.closed| == 2 && v.closed[0] == v.closed[1]
  {
    steps, v := RunningAndRebuilt(config, lower);
    steps, v := ToTheLoop(steps, v, lower);
    Then(steps, v, Swap(true), lower);
    steps, v := steps + [Swap(true)], Next(v, Swap(true), lower);
    Then(steps, v, CloseOne(id), lower);
    steps, v := steps + [CloseOne(id)], Next(v, CloseOne(id), lower);
    Then(steps, v, RetireOne(id), lower);
    steps, v := steps + [RetireOne(id)], Next(v, RetireOne(id), lower);
  }
}
