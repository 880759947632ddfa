/** The engine as a machine over its await points: start, rebuild, event handling, timers and close,
    in any interleaving of the stretches between them. */
module EngineRuns {
  import opened Types
  import Router
  import D = Debounce

  /** An adapter bound to the HTTP client, named by a number, that it was built with. */
  datatype Adapter = Adapter(server: ServerRuntime, client: nat)

  datatype Trigger = Trigger(req: ScanRequest, adapter: Adapter)

  datatype EngineState = Stopped | Starting | Running | Blocked

  /** A build of adapters under way: the servers still to visit, what was built so far, and the client
      of a failed adapter while it is being closed. */
  datatype Build = Build(
    config: RuntimeConfig,
    todo: set<int>,
    adapters: map<int, Adapter>,
    clients: map<int, nat>,
    failing: Option<nat>)

  /** Where `start` stands.  While it waits for the gate it holds the configuration it began with. */
  datatype StartPhase = Unstarted | ReadingConfig | Wiring | Gating(config: RuntimeConfig) | Looping | Headless

  /** Where the rebuild that holds the lock stands; `Retiring` holds the old clients still to close. */
  datatype RebuildPhase = Idle | RereadingConfig | Rebuilding | Retiring(clients: map<int, nat>)

  datatype ClosePhase = Open | ReleasingWatcher | ReleasingTimers | ClosingClients(clients: map<int, nat>) | Closed

  datatype System = System(
    start: StartPhase,
    rebuild: RebuildPhase,
    close: ClosePhase,
    build: Option<Build>,
    config: Option<RuntimeConfig>,
    adapters: map<int, Adapter>,
    clients: map<int, nat>,
    debouncer: D.State,
    roots: set<string>,
    state: EngineState,
    pending: seq<ScanRequest>,
    built: nat,
    closed: seq<nat>,
    lost: seq<map<int, nat>>,
    triggers: seq<Trigger>)

  datatype Step =
    | Start
    | ConfigRead(config: RuntimeConfig)
    /** `works` is whether the adapter's construction succeeds. */
    | BuildOne(id: int, works: bool)
    | FailingClosed
    | Wire
    | Enter(ok: bool, park: bool)
    | BeginRebuild
    | Swap(ok: bool)
    /** The configuration read or the gate check of a rebuild raises. */
    | RebuildRaises
    | RetireOne(id: int)
    | EndRebuild
    | TakeEvent(event: FsEvent)
    | SubmitNext
    | Timer(step: D.Step)
    | BeginClose
    | CloseTimers
    | BeginClientClose
    | CloseOne(id: int)
    | EndClose

  function NoTimers(servers: map<int, ServerRuntime>): D.State {
    D.State(servers, map[], [], {}, 0, [])
  }

  function Fresh(): System {
    System(Unstarted, Idle, Open, None, None, map[], map[], NoTimers(map[]), {}, Stopped, [], 0, [], [], [])
  }

  predicate Wired(s: System) {
    s.start.Gating? || s.start.Looping? || s.start.Headless?
  }

  predicate BuildDone(s: System) {
    s.build.Some? && s.build.value.todo == {} && s.build.value.failing.None?
  }

  /** `start` does not wait for the gate, as its configuration has no watch paths. */
  predicate Ungated(s: System) {
    s.start.Gating? && s.start.config.watchPaths == {}
  }

  /** One coroutine is between two awaits: it builds adapters, wires what it built, or passes the gate
      without waiting. */
  predicate MidStretch(s: System) {
    || Ungated(s)
    || (s.build.Some? && s.build.value.failing.None?
        && (s.build.value.todo != {} || s.start.Wiring? || s.build.value.config.watchPaths == {}))
  }

  /** Nothing happens in the middle of a stretch but its own steps. */
  predicate Possible(s: System, step: Step) {
    && (MidStretch(s) ==> step.BuildOne? || step.Wire? || step.Enter? || step.Swap?)
    && Able(s, step)
  }

  predicate Able(s: System, step: Step) {
    match step
    case Start => s.start.Unstarted?
    case ConfigRead(_) => s.start.ReadingConfig? || s.rebuild.RereadingConfig?
    case BuildOne(id, _) => s.build.Some? && id in s.build.value.todo && s.build.value.failing.None?
                            && id in s.build.value.config.servers
    case FailingClosed => s.build.Some? && s.build.value.failing.Some?
    case Wire => s.start.Wiring? && BuildDone(s)
    case Enter(ok, _) => s.start.Gating? && (s.start.config.watchPaths == {} ==> ok)
    case BeginRebuild => Wired(s) && s.rebuild.Idle?
    case Swap(ok) => s.rebuild.Rebuilding? && BuildDone(s) && (s.build.value.config.watchPaths == {} ==> ok)
    case RebuildRaises => s.rebuild.RereadingConfig?
                          || (s.rebuild.Rebuilding? && BuildDone(s) && s.build.value.config.watchPaths != {})
    case RetireOne(id) => s.rebuild.Retiring? && id in s.rebuild.clients
    case EndRebuild => s.rebuild == Retiring(map[])
    case TakeEvent(_) => s.start.Looping? && s.pending == [] && s.config.Some?
    case SubmitNext => s.pending != []
    case Timer(t) => Wired(s) && (t.Fire? || t.Stop? || t.Done? || t.Tick?) && D.Possible(s.debouncer, t)
    case BeginClose => s.close.Open?
    case CloseTimers => s.close.ReleasingWatcher?
    case BeginClientClose => s.close.ReleasingTimers?
    case CloseOne(id) => s.close.ClosingClients? && id in s.close.clients
    case EndClose => s.close == ClosingClients(map[])
  }

  /** The trigger that begins, if the debouncer's step begins a dispatch and the dispatcher has an
      adapter for its server. */
  function Triggered(adapters: map<int, Adapter>, before: D.State, after: D.State): seq<Trigger> {
    if |before.log| < |after.log| && after.log[|before.log|].req.serverId in adapters then
      [Trigger(after.log[|before.log|].req, adapters[after.log[|before.log|].req.serverId])]
    else []
  }

  function Debounced(s: System, step: D.Step): System
    requires D.Possible(s.debouncer, step)
  {
    var after := D.Next(s.debouncer, step);
    s.(debouncer := after, triggers := s.triggers + Triggered(s.adapters, s.debouncer, after))
  }

  function NewBuild(config: RuntimeConfig): Build {
    Build(config, config.servers.Keys, map[], map[], None)
  }

  function BuiltOne(b: Build, id: int, works: bool, client: nat): Build
    requires id in b.config.servers
  {
    if works then
      b.(todo := b.todo - {id},
         adapters := b.adapters[id := Adapter(b.config.servers[id], client)],
         clients := b.clients[id := client])
    else b.(todo := b.todo - {id}, failing := Some(client))
  }

  function Roots(config: RuntimeConfig, ok: bool): set<string> {
    if ok then config.watchPaths else {}
  }

  function WithOneBuilt(s: System, id: int, works: bool): System
    requires s.build.Some? && id in s.build.value.config.servers
  {
    s.(build := Some(BuiltOne(s.build.value, id, works, s.built)), built := s.built + 1)
  }

  function WithFailingClosed(s: System): System
    requires s.build.Some? && s.build.value.failing.Some?
  {
    s.(build := Some(s.build.value.(failing := None)), closed := s.closed + [s.build.value.failing.value])
  }

  function WiredUp(s: System): System
    requires s.build.Some?
  {
    var b := s.build.value;
    s.(start := Gating(b.config), build := None, adapters := b.adapters, clients := b.clients,
       debouncer := NoTimers(b.config.servers))
  }

  function GateAnswered(s: System, ok: bool, park: bool): System
    requires s.start.Gating?
  {
    if !ok && !park then s.(start := Headless, state := Blocked)
    else s.(start := Looping, roots := Roots(s.start.config, ok), state := if ok then Running else Blocked)
  }

  /** The block of a rebuild that no await splits. */
  function SwappedIn(s: System, ok: bool): System
    requires s.build.Some?
  {
    var b := s.build.value;
    s.(rebuild := Retiring(s.clients), build := None,
       adapters := b.adapters, debouncer := D.Next(s.debouncer, D.UpdateServers(b.config.servers)),
       config := Some(b.config), clients := b.clients,
       roots := Roots(b.config, ok), state := if ok then Running else Blocked)
  }

  function WithOneRetired(s: System, id: int): System
    requires s.rebuild.Retiring? && id in s.rebuild.clients
  {
    s.(rebuild := Retiring(s.rebuild.clients - {id}), closed := s.closed + [s.rebuild.clients[id]])
  }

  function WithNextSubmitted(s: System): System
    requires s.pending != []
  {
    Debounced(s, D.Submit(s.pending[0])).(pending := s.pending[1..])
  }

  function WithTimersClosed(s: System): System {
    s.(close := ReleasingTimers, debouncer := D.Next(s.debouncer, D.Close))
  }

  function WithOneClosed(s: System, id: int): System
    requires s.close.ClosingClients? && id in s.close.clients
  {
    s.(close := ClosingClients(s.close.clients - {id}), closed := s.closed + [s.close.clients[id]])
  }

  function Next(s: System, step: Step, lower: char -> char): System
    requires Possible(s, step)
  {
    match step
    case Start => s.(start := ReadingConfig, state := Starting)
    case ConfigRead(config) =>
      if s.start.ReadingConfig? then s.(start := Wiring, config := Some(config), build := Some(NewBuild(config)))
      else s.(rebuild := Rebuilding, build := Some(NewBuild(config)))
    case BuildOne(id, works) => WithOneBuilt(s, id, works)
    case FailingClosed => WithFailingClosed(s)
    case Wire => WiredUp(s)
    case Enter(ok, park) => GateAnswered(s, ok, park)
    case BeginRebuild => s.(rebuild := RereadingConfig)
    case Swap(ok) => SwappedIn(s, ok)
    case RebuildRaises => s.(rebuild := Idle, build := None, lost := s.lost + if s.build.Some? then [s.build.value.clients] else [])
    case RetireOne(id) => WithOneRetired(s, id)
    case EndRebuild => s.(rebuild := Idle)
    case TakeEvent(event) => s.(pending := Router.Routed(event, s.config.value, lower))
    case SubmitNext => WithNextSubmitted(s)
    case Timer(t) => Debounced(s, t)
    case BeginClose => s.(close := ReleasingWatcher)
    case CloseTimers => WithTimersClosed(s)
    case BeginClientClose => s.(close := ClosingClients(s.clients))
    case CloseOne(id) => WithOneClosed(s, id)
    case EndClose => s.(close := Closed, clients := map[], state := Stopped)
  }

  // ---- runs -------------------------------------------------------------------------------

  ghost predicate Run(s: System, steps: seq<Step>, lower: char -> char)
    decreases |steps|, 0
  {
    |steps| > 0 ==>
      && Run(s, steps[..|steps| - 1], lower)
      && Possible(After(s, steps[..|steps| - 1], lower), steps[|steps| - 1])
  }

  ghost function After(s: System, steps: seq<Step>, lower: char -> char): System
    requires Run(s, steps, lower)
    decreases |steps|, 1
  {
    if |steps| == 0 then s else Next(After(s, steps[..|steps| - 1], lower), steps[|steps| - 1], lower)
  }

  lemma {:induction false} Extend(s: System, steps: seq<Step>, step: Step, lower: char -> char)
    requires Run(s, steps, lower) && Possible(After(s, steps, lower), step)
    ensures Run(s, steps + [step], lower) && After(s, steps + [step], lower) == Next(After(s, steps, lower), step, lower)
  {
    assert (steps + [step])[..|steps|] == steps;
  }

  // ---- phases -----------------------------------------------------------------------------

  ghost predicate Phases(s: System) {
    && (s.build.Some? <==> s.start.Wiring? || s.rebuild.Rebuilding?)
    && (!s.rebuild.Idle? ==> Wired(s))
    && (s.config.Some? <==> s.start.Wiring? || Wired(s))
    && (s.state.Running? || s.state.Blocked? ==> Wired(s))
    && (!Wired(s) ==> s.roots == {})
  }

  lemma {:induction false} StepKeepsPhases(s: System, step: Step, lower: char -> char)
    requires Phases(s) && Possible(s, step)
    ensures Phases(Next(s, step, lower))
  {
  }

  // ---- configuration, adapters and debouncer agree ------------------------------------------

  /** Every adapter is for a server of this configuration, built with the client of its server. */
  ghost predicate Bound(config: RuntimeConfig, adapters: map<int, Adapter>, clients: map<int, nat>) {
    && adapters.Keys == clients.Keys
    && adapters.Keys <= config.servers.Keys
    && forall id :: id in adapters ==> adapters[id] == Adapter(config.servers[id], clients[id])
  }

  ghost predicate BuildLinked(b: Build) {
    && Bound(b.config, b.adapters, b.clients)
    && b.todo <= b.config.servers.Keys - b.clients.Keys
  }

  ghost predicate BuildsLinked(s: System) {
    && (s.build.Some? ==> BuildLinked(s.build.value))
    && (s.build.Some? && s.start.Wiring? ==> s.config == Some(s.build.value.config))
    && (!Wired(s) ==> s.adapters == map[] && s.clients == map[] && s.pending == [])
  }

  /** The running configuration is the one the debouncer, the dispatcher and the clients have. */
  ghost predicate Linked(s: System) {
    && (Wired(s) && s.config.Some? ==>
          && s.debouncer.servers == s.config.value.servers
          && s.adapters.Keys <= s.config.value.servers.Keys
          && (forall id :: id in s.adapters ==> s.adapters[id].server == s.config.value.servers[id])
          && (Bound(s.config.value, s.adapters, s.clients) || (s.close.Closed? && s.clients == map[])))
  }

  lemma {:induction false} BuildKeepsLinked(b: Build, id: int, works: bool, client: nat)
    requires BuildLinked(b) && id in b.todo
    ensures BuildLinked(BuiltOne(b, id, works, client))
  {
  }

  lemma {:induction false} StepKeepsBuilds(s: System, step: Step, lower: char -> char)
    requires Phases(s) && BuildsLinked(s) && Possible(s, step)
    ensures BuildsLinked(Next(s, step, lower))
  {
    if step.BuildOne? {
      BuildKeepsLinked(s.build.value, step.id, step.works, s.built);
    }
  }

  lemma {:induction false} StepKeepsDebouncer(s: System, step: Step, lower: char -> char)
    requires D.Inv(s.debouncer) && Possible(s, step)
    ensures D.Inv(Next(s, step, lower).debouncer)
  {
    match step
    case Swap(_) => D.StepKeepsInv(s.debouncer, D.UpdateServers(s.build.value.config.servers));
    case SubmitNext => D.StepKeepsInv(s.debouncer, D.Submit(s.pending[0]));
    case Timer(t) => D.StepKeepsInv(s.debouncer, t);
    case CloseTimers => D.StepKeepsInv(s.debouncer, D.Close);
    case _ =>
  }

  predicate Reconfigures(step: Step) {
    step.ConfigRead? || step.Wire? || step.Swap? || step.EndClose?
  }

  lemma {:induction false} OnlyReconfiguring(s: System, step: Step, lower: char -> char)
    requires Possible(s, step) && !Reconfigures(step)
    ensures var v := Next(s, step, lower);
            && v.config == s.config && v.adapters == s.adapters && v.clients == s.clients
            && Wired(v) == Wired(s) && v.close.Closed? == s.close.Closed?
  {
  }

  lemma {:induction false} OnlyReconfiguringServers(s: System, step: Step, lower: char -> char)
    requires Possible(s, step) && !Reconfigures(step)
    ensures Next(s, step, lower).debouncer.servers == s.debouncer.servers
  {
  }

  lemma {:induction false} ReconfigureKeepsLinked(s: System, step: Step, lower: char -> char)
    requires Phases(s) && BuildsLinked(s) && Linked(s) && Possible(s, step)
    requires Reconfigures(step)
    ensures Linked(Next(s, step, lower))
  {
  }

  lemma {:induction false} StepKeepsLinked(s: System, step: Step, lower: char -> char)
    requires Phases(s) && BuildsLinked(s) && Linked(s) && Possible(s, step)
    ensures Linked(Next(s, step, lower))
  {
    if Reconfigures(step) {
      ReconfigureKeepsLinked(s, step, lower);
    } else {
      OnlyReconfiguring(s, step, lower);
      OnlyReconfiguringServers(s, step, lower);
    }
  }

  // ---- every run --------------------------------------------------------------------------

  ghost predicate Inv(s: System) {
    Phases(s) && BuildsLinked(s) && Linked(s) && D.Inv(s.debouncer)
  }

  lemma {:induction false} FreshInv()
    ensures Inv(Fresh())
  {
  }

  lemma {:induction false} StepInv(s: System, step: Step, lower: char -> char)
    requires Inv(s) && Possible(s, step)
    ensures Inv(Next(s, step, lower))
  {
    StepKeepsPhases(s, step, lower);
    StepKeepsBuilds(s, step, lower);
    StepKeepsLinked(s, step, lower);
    StepKeepsDebouncer(s, step, lower);
  }

  lemma {:induction false} RunInv(s: System, steps: seq<Step>, lower: char -> char)
    requires Inv(s) && Run(s, steps, lower)
    ensures Inv(After(s, steps, lower))
  {
    if |steps| > 0 {
      var before := steps[..|steps| - 1];
      RunInv(s, before, lower);
      StepInv(After(s, before, lower), steps[|steps| - 1], lower);
    }
  }
}
