/** The dispatcher and the engine: each method is what runs between two await points, or a loop over
    such stretches that nothing interrupts.  A method that makes a run begins where no other coroutine is
    in the middle of a stretch. */
module Engine {
  import opened Types
  import Router
  import D = Debounce
  import opened EngineRuns

  datatype Detail = FromServer(text: string) | NoAdapter(serverId: int) | AdapterRaised(error: string)

  datatype TriggerResult = TriggerResult(ok: bool, statusCode: Option<int>, detail: Detail)

  /** What an adapter's trigger does with a request. */
  datatype Outcome = Returned(result: TriggerResult) | Raised(error: string)

  class Dispatcher {
    var adapters: map<int, Adapter>

    constructor (adapters: map<int, Adapter>)
      ensures this.adapters == adapters
    {
      this.adapters := adapters;
    }

    /** `outcome` is what the adapter does once triggered.  Nothing the adapter does is raised here. */
    method Dispatch(req: ScanRequest, outcome: Outcome) returns (result: TriggerResult, begun: seq<Trigger>)
      ensures begun == if req.serverId in adapters then [Trigger(req, adapters[req.serverId])] else []
      ensures begun == [] ==> result == TriggerResult(false, None, NoAdapter(req.serverId))
      ensures begun != [] ==> match outcome
                              case Returned(r) => result == r
                              case Raised(e) => result == TriggerResult(false, None, AdapterRaised(e))
    {
      if req.serverId !in adapters {
        return TriggerResult(false, None, NoAdapter(req.serverId)), [];
      }
      begun := [Trigger(req, adapters[req.serverId])];
      match outcome {
        case Returned(r) => result := r;
        case Raised(e) => result := TriggerResult(false, None, AdapterRaised(e));
      }
    }

    method SetAdapters(adapters: map<int, Adapter>)
      modifies this
      ensures this.adapters == adapters
    {
      this.adapters := adapters;
    }
  }

  /** The source's fields first, then where its coroutines stand and what happened to the clients. */
  class Engine {
    var config: Option<RuntimeConfig>
    var dispatcher: Dispatcher?
    var debouncer: D.Debouncer?
    var clients: map<int, nat>
    var state: EngineState
    var roots: set<string>

    var start: StartPhase
    var rebuild: RebuildPhase
    var close: ClosePhase
    var build: Option<Build>
    var pending: seq<ScanRequest>
    var built: nat
    var closed: seq<nat>
    var lost: seq<map<int, nat>>
    var triggers: seq<Trigger>

    function View(): System
      reads this, dispatcher, debouncer
    {
      System(start, rebuild, close, build, config,
             if dispatcher == null then map[] else dispatcher.adapters,
             clients,
             if debouncer == null then NoTimers(map[]) else debouncer.Now(),
             roots, state, pending, built, closed, lost, triggers)
    }

    predicate IsWired()
      reads this
    {
      start.Gating? || start.Looping? || start.Headless?
    }

    ghost predicate Valid()
      reads this, debouncer
    {
      && (dispatcher == null <==> !IsWired())
      && (debouncer == null <==> !IsWired())
      && (debouncer != null ==> D.Inv(debouncer.Now()))
    }

    constructor ()
      ensures Valid() && View() == Fresh()
    {
      config, dispatcher, debouncer, clients, state, roots := None, null, null, map[], Stopped, {};
      start, rebuild, close, build, pending := Unstarted, Idle, Open, None, [];
      built, closed, lost, triggers := 0, [], [], [];
    }

    /** One turn of the loop that builds the adapters: a client for the server and, unless its
        construction raises, an adapter on it. */
    method BuildOne(id: int, works: bool)
      requires Valid() && build.Some? && id in build.value.todo && id in build.value.config.servers
      modifies this
      ensures Valid() && View() == WithOneBuilt(old(View()), id, works)
      ensures dispatcher == old(dispatcher) && debouncer == old(debouncer)
    {
      var b := build.value;
      var client := built;
      built := built + 1;
      b := b.(todo := b.todo - {id});
      if works {
        b := b.(adapters := b.adapters[id := Adapter(b.config.servers[id], client)]);
        b := b.(clients := b.clients[id := client]);
      } else {
        b := b.(failing := Some(client));
      }
      build := Some(b);
    }

    method CloseFailing()
      requires Valid() && build.Some? && build.value.failing.Some?
      modifies this
      ensures Valid() && View() == WithFailingClosed(old(View()))
      ensures dispatcher == old(dispatcher) && debouncer == old(debouncer)
    {
      closed := closed + [build.value.failing.value];
      build := Some(build.value.(failing := None));
    }

    /** The whole loop, when nothing interrupts it; `works` are the servers whose adapter can be constructed. */
    method BuildAdapters(works: set<int>, ghost lower: char -> char) returns (ghost steps: seq<Step>)
      requires Valid() && Building(View(), View(), works) && !Ungated(View())
      modifies this
      ensures Valid() && dispatcher == old(dispatcher) && debouncer == old(debouncer)
      ensures BuildDone(View()) && Building(old(View()), View(), works)
      ensures Run(old(View()), steps, lower) && View() == After(old(View()), steps, lower)
    {
      steps := [];
      ghost var before := View();
      var todo := build.value.todo;
      while todo != {}
        invariant Valid() && dispatcher == old(dispatcher) && debouncer == old(debouncer)
        invariant build.Some? && build.value.todo == todo && Building(before, View(), works)
        invariant Run(before, steps, lower) && View() == After(before, steps, lower)
        decreases |todo|
      {
        var id := Pick(todo);
        TurnKeepsBuilding(before, steps, View(), works, id, lower);
        BuildOne(id, id in works);
        if id !in works {
          CloseFailing();
        }
        todo := todo - {id};
        steps := steps + Turn(id, works);
      }
    }

    /** The pipeline of a starting engine. */
    method WireUp()
      requires Valid() && start.Wiring? && build.Some?
      modifies this
      ensures Valid() && View() == WiredUp(old(View()))
      ensures fresh(dispatcher) && fresh(debouncer)
    {
      var b := build.value;
      clients := b.clients;
      dispatcher := new Dispatcher(b.adapters);
      debouncer := new D.Debouncer(b.config.servers);
      build, start := None, Gating(b.config);
    }

    /** What `start` does with the gate's answer. */
    method EnterLoop(ok: bool, park: bool)
      requires Valid() && start.Gating?
      modifies this
      ensures Valid() && View() == GateAnswered(old(View()), ok, park)
      ensures dispatcher == old(dispatcher) && debouncer == old(debouncer)
    {
      var own := start.config;
      if !ok && !park {
        state, start := Blocked, Headless;
        return;
      }
      roots := if ok then own.watchPaths else {};
      state := if ok then Running else Blocked;
      start := Looping;
    }

    /** The part of the swap that concerns the engine's own fields. */
    method AdoptConfig(next: Build, ok: bool)
      modifies `rebuild, `build, `config, `clients, `roots, `state
      ensures rebuild == Retiring(old(clients)) && build == None
      ensures config == Some(next.config) && clients == next.clients
      ensures roots == Roots(next.config, ok) && state == if ok then Running else Blocked
    {
      var retired := clients;
      config := Some(next.config);
      clients := next.clients;
      roots := if ok then next.config.watchPaths else {};
      state := if ok then Running else Blocked;
      build, rebuild := None, Retiring(retired);
    }

    /** The block of a rebuild that no await splits. */
    method SwapIn(ok: bool)
      requires Valid() && IsWired() && build.Some?
      modifies this, dispatcher, debouncer
      ensures Valid() && View() == SwappedIn(old(View()), ok)
      ensures dispatcher == old(dispatcher) && debouncer == old(debouncer)
    {
      var next := build.value;
      dispatcher.SetAdapters(next.adapters);
      debouncer.UpdateServers(next.config.servers);
      AdoptConfig(next, ok);
    }

    method RetireOne(id: int)
      requires Valid() && rebuild.Retiring? && id in rebuild.clients
      modifies `rebuild, `closed
      ensures View() == WithOneRetired(old(View()), id)
    {
      closed := closed + [rebuild.clients[id]];
      rebuild := Retiring(rebuild.clients - {id});
    }

    /** A rebuild closes the clients that it replaced. */
    method RetireOld(ghost lower: char -> char) returns (ghost steps: seq<Step>)
      requires Valid() && rebuild.Retiring? && !MidStretch(View())
      modifies this
      ensures Valid() && dispatcher == old(dispatcher) && debouncer == old(debouncer)
      ensures Run(old(View()), steps, lower) && View() == After(old(View()), steps, lower)
      ensures rebuild == Retiring(map[]) && AllClosed(old(rebuild.clients), map[], old(closed), closed)
    {
      steps := [];
      ghost var before := View();
      var todo := rebuild.clients;
      while todo.Keys != {}
        invariant Valid() && dispatcher == old(dispatcher) && debouncer == old(debouncer)
        invariant !MidStretch(View()) && rebuild == Retiring(todo) && AllClosed(before.rebuild.clients, todo, before.closed, closed)
        invariant Run(before, steps, lower) && View() == After(before, steps, lower)
        decreases |todo.Keys|
      {
        var id := Pick(todo.Keys);
        RetireTurn(before, steps, View(), id, lower);
        RetireOne(id);
        todo := todo - {id};
        steps := steps + [Step.RetireOne(id)];
      }
    }

    /** The event loop hands the next request of the event to the debouncer, which may dispatch it at
        once; `outcome` is what the adapter does then. */
    method SubmitNext(outcome: Outcome)
      requires Valid() && IsWired() && pending != []
      modifies this, debouncer
      ensures Valid() && View() == WithNextSubmitted(old(View()))
      ensures dispatcher == old(dispatcher) && debouncer == old(debouncer)
    {
      var req := pending[0];
      var count := |debouncer.log|;
      debouncer.Submit(req);
      if count < |debouncer.log| {
        var _, begun := dispatcher.Dispatch(req, outcome);
        triggers := triggers + begun;
      }
      pending := pending[1..];
    }

    /** The route's requests in order, when nothing interrupts them. */
    method HandleEvent(event: FsEvent, outcome: Outcome, lower: char -> char) returns (ghost steps: seq<Step>)
      requires Valid() && start.Looping? && config.Some? && pending == [] && !MidStretch(View())
      modifies this, debouncer
      ensures Valid() && dispatcher == old(dispatcher) && debouncer == old(debouncer)
      ensures Run(old(View()), steps, lower) && View() == After(old(View()), steps, lower)
      ensures pending == [] && |steps| == 1 + |Router.Routed(event, old(config.value), lower)|
    {
      ghost var before := View();
      Extend(before, [], TakeEvent(event), lower);
      steps := [] + [TakeEvent(event)];
      pending := Router.Route(event, config.value, lower);
      ghost var count := |pending|;
      while pending != []
        invariant Valid() && IsWired() && dispatcher == old(dispatcher) && debouncer == old(debouncer)
        invariant Run(before, steps, lower) && View() == After(before, steps, lower)
        invariant !MidStretch(View()) && |steps| == 1 + count - |pending|
        decreases |pending|
      {
        Extend(before, steps, Step.SubmitNext, lower);
        SubmitNext(outcome);
        steps := steps + [Step.SubmitNext];
      }
    }

    method CloseTimerTable()
      requires Valid() && close.ReleasingWatcher?
      modifies `close, debouncer
      ensures Valid() && View() == WithTimersClosed(old(View()))
    {
      close := ReleasingTimers;
      if debouncer != null {
        debouncer.Aclose();
      }
    }

    method CloseOne(id: int)
      requires Valid() && close.ClosingClients? && id in close.clients
      modifies `close, `closed
      ensures View() == WithOneClosed(old(View()), id)
    {
      closed := closed + [close.clients[id]];
      close := ClosingClients(close.clients - {id});
    }

    /** The last loop of closing, at the end of the run `begun` from `first`. */
    method CloseClients(ghost first: System, ghost begun: seq<Step>, ghost lower: char -> char) returns (ghost steps: seq<Step>)
      requires Valid() && close.ClosingClients? && !MidStretch(View())
      requires Run(first, begun, lower) && View() == After(first, begun, lower)
      modifies `close, `closed
      ensures Run(first, steps, lower) && View() == After(first, steps, lower)
      ensures close == ClosingClients(map[]) && !MidStretch(View()) && AllClosed(old(close.clients), map[], old(closed), closed)
    {
      steps := begun;
      var todo := close.clients;
      while todo.Keys != {}
        invariant !MidStretch(View()) && close == ClosingClients(todo) && AllClosed(old(close.clients), todo, old(closed), closed)
        invariant Run(first, steps, lower) && View() == After(first, steps, lower)
        decreases |todo.Keys|
      {
        var id := Pick(todo.Keys);
        CloseTurn(first, steps, View(), old(close.clients), old(closed), id, lower);
        CloseOne(id);
        todo := todo - {id};
        steps := steps + [Step.CloseOne(id)];
      }
    }

    method StartClosing(ghost lower: char -> char)
      requires Valid() && close.Open? && !MidStretch(View())
      modifies `close, debouncer
      ensures Valid() && close == ClosingClients(clients) && !MidStretch(View())
      ensures Run(old(View()), CloseStart(), lower) && View() == After(old(View()), CloseStart(), lower)
      ensures debouncer != null ==> debouncer.timers == map[]
    {
      BeginningOfClose(View(), lower);
      close := ReleasingWatcher;
      CloseTimerTable();
      close := ClosingClients(clients);
    }

    method EndClosing()
      modifies `close, `clients, `state
      ensures View() == old(View()).(close := Closed, clients := map[], state := Stopped)
    {
      close, clients, state := Closed, map[], Stopped;
    }

    /** Closing the engine when nothing else happens meanwhile. */
    method Aclose(ghost lower: char -> char) returns (ghost steps: seq<Step>)
      requires Valid() && close.Open? && !MidStretch(View())
      modifies this, debouncer
      ensures Valid() && dispatcher == old(dispatcher) && debouncer == old(debouncer)
      ensures Run(old(View()), steps, lower) && View() == After(old(View()), steps, lower)
      ensures View().close.Closed? && AllClosed(old(clients), map[], old(closed), closed)
      ensures debouncer != null ==> debouncer.timers == map[]
    {
      ghost var before := View();
      StartClosing(lower);
      steps := CloseClients(before, CloseStart(), lower);
      Extend(before, steps, EndClose, lower);
      EndClosing();
      steps := steps + [EndClose];
    }
  }

  function CloseStart(): seq<Step> {
    [BeginClose, CloseTimers, BeginClientClose]
  }

  lemma {:induction false} BeginningOfClose(s: System, lower: char -> char)
    requires s.close.Open? && !MidStretch(s)
    ensures Run(s, CloseStart(), lower)
    ensures After(s, CloseStart(), lower)
            == WithTimersClosed(s.(close := ReleasingWatcher)).(close := ClosingClients(s.clients))
  {
    var begun := s.(close := ReleasingWatcher);
    Extend(s, [], BeginClose, lower);
    assert [] + [BeginClose] == [BeginClose];
    assert After(s, [BeginClose], lower) == begun;
    Extend(s, [BeginClose], CloseTimers, lower);
    assert [BeginClose] + [CloseTimers] == [BeginClose, CloseTimers];
    assert After(s, [BeginClose, CloseTimers], lower) == WithTimersClosed(begun);
    Extend(s, [BeginClose, CloseTimers], BeginClientClose, lower);
    assert [BeginClose, CloseTimers] + [BeginClientClose] == CloseStart();
  }

  /** Of `clients` all but `todo` were closed, each once and nothing else. */
  ghost predicate AllClosed(clients: map<int, nat>, todo: map<int, nat>, before: seq<nat>, after: seq<nat>) {
    && before <= after
    && todo.Keys <= clients.Keys && (forall id :: id in todo ==> todo[id] == clients[id])
    && |after| - |before| == |clients.Keys| - |todo.Keys|
    && forall id :: id in clients && id !in todo ==> clients[id] in after[|before|..]
  }

  lemma {:induction false} OneMoreClosed(clients: map<int, nat>, todo: map<int, nat>, before: seq<nat>, after: seq<nat>, id: int)
    requires AllClosed(clients, todo, before, after) && id in todo
    ensures AllClosed(clients, todo - {id}, before, after + [todo[id]])
  {
    assert (todo - {id}).Keys == todo.Keys - {id};
    assert (after + [todo[id]])[|before|..] == after[|before|..] + [todo[id]];
  }

  lemma {:induction false} RetireTurn(s: System, steps: seq<Step>, v: System, id: int, lower: char -> char)
    requires s.rebuild.Retiring? && v.rebuild.Retiring? && !MidStretch(v) && id in v.rebuild.clients
    requires AllClosed(s.rebuild.clients, v.rebuild.clients, s.closed, v.closed)
    requires Run(s, steps, lower) && v == After(s, steps, lower)
    ensures var w := WithOneRetired(v, id);
            && AllClosed(s.rebuild.clients, w.rebuild.clients, s.closed, w.closed)
            && Run(s, steps + [RetireOne(id)], lower) && w == After(s, steps + [RetireOne(id)], lower)
  {
    OneMoreClosed(s.rebuild.clients, v.rebuild.clients, s.closed, v.closed, id);
    Extend(s, steps, RetireOne(id), lower);
  }

  lemma {:induction false} CloseTurn(s: System, steps: seq<Step>, v: System, clients: map<int, nat>, closed: seq<nat>, id: int,
                                     lower: char -> char)
    requires v.close.ClosingClients? && !MidStretch(v) && id in v.close.clients
    requires AllClosed(clients, v.close.clients, closed, v.closed)
    requires Run(s, steps, lower) && v == After(s, steps, lower)
    ensures var w := WithOneClosed(v, id);
            && AllClosed(clients, w.close.clients, closed, w.closed)
            && Run(s, steps + [CloseOne(id)], lower) && w == After(s, steps + [CloseOne(id)], lower)
  {
    OneMoreClosed(clients, v.close.clients, closed, v.closed, id);
    Extend(s, steps, CloseOne(id), lower);
  }

  /** How far the loop that builds the adapters has come: the servers visited that work have their
      client, the others had theirs closed. */
  ghost predicate Building(s: System, v: System, works: set<int>) {
    s.build.Some? && v.build.Some? &&
    var b, c := s.build.value, v.build.value;
    && v.start == s.start && b.failing.None? && c.failing.None? && c.config == b.config
    && c.todo <= b.todo <= b.config.servers.Keys
    && c.clients.Keys == b.clients.Keys + (b.todo - c.todo) * works
    && v.built - s.built == |b.todo| - |c.todo|
    && |v.closed| - |s.closed| == |b.todo - works| - |c.todo - works|
  }

  function Turn(id: int, works: set<int>): seq<Step> {
    if id in works then [BuildOne(id, true)] else [BuildOne(id, false), FailingClosed]
  }

  function Turned(s: System, id: int, works: set<int>): System
    requires s.build.Some? && id in s.build.value.config.servers
  {
    if id in works then WithOneBuilt(s, id, true) else WithFailingClosed(WithOneBuilt(s, id, false))
  }

  lemma {:induction false} TurnKeepsBuilding(s: System, steps: seq<Step>, v: System, works: set<int>, id: int, lower: char -> char)
    requires Building(s, v, works) && !Ungated(s) && id in v.build.value.todo
    requires Run(s, steps, lower) && v == After(s, steps, lower)
    ensures Building(s, Turned(v, id, works), works)
    ensures Run(s, steps + Turn(id, works), lower) && Turned(v, id, works) == After(s, steps + Turn(id, works), lower)
  {
    OneLess(v.build.value.todo, works, id);
    Extend(s, steps, BuildOne(id, id in works), lower);
    if id !in works {
      Extend(s, steps + [BuildOne(id, false)], FailingClosed, lower);
      assert steps + [BuildOne(id, false)] + [FailingClosed] == steps + Turn(id, works);
    }
  }

  lemma {:induction false} OneLess(todo: set<int>, works: set<int>, id: int)
    requires id in todo
    ensures |todo - {id}| == |todo| - 1
    ensures |(todo - {id}) - works| == |todo - works| - if id in works then 0 else 1
  {
    if id in works {
      assert (todo - {id}) - works == todo - works;
    } else {
      assert (todo - {id}) - works == (todo - works) - {id};
    }
  }
}
