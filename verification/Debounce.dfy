/** The per-server debouncer as a machine over timers, cancellations and a clock. */
module Debounce {
  import opened Types

  datatype Key = Key(serverId: int, scanKey: string)

  function KeyOf(req: ScanRequest): Key {
    Key(req.serverId, req.scanKey)
  }

  /** A timer task: asleep until `due`, in its dispatch, or over. */
  datatype Phase = Sleeping | Dispatching | Finished

  datatype Task = Task(req: ScanRequest, due: nat, phase: Phase)

  /** A dispatch that began: of which request, when, and by which timer, if any. */
  datatype Begun = Begun(req: ScanRequest, time: nat, task: Option<nat>)

  /** `servers` and `timers` are the debouncer's own fields.  The rest belongs to the event loop: the
      tasks, named by their position in `tasks`, those that were asked to cancel, the clock, and the
      log of dispatches. */
  datatype State = State(
    servers: map<int, ServerRuntime>,
    timers: map<Key, nat>,
    tasks: seq<Task>,
    cancelled: set<nat>,
    now: nat,
    log: seq<Begun>)

  datatype Step =
    | Submit(req: ScanRequest)
    | UpdateServers(servers: map<int, ServerRuntime>)
    /** A sleep that has elapsed lets its timer go on, even if it was cancelled meanwhile. */
    | Fire(task: nat)
    /** A cancelled sleep ends its task. */
    | Stop(task: nat)
    | Done(task: nat)
    | Tick(delta: nat)
    | Close

  predicate Trails(servers: map<int, ServerRuntime>, serverId: int) {
    serverId in servers && servers[serverId].debounceMode == Trailing
  }

  predicate Possible(s: State, step: Step) {
    match step
    case Fire(t) => t < |s.tasks| && s.tasks[t].phase == Sleeping && s.tasks[t].due <= s.now
    case Stop(t) => t < |s.tasks| && s.tasks[t].phase == Sleeping && t in s.cancelled
    case Done(t) => t < |s.tasks| && s.tasks[t].phase == Dispatching
    case _ => true
  }

  predicate IsArmed(s: State, t: nat) {
    t < |s.tasks| && KeyOf(s.tasks[t].req) in s.timers && s.timers[KeyOf(s.tasks[t].req)] == t
  }

  function Next(s: State, step: Step): State
    requires Possible(s, step)
  {
    match step
    case Submit(req) =>
      if !Trails(s.servers, req.serverId) then s.(log := s.log + [Begun(req, s.now, None)])
      else
        var key := KeyOf(req);
        var replaced := if key in s.timers then {s.timers[key]} else {};
        var due := s.now + s.servers[req.serverId].window;
        s.(cancelled := s.cancelled + replaced,
           tasks := s.tasks + [Task(req, due, Sleeping)],
           timers := s.timers[key := |s.tasks|])
    case UpdateServers(servers) =>
      s.(servers := servers,
         timers := map key | key in s.timers && key.serverId in servers :: s.timers[key],
         cancelled := s.cancelled + set key | key in s.timers && key.serverId !in servers :: s.timers[key])
    case Fire(t) =>
      if IsArmed(s, t) then
        s.(timers := s.timers - {KeyOf(s.tasks[t].req)},
           tasks := s.tasks[t := s.tasks[t].(phase := Dispatching)],
           log := s.log + [Begun(s.tasks[t].req, s.now, Some(t))])
      else s.(tasks := s.tasks[t := s.tasks[t].(phase := Finished)])
    case Stop(t) => s.(tasks := s.tasks[t := s.tasks[t].(phase := Finished)])
    case Done(t) => s.(tasks := s.tasks[t := s.tasks[t].(phase := Finished)])
    case Tick(delta) => s.(now := s.now + delta)
    case Close => s.(timers := map[], cancelled := s.cancelled + s.timers.Values)
  }

  /** Every armed timer is a sleeping task of its key that nobody has cancelled, and only tasks that exist were cancelled. */
  ghost predicate Inv(s: State) {
    (forall t :: t in s.cancelled ==> t < |s.tasks|)
    && forall key :: key in s.timers ==> TimerOk(s, key, s.timers[key])
  }

  predicate TimerOk(s: State, key: Key, t: nat) {
    t < |s.tasks| && KeyOf(s.tasks[t].req) == key && s.tasks[t].phase == Sleeping && t !in s.cancelled
  }

  // ---- the debouncer ----------------------------------------------------------------------

  class Debouncer {
    var servers: map<int, ServerRuntime>
    var timers: map<Key, nat>
    var tasks: seq<Task>
    var cancelled: set<nat>
    var now: nat
    var log: seq<Begun>

    function Now(): State
      reads this
    {
      State(servers, timers, tasks, cancelled, now, log)
    }

    constructor (servers: map<int, ServerRuntime>)
      ensures Now() == State(servers, map[], [], {}, 0, []) && Inv(Now())
    {
      this.servers, timers, tasks, cancelled, now, log := servers, map[], [], {}, 0, [];
    }

    method Submit(req: ScanRequest)
      requires Inv(Now())
      modifies this
      ensures Now() == Next(old(Now()), Step.Submit(req)) && Inv(Now())
    {
      StepKeepsInv(Now(), Step.Submit(req));
      if req.serverId !in servers || servers[req.serverId].debounceMode == Off {
        log := log + [Begun(req, now, None)];
        return;
      }
      var window := servers[req.serverId].window;
      var key := KeyOf(req);
      if key in timers {
        cancelled := cancelled + {timers[key]};
      }
      timers := timers[key := |tasks|];
      tasks := tasks + [Task(req, now + window, Sleeping)];
    }

    method UpdateServers(servers: map<int, ServerRuntime>)
      requires Inv(Now())
      modifies this
      ensures Now() == Next(old(Now()), Step.UpdateServers(servers)) && Inv(Now())
    {
      ghost var before := Now();
      StepKeepsInv(before, Step.UpdateServers(servers));
      this.servers := servers;
      var todo := timers.Keys;
      DropNone(before, servers);
      while todo != {}
        invariant todo <= before.timers.Keys
        invariant Now() == Dropped(before, servers, todo)
        decreases todo
      {
        var key :| key in todo;
        DropOne(before, servers, todo, key);
        if key.serverId !in servers {
          var task := timers[key];
          timers := timers - {key};
          cancelled := cancelled + {task};
        }
        todo := todo - {key};
      }
    }

    /** What a timer task does once its sleep is over. */
    method FireAfter(task: nat)
      requires Inv(Now()) && Possible(Now(), Fire(task))
      modifies this
      ensures Now() == Next(old(Now()), Fire(task)) && Inv(Now())
    {
      StepKeepsInv(Now(), Fire(task));
      var key := KeyOf(tasks[task].req);
      if key !in timers || timers[key] != task {
        tasks := tasks[task := tasks[task].(phase := Finished)];
        return;
      }
      timers := timers - {key};
      log := log + [Begun(tasks[task].req, now, Some(task))];
      tasks := tasks[task := tasks[task].(phase := Dispatching)];
    }

    method Aclose()
      requires Inv(Now())
      modifies this
      ensures Now() == Next(old(Now()), Close) && Inv(Now())
    {
      ghost var before := Now();
      var armed := timers.Values;
      timers := map[];
      ghost var done: set<nat> := {};
      while armed != {}
        invariant armed !! done && armed + done == before.timers.Values
        invariant this.Now() == before.(timers := map[], cancelled := before.cancelled + done)
        decreases armed
      {
        var task :| task in armed;
        cancelled := cancelled + {task};
        armed, done := armed - {task}, done + {task};
      }
      assert done == before.timers.Values;
    }
  }

  /** A server update that still has the timers of `todo` to look at. */
  function Dropped(s: State, servers: map<int, ServerRuntime>, todo: set<Key>): State {
    s.(servers := servers,
       timers := map key | key in s.timers && (key in todo || key.serverId in servers) :: s.timers[key],
       cancelled := s.cancelled + set key | key in s.timers && key !in todo && key.serverId !in servers :: s.timers[key])
  }

  lemma {:induction false} DropNone(s: State, servers: map<int, ServerRuntime>)
    ensures Dropped(s, servers, s.timers.Keys) == s.(servers := servers)
    ensures Dropped(s, servers, {}) == Next(s, Step.UpdateServers(servers))
  {
    assert Dropped(s, servers, s.timers.Keys).timers == s.timers;
    assert Dropped(s, servers, s.timers.Keys).cancelled == s.cancelled;
    var all, v := Dropped(s, servers, {}), Next(s, Step.UpdateServers(servers));
    assert all.timers == v.timers;
    assert all.cancelled == v.cancelled;
  }

  lemma {:induction false} DropOne(s: State, servers: map<int, ServerRuntime>, todo: set<Key>, key: Key)
    requires key in s.timers && key in todo
    ensures var one, more := Dropped(s, servers, todo), Dropped(s, servers, todo - {key});
            && key in one.timers && one.timers[key] == s.timers[key]
            && if key.serverId in servers then more == one
               else more == one.(timers := one.timers - {key}, cancelled := one.cancelled + {s.timers[key]})
  {
    var one, more := Dropped(s, servers, todo), Dropped(s, servers, todo - {key});
    if key.serverId in servers {
      assert more.timers == one.timers;
      assert more.cancelled == one.cancelled;
    } else {
      assert more.timers == one.timers - {key};
      assert more.cancelled == one.cancelled + {s.timers[key]};
    }
  }

  // ---- one step ---------------------------------------------------------------------------

  lemma {:induction false} StepKeepsInv(s: State, step: Step)
    requires Inv(s) && Possible(s, step)
    ensures Inv(Next(s, step))
  {
    var v := Next(s, step);
    forall key | key in v.timers ensures TimerOk(v, key, v.timers[key]) {
      assert key in s.timers ==> TimerOk(s, key, s.timers[key]);
      forall other | other in s.timers ensures TimerOk(s, other, s.timers[other]) {}
    }
  }
}
