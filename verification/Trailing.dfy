/** Trailing-edge semantics: with timers served on time, the debouncer computes the collapse of every
    burst of a key into its last request. */
module Trailing {
  import opened Types
  import opened Debounce
  import opened DebounceRuns

  type Timed = (ScanRequest, nat)

  /** The last request of every burst, one window after it.  A burst ends where the next request is at
      least a window away. */
  function Collapse(window: nat, trace: seq<Timed>): seq<Timed> {
    if |trace| == 0 then []
    else if |trace| > 1 && trace[1].1 < trace[0].1 + window then Collapse(window, trace[1..])
    else [(trace[0].0, trace[0].1 + window)] + Collapse(window, trace[1..])
  }

  /** The timers are served before anything else happens: none is overdue when a request is submitted,
      and the clock does not run past a deadline.  The server map stays and nothing is closed. */
  ghost predicate Eager(s: State, step: Step) {
    match step
    case Submit(_) => forall t: nat :: IsArmed(s, t) ==> s.now < s.tasks[t].due
    case Tick(delta) => forall t: nat :: IsArmed(s, t) ==> s.now + delta <= s.tasks[t].due
    case UpdateServers(_) => false
    case Close => false
    case _ => true
  }

  ghost predicate EagerRun(s: State, steps: seq<Step>)
    requires Run(s, steps)
  {
    |steps| > 0 ==>
      && EagerRun(s, steps[..|steps| - 1])
      && Eager(After(s, steps[..|steps| - 1]), steps[|steps| - 1])
  }

  function Extended(s: State, step: Step, trace: seq<Timed>, key: Key): seq<Timed> {
    if step.Submit? && KeyOf(step.req) == key then trace + [(step.req, s.now)] else trace
  }

  /** The submissions of one key. */
  ghost function TraceOf(s: State, steps: seq<Step>, key: Key): seq<Timed>
    requires Run(s, steps)
  {
    if |steps| == 0 then []
    else
      var before, step := steps[..|steps| - 1], steps[|steps| - 1];
      Extended(After(s, before), step, TraceOf(s, before, key), key)
  }

  /** The dispatches of one key. */
  function DispatchesFor(log: seq<Begun>, key: Key): seq<Timed> {
    if |log| == 0 then []
    else
      var e := log[|log| - 1];
      DispatchesFor(log[..|log| - 1], key) + if KeyOf(e.req) == key then [(e.req, e.time)] else []
  }

  /** The dispatch a key still has coming. */
  function Pending(s: State, key: Key): seq<Timed> {
    if key in s.timers && s.timers[key] < |s.tasks| then [(s.tasks[s.timers[key]].req, s.tasks[s.timers[key]].due)]
    else []
  }

  lemma {:induction false} CollapseSnoc(window: nat, trace: seq<Timed>, e: Timed)
    ensures var c, d := Collapse(window, trace), Collapse(window, trace + [e]);
            && (|trace| > 0 ==> |c| > 0 && c[|c| - 1] == (trace[|trace| - 1].0, trace[|trace| - 1].1 + window))
            && d == (if |trace| > 0 && e.1 < trace[|trace| - 1].1 + window then c[..|c| - 1] else c) + [(e.0, e.1 + window)]
  {
    if |trace| == 0 {
    } else {
      assert (trace + [e])[1..] == trace[1..] + [e];
      CollapseSnoc(window, trace[1..], e);
    }
  }

  lemma {:induction false} LogByStep(s: State, step: Step, key: Key)
    requires Possible(s, step)
    ensures var v := Next(s, step);
            DispatchesFor(v.log, key)
            == if |v.log| > |s.log| && KeyOf(v.log[|s.log|].req) == key
               then DispatchesFor(s.log, key) + [(v.log[|s.log|].req, v.log[|s.log|].time)]
               else DispatchesFor(s.log, key)
  {
    var log := Next(s, step).log;
    assert |log| > |s.log| ==> log[..|log| - 1] == s.log;
  }

  lemma {:induction false} PendingByStep(s: State, step: Step, key: Key)
    requires Inv(s) && Possible(s, step) && Eager(s, step)
    requires Trails(s.servers, key.serverId)
    ensures var v := Next(s, step);
            && v.servers == s.servers
            && Pending(v, key)
               == if step.Submit? && KeyOf(step.req) == key
                  then [(step.req, s.now + s.servers[key.serverId].window)]
                  else if step.Fire? && IsArmed(s, step.task) && KeyOf(s.tasks[step.task].req) == key then []
                  else Pending(s, key)
  {
    assert key in s.timers ==> TimerOk(s, key, s.timers[key]);
  }

  lemma {:induction false} EagerPending(s: State, step: Step, key: Key)
    requires Inv(s) && Possible(s, step) && Eager(s, step)
    ensures |Pending(s, key)| > 0 ==>
              && (step.Submit? ==> s.now < Pending(s, key)[0].1)
              && (step.Tick? ==> s.now + step.delta <= Pending(s, key)[0].1)
  {
    assert key in s.timers ==> TimerOk(s, key, s.timers[key]) && IsArmed(s, s.timers[key]);
  }

  /** Where an eager run stands with a key: the pending dispatch is that of the key's last submission
      and still ahead, and if there is none the last burst is over. */
  ghost predicate Standing(now: nat, window: nat, trace: seq<Timed>, log: seq<Timed>, pending: seq<Timed>) {
    && log + pending == Collapse(window, trace)
    && if |trace| == 0 then pending == []
       else
         var last := (trace[|trace| - 1].0, trace[|trace| - 1].1 + window);
         if pending != [] then pending == [last] && now <= last.1 else last.1 <= now
  }

  lemma {:induction false} StandingAfterSubmit(now: nat, window: nat, trace: seq<Timed>, log: seq<Timed>, pending: seq<Timed>, req: ScanRequest)
    requires Standing(now, window, trace, log, pending)
    requires |pending| > 0 ==> now < pending[0].1
    ensures Standing(now, window, trace + [(req, now)], log, [(req, now + window)])
  {
    CollapseSnoc(window, trace, (req, now));
    if pending != [] {
      assert (log + pending)[..|log + pending| - 1] == log;
    } else {
      assert log + pending == log;
    }
  }

  lemma {:induction false} StandingAfterFire(now: nat, window: nat, trace: seq<Timed>, log: seq<Timed>, pending: seq<Timed>)
    requires Standing(now, window, trace, log, pending)
    requires |pending| > 0 && pending[0].1 == now
    ensures Standing(now, window, trace, log + [(pending[0].0, now)], [])
  {
    assert pending == [(pending[0].0, now)];
    assert log + pending + [] == log + pending;
  }

  ghost predicate StandsAt(s: State, window: nat, trace: seq<Timed>, key: Key) {
    Standing(s.now, window, trace, DispatchesFor(s.log, key), Pending(s, key))
  }

  lemma {:induction false} StandingByStep(s: State, step: Step, trace: seq<Timed>, key: Key)
    requires Inv(s) && Possible(s, step) && Eager(s, step)
    requires Trails(s.servers, key.serverId)
    requires StandsAt(s, s.servers[key.serverId].window, trace, key)
    ensures StandsAt(Next(s, step), s.servers[key.serverId].window, Extended(s, step, trace, key), key)
  {
    var window, log, pending := s.servers[key.serverId].window, DispatchesFor(s.log, key), Pending(s, key);
    LogByStep(s, step, key);
    PendingByStep(s, step, key);
    EagerPending(s, step, key);
    if step.Submit? && KeyOf(step.req) == key {
      StandingAfterSubmit(s.now, window, trace, log, pending, step.req);
    } else if step.Fire? && IsArmed(s, step.task) && KeyOf(s.tasks[step.task].req) == key {
      assert pending == [(s.tasks[step.task].req, s.tasks[step.task].due)];
      StandingAfterFire(s.now, window, trace, log, pending);
    }
  }

  /** The debouncer refines the collapse: for every key of a trailing server, what was dispatched,
      and then what is pending, is the collapse of what was submitted under that key, whatever the
      other keys do. */
  lemma {:induction false} TrailingRefinement(s: State, steps: seq<Step>, key: Key)
    requires Fresh(s) && Run(s, steps) && EagerRun(s, steps)
    requires Trails(s.servers, key.serverId)
    ensures After(s, steps).servers == s.servers
    ensures StandsAt(After(s, steps), s.servers[key.serverId].window, TraceOf(s, steps, key), key)
  {
    if |steps| > 0 {
      var before, step := steps[..|steps| - 1], steps[|steps| - 1];
      TrailingRefinement(s, before, key);
      RunKeepsInv(s, before);
      PendingByStep(After(s, before), step, key);
      StandingByStep(After(s, before), step, TraceOf(s, before, key), key);
    }
  }

  /** Once the clock has passed the last deadline, the log of a key is the collapse of its submissions. */
  lemma {:induction false} QuietRunIsCollapse(s: State, steps: seq<Step>, key: Key)
    requires Fresh(s) && Run(s, steps) && EagerRun(s, steps)
    requires Trails(s.servers, key.serverId)
    requires var trace := TraceOf(s, steps, key);
             |trace| > 0 ==> trace[|trace| - 1].1 + s.servers[key.serverId].window < After(s, steps).now
    ensures DispatchesFor(After(s, steps).log, key)
            == Collapse(s.servers[key.serverId].window, TraceOf(s, steps, key))
  {
    TrailingRefinement(s, steps, key);
  }

  /** The eager scheduler never gets stuck: if a deadline has come its timer can fire, and otherwise
      the clock can advance. */
  lemma {:induction false} EagerProgress(s: State, steps: seq<Step>) returns (step: Step)
    requires Fresh(s) && Run(s, steps) && EagerRun(s, steps)
    ensures Possible(After(s, steps), step) && Eager(After(s, steps), step)
    ensures Next(After(s, steps), step).now > After(s, steps).now
            || Next(After(s, steps), step).timers.Keys < After(s, steps).timers.Keys
  {
    RunKeepsInv(s, steps);
    var u := After(s, steps);
    assert forall key :: key in u.timers ==> TimerOk(u, key, u.timers[key]);
    if t: nat :| IsArmed(u, t) && u.tasks[t].due <= u.now {
      step := Fire(t);
    } else {
      step := Tick(1);
    }
  }
}
