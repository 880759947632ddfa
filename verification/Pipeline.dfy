/** From an event to its triggers, nothing lost: what routing gives is submitted, what is submitted runs the
    debouncer, and what the debouncer dispatches is triggered. */
module Pipeline {
  import opened Types
  import Router
  import D = Debounce
  import R = DebounceRuns
  import opened EngineRuns

  // ---- the debouncer's own run ----------------------------------------------------------------

  /** The step that the engine's step is for its debouncer, if any. */
  function TimerStep(s: System, step: Step): seq<D.Step>
    requires Possible(s, step)
  {
    match step
    case SubmitNext => [D.Submit(s.pending[0])]
    case Timer(t) => [t]
    case Swap(_) => [D.UpdateServers(s.build.value.config.servers)]
    case CloseTimers => [D.Close]
    case _ => []
  }

  /** Wiring makes a new debouncer. */
  ghost function Base(steps: seq<Step>, lower: char -> char): D.State
    requires Run(Fresh(), steps, lower)
  {
    if |steps| == 0 then NoTimers(map[])
    else
      var before, step := steps[..|steps| - 1], steps[|steps| - 1];
      if step.Wire? then NoTimers(After(Fresh(), before, lower).build.value.config.servers) else Base(before, lower)
  }

  ghost function Timeline(steps: seq<Step>, lower: char -> char): seq<D.Step>
    requires Run(Fresh(), steps, lower)
  {
    if |steps| == 0 then []
    else
      var before, step := steps[..|steps| - 1], steps[|steps| - 1];
      if step.Wire? then [] else Timeline(before, lower) + TimerStep(After(Fresh(), before, lower), step)
  }

  lemma {:induction false} DebouncerByStep(s: System, step: Step, lower: char -> char)
    requires Possible(s, step) && !step.Wire?
    ensures var ts := TimerStep(s, step);
            && |ts| <= 1
            && if ts == [] then Next(s, step, lower).debouncer == s.debouncer
               else D.Possible(s.debouncer, ts[0]) && Next(s, step, lower).debouncer == D.Next(s.debouncer, ts[0])
  {
  }

  lemma {:induction false} DebouncerExtends(s: D.State, steps: seq<D.Step>, more: seq<D.Step>)
    requires R.Run(s, steps) && |more| <= 1 && (more != [] ==> D.Possible(R.After(s, steps), more[0]))
    ensures R.Run(s, steps + more)
    ensures R.After(s, steps + more) == if more == [] then R.After(s, steps) else D.Next(R.After(s, steps), more[0])
  {
    if more == [] {
      assert steps + more == steps;
    } else {
      assert (steps + more)[..|steps|] == steps;
    }
  }

  /** The debouncer inside the engine makes a run of its own, so what holds of all its runs holds of it here,
      across every rebuild and close. */
  lemma {:induction false} DebouncerRuns(steps: seq<Step>, lower: char -> char)
    requires Run(Fresh(), steps, lower)
    ensures R.Fresh(Base(steps, lower)) && R.Run(Base(steps, lower), Timeline(steps, lower))
    ensures R.After(Base(steps, lower), Timeline(steps, lower)) == After(Fresh(), steps, lower).debouncer
  {
    if |steps| > 0 {
      var before, step := steps[..|steps| - 1], steps[|steps| - 1];
      DebouncerRuns(before, lower);
      if !step.Wire? {
        var u := After(Fresh(), before, lower);
        DebouncerByStep(u, step, lower);
        DebouncerExtends(Base(before, lower), Timeline(before, lower), TimerStep(u, step));
      }
    }
  }

  // ---- from the event to the debouncer --------------------------------------------------------

  /** What routing gives for the events taken, in order, each under the configuration of its moment. */
  ghost function Asked(steps: seq<Step>, lower: char -> char): seq<ScanRequest>
    requires Run(Fresh(), steps, lower)
  {
    if |steps| == 0 then []
    else
      var before, step := steps[..|steps| - 1], steps[|steps| - 1];
      Asked(before, lower)
      + if step.TakeEvent? then Router.Routed(step.event, After(Fresh(), before, lower).config.value, lower) else []
  }

  function Submissions(steps: seq<D.Step>): seq<ScanRequest> {
    if |steps| == 0 then []
    else Submissions(steps[..|steps| - 1]) + if steps[|steps| - 1].Submit? then [steps[|steps| - 1].req] else []
  }

  lemma {:induction false} SubmissionsExtend(steps: seq<D.Step>, more: seq<D.Step>)
    requires |more| <= 1
    ensures Submissions(steps + more) == Submissions(steps) + Submissions(more)
    ensures Submissions(more) == if more != [] && more[0].Submit? then [more[0].req] else []
  {
    if more == [] {
      assert steps + more == steps;
    } else {
      assert (steps + more)[..|steps|] == steps;
      assert more[..0] == [];
    }
  }

  lemma {:induction false} PendingByStep(s: System, step: Step, lower: char -> char)
    requires Possible(s, step) && !step.Wire?
    ensures var v := Next(s, step, lower);
            && (step.SubmitNext? ==> s.pending == [s.pending[0]] + v.pending)
            && (step.TakeEvent? ==> s.pending == [] && v.pending == Router.Routed(step.event, s.config.value, lower))
            && (!step.SubmitNext? && !step.TakeEvent? ==> v.pending == s.pending)
  {
  }

  lemma {:induction false} UnwiredByStep(s: System, step: Step, lower: char -> char)
    requires Phases(s) && BuildsLinked(s) && Possible(s, step) && !Wired(Next(s, step, lower))
    ensures !Wired(s) && !step.TakeEvent? && !step.Wire?
    ensures s.debouncer.log == [] ==> Next(s, step, lower).debouncer.log == []
  {
  }

  /** Before the wiring nothing was asked, and nothing dispatched. */
  lemma {:induction false} NothingYet(steps: seq<Step>, lower: char -> char)
    requires Run(Fresh(), steps, lower) && !Wired(After(Fresh(), steps, lower))
    ensures Asked(steps, lower) == [] && After(Fresh(), steps, lower).debouncer.log == []
  {
    if |steps| > 0 {
      var before, step := steps[..|steps| - 1], steps[|steps| - 1];
      FreshInv();
      RunInv(Fresh(), before, lower);
      UnwiredByStep(After(Fresh(), before, lower), step, lower);
      NothingYet(before, lower);
    }
  }

  lemma {:induction false} WiredRequests(s: System, step: Step, lower: char -> char)
    requires Phases(s) && BuildsLinked(s) && Possible(s, step) && step.Wire?
    ensures !Wired(s) && s.pending == [] == Next(s, step, lower).pending
  {
  }

  lemma {:induction false} RequestsMove(submitted: seq<ScanRequest>, pending: seq<ScanRequest>, asked: seq<ScanRequest>, more: seq<ScanRequest>,
                                        one: seq<ScanRequest>, left: seq<ScanRequest>)
    requires submitted + pending == asked && pending + more == one + left
    ensures (submitted + one) + left == asked + more
  {
    assert (submitted + one) + left == submitted + (one + left);
    assert (submitted + pending) + more == submitted + (pending + more);
  }

  /** What the event asks for joins the queue of requests, and what is submitted leaves it. */
  lemma {:induction false} RequestsByStep(s: System, step: Step, lower: char -> char, more: seq<ScanRequest>)
    requires Possible(s, step) && !step.Wire?
    requires more == if step.TakeEvent? then Router.Routed(step.event, s.config.value, lower) else []
    ensures s.pending + more == Submissions(TimerStep(s, step)) + Next(s, step, lower).pending
  {
    PendingByStep(s, step, lower);
    PiecesMatch(s.pending, more, TimerStep(s, step), Next(s, step, lower).pending);
  }

  lemma {:induction false} PiecesMatch(pending: seq<ScanRequest>, more: seq<ScanRequest>, ts: seq<D.Step>, left: seq<ScanRequest>)
    requires |ts| <= 1
    requires ts != [] && ts[0].Submit? ==> more == [] && pending == [ts[0].req] + left
    requires ts == [] || !ts[0].Submit? ==> (left == more && pending == []) || (more == [] && left == pending)
    ensures pending + more == Submissions(ts) + left
  {
    SubmissionsExtend([], ts);
    assert [] + ts == ts;
    assert pending + [] == pending && [] + more == more && [] + left == left;
  }

  /** Every request that routing gave is submitted to the debouncer, once and in order, but for those that are
      still waiting for their turn. */
  lemma {:induction false} RoutedAreSubmitted(steps: seq<Step>, lower: char -> char)
    requires Run(Fresh(), steps, lower)
    ensures Submissions(Timeline(steps, lower)) + After(Fresh(), steps, lower).pending == Asked(steps, lower)
  {
    if |steps| > 0 {
      var before, step := steps[..|steps| - 1], steps[|steps| - 1];
      var u := After(Fresh(), before, lower);
      RoutedAreSubmitted(before, lower);
      if step.Wire? {
        FreshInv();
        RunInv(Fresh(), before, lower);
        WiredRequests(u, step, lower);
        NothingYet(before, lower);
      } else {
        SubmissionsExtend(Timeline(before, lower), TimerStep(u, step));
        var more := if step.TakeEvent? then Router.Routed(step.event, u.config.value, lower) else [];
        RequestsByStep(u, step, lower, more);
        RequestsMove(Submissions(Timeline(before, lower)), u.pending, Asked(before, lower), more,
                     Submissions(TimerStep(u, step)), Next(u, step, lower).pending);
      }
    }
  }

  // ---- from the debouncer to the adapters -----------------------------------------------------

  /** What a step adds to the log. */
  function Logged(s: System, v: System): seq<D.Begun> {
    if |v.debouncer.log| > |s.debouncer.log| then [v.debouncer.log[|s.debouncer.log|]] else []
  }

  /** The dispatcher's adapters at the moment each logged dispatch began. */
  ghost function AdaptersAt(steps: seq<Step>, lower: char -> char): seq<map<int, Adapter>>
    requires Run(Fresh(), steps, lower)
  {
    if |steps| == 0 then []
    else
      var before, step := steps[..|steps| - 1], steps[|steps| - 1];
      var u := After(Fresh(), before, lower);
      AdaptersAt(before, lower) + if Logged(u, Next(u, step, lower)) == [] then [] else [u.adapters]
  }

  /** What a dispatch triggers: its server's adapter, if there is one. */
  function Answer(begun: D.Begun, adapters: map<int, Adapter>): seq<Trigger> {
    if begun.req.serverId in adapters then [Trigger(begun.req, adapters[begun.req.serverId])] else []
  }

  function Answers(log: seq<D.Begun>, held: seq<map<int, Adapter>>): seq<Trigger>
    requires |log| == |held|
  {
    if |log| == 0 then []
    else Answers(log[..|log| - 1], held[..|log| - 1]) + Answer(log[|log| - 1], held[|log| - 1])
  }

  /** A step that logs a dispatch triggers what the dispatch asks for, and no other step triggers. */
  lemma {:induction false} DispatchTriggers(s: System, step: Step, lower: char -> char)
    requires Possible(s, step)
    ensures var v := Next(s, step, lower);
            && v.debouncer.log == (if step.Wire? then [] else s.debouncer.log + Logged(s, v))
            && v.triggers == s.triggers + if Logged(s, v) == [] then [] else Answer(Logged(s, v)[0], s.adapters)
  {
  }

  lemma {:induction false} AnswersExtend(log: seq<D.Begun>, held: seq<map<int, Adapter>>, more: seq<D.Begun>, adapters: map<int, Adapter>)
    requires |log| == |held| && |more| <= 1
    ensures |log + more| == |held + (if more == [] then [] else [adapters])|
    ensures Answers(log + more, held + (if more == [] then [] else [adapters]))
            == Answers(log, held) + if more == [] then [] else Answer(more[0], adapters)
  {
    if more == [] {
      assert log + more == log && held + [] == held;
    } else {
      assert (log + more)[..|log|] == log && (held + [adapters])[..|log|] == held;
    }
  }

  /** The triggers of a run are the answers to the debouncer's dispatches, one after the other: each dispatch
      triggers once, on the adapter that its server had at that moment, and not at all if it had none. */
  lemma {:induction false} TriggersAreAnswers(steps: seq<Step>, lower: char -> char)
    requires Run(Fresh(), steps, lower)
    ensures var v := After(Fresh(), steps, lower);
            |v.debouncer.log| == |AdaptersAt(steps, lower)| && v.triggers == Answers(v.debouncer.log, AdaptersAt(steps, lower))
  {
    if |steps| > 0 {
      var before, step := steps[..|steps| - 1], steps[|steps| - 1];
      var u := After(Fresh(), before, lower);
      var v := Next(u, step, lower);
      TriggersAreAnswers(before, lower);
      DispatchTriggers(u, step, lower);
      if step.Wire? {
        FreshInv();
        RunInv(Fresh(), before, lower);
        WiredRequests(u, step, lower);
        NothingYet(before, lower);
      } else {
        AnswersExtend(u.debouncer.log, AdaptersAt(before, lower), Logged(u, v), u.adapters);
      }
    }
  }

  /** The answers to the dispatches that timer `t` began. */
  function AnswersOf(log: seq<D.Begun>, held: seq<map<int, Adapter>>, t: nat): seq<Trigger>
    requires |log| == |held|
  {
    if |log| == 0 then []
    else
      AnswersOf(log[..|log| - 1], held[..|log| - 1], t)
      + if log[|log| - 1].task == Some(t) then Answer(log[|log| - 1], held[|log| - 1]) else []
  }

  /** The place of the only dispatch of a timer, and its answer. */
  lemma {:induction false} OneDispatch(log: seq<D.Begun>, held: seq<map<int, Adapter>>, t: nat) returns (i: nat)
    requires |log| == |held| && |R.DispatchesOf(log, t)| <= 1
    ensures R.DispatchesOf(log, t) == [] ==> AnswersOf(log, held, t) == []
    ensures R.DispatchesOf(log, t) != [] ==>
              i < |log| && log[i] == R.DispatchesOf(log, t)[0] && log[i].task == Some(t)
              && AnswersOf(log, held, t) == Answer(log[i], held[i])
  {
    i := 0;
    if |log| > 0 {
      var n := |log| - 1;
      i := OneDispatch(log[..n], held[..n], t);
      if log[n].task == Some(t) {
        assert R.DispatchesOf(log, t) == R.DispatchesOf(log[..n], t) + [log[n]];
        i := n;
      }
    }
  }

  /** A trailing request of any run of the engine is triggered exactly if its timer fired and its server had an
      adapter then: once, on that adapter, as submitted, and not before its window closed. */
  lemma {:induction false} TrailingTriggeredOnce(steps: seq<Step>, lower: char -> char, t: nat) returns (i: nat)
    requires Run(Fresh(), steps, lower)
    requires R.Run(Base(steps, lower), Timeline(steps, lower))
    requires t < |R.Trailings(Base(steps, lower), Timeline(steps, lower))|
    ensures var log, held := After(Fresh(), steps, lower).debouncer.log, AdaptersAt(steps, lower);
            && |log| == |held|
            && var asked := R.Trailings(Base(steps, lower), Timeline(steps, lower))[t];
            if R.EndsOf(Base(steps, lower), Timeline(steps, lower), t) == [R.Fired] then
              && i < |log| && log[i].req == asked.0 && asked.1 <= log[i].time
              && AnswersOf(log, held, t)
                 == if asked.0.serverId in held[i] then [Trigger(asked.0, held[i][asked.0.serverId])] else []
            else AnswersOf(log, held, t) == []
  {
    DebouncerRuns(steps, lower);
    TriggersAreAnswers(steps, lower);
    R.Conservation(Base(steps, lower), Timeline(steps, lower), t);
    i := OneDispatch(After(Fresh(), steps, lower).debouncer.log, AdaptersAt(steps, lower), t);
  }
}
