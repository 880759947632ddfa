/** What becomes of every request over a whole run of the debouncer. */
module DebounceRuns {
  import opened Types
  import opened Debounce

  ghost predicate Fresh(s: State) {
    s.timers == map[] && s.tasks == [] && s.cancelled == {} && s.log == []
  }

  /** The steps can be taken one after the other from `s`. */
  ghost predicate Run(s: State, steps: seq<Step>)
    decreases |steps|, 0
  {
    |steps| > 0 ==>
      && Run(s, steps[..|steps| - 1])
      && Possible(After(s, steps[..|steps| - 1]), steps[|steps| - 1])
  }

  ghost function After(s: State, steps: seq<Step>): State
    requires Run(s, steps)
    decreases |steps|, 1
  {
    if |steps| == 0 then s else Next(After(s, steps[..|steps| - 1]), steps[|steps| - 1])
  }

  /** Why a timer is no longer armed. */
  datatype Cause = Fired | Superseded | ServerGone | Closed

  predicate Arms(s: State, step: Step) {
    step.Submit? && step.req.serverId in s.servers && s.servers[step.req.serverId].debounceMode == Trailing
  }

  /** The reason, if any, for which this step takes the timer of task `t` out of the table. */
  function EndOf(s: State, step: Step, t: nat): seq<Cause> {
    if !IsArmed(s, t) then []
    else if step == Fire(t) then [Fired]
    else if Arms(s, step) && KeyOf(step.req) == KeyOf(s.tasks[t].req) then [Superseded]
    else if step.UpdateServers? && s.tasks[t].req.serverId !in step.servers then [ServerGone]
    else if step.Close? then [Closed]
    else []
  }

  /** All the ends of task `t` along a run. */
  ghost function EndsOf(s: State, steps: seq<Step>, t: nat): seq<Cause>
    requires Run(s, steps)
  {
    if |steps| == 0 then []
    else var before := steps[..|steps| - 1];
         EndsOf(s, before, t) + EndOf(After(s, before), steps[|steps| - 1], t)
  }

  function Trailed(s: State, step: Step): seq<(ScanRequest, nat)> {
    if Arms(s, step) then [(step.req, s.now + s.servers[step.req.serverId].window)] else []
  }

  /** The trailing requests of a run in order, each with the time at which its own window closes. */
  ghost function Trailings(s: State, steps: seq<Step>): seq<(ScanRequest, nat)>
    requires Run(s, steps)
  {
    if |steps| == 0 then []
    else
      var before, step := steps[..|steps| - 1], steps[|steps| - 1];
      Trailings(s, before) + Trailed(After(s, before), step)
  }

  /** The other requests of a run in order, each with the time of its submission. */
  ghost function Immediates(s: State, steps: seq<Step>): seq<(ScanRequest, nat)>
    requires Run(s, steps)
  {
    if |steps| == 0 then []
    else
      var before, step := steps[..|steps| - 1], steps[|steps| - 1];
      var u := After(s, before);
      Immediates(s, before) + if step.Submit? && !Arms(u, step) then [(step.req, u.now)] else []
  }

  /** The dispatches that task `t` began. */
  function DispatchesOf(log: seq<Begun>, t: nat): seq<Begun> {
    if |log| == 0 then []
    else DispatchesOf(log[..|log| - 1], t) + if log[|log| - 1].task == Some(t) then [log[|log| - 1]] else []
  }

  function DirectDispatches(log: seq<Begun>): seq<(ScanRequest, nat)> {
    if |log| == 0 then []
    else
      var e := log[|log| - 1];
      DirectDispatches(log[..|log| - 1]) + if e.task.None? then [(e.req, e.time)] else []
  }

  // ---- conservation -----------------------------------------------------------------------

  lemma {:induction false} RunKeepsInv(s: State, steps: seq<Step>)
    requires Fresh(s) && Run(s, steps)
    ensures Inv(After(s, steps))
  {
    if |steps| > 0 {
      RunKeepsInv(s, steps[..|steps| - 1]);
      StepKeepsInv(After(s, steps[..|steps| - 1]), steps[|steps| - 1]);
    }
  }

  ghost predicate Recorded(tasks: seq<Task>, trailings: seq<(ScanRequest, nat)>) {
    && |tasks| == |trailings|
    && forall t :: 0 <= t < |tasks| ==> (tasks[t].req, tasks[t].due) == trailings[t]
  }

  lemma {:induction false} RecordedByStep(s: State, step: Step, trailings: seq<(ScanRequest, nat)>)
    requires Possible(s, step) && Recorded(s.tasks, trailings)
    ensures Recorded(Next(s, step).tasks, trailings + Trailed(s, step))
  {
  }

  /** The timers created are the trailing requests of the run, one each, in the order they were submitted. */
  lemma {:induction false} TasksAreTrailings(s: State, steps: seq<Step>)
    requires Fresh(s) && Run(s, steps)
    ensures Recorded(After(s, steps).tasks, Trailings(s, steps))
  {
    if |steps| > 0 {
      var before := steps[..|steps| - 1];
      TasksAreTrailings(s, before);
      RecordedByStep(After(s, before), steps[|steps| - 1], Trailings(s, before));
    }
  }

  /** A task is armed after a step exactly if it was, and the step did not end it, or the step is the
      submission that creates it. */
  lemma {:induction false} ArmedByStep(s: State, step: Step, t: nat)
    requires Inv(s) && Possible(s, step)
    ensures IsArmed(Next(s, step), t)
            == ((IsArmed(s, t) && EndOf(s, step, t) == []) || (Arms(s, step) && t == |s.tasks|))
  {
    assert forall key :: key in s.timers ==> TimerOk(s, key, s.timers[key]);
  }

  function FiredBy(s: State, t: nat): seq<Begun> {
    if t < |s.tasks| then [Begun(s.tasks[t].req, s.now, Some(t))] else []
  }

  /** A task dispatches only when it fires, once its window has closed. */
  lemma {:induction false} DispatchedByStep(s: State, step: Step, t: nat)
    requires Possible(s, step)
    ensures DispatchesOf(Next(s, step).log, t)
            == DispatchesOf(s.log, t)
               + (if EndOf(s, step, t) == [Fired] then FiredBy(s, t) else [])
    ensures EndOf(s, step, t) == [Fired] ==> s.tasks[t].due <= s.now
  {
    var log := Next(s, step).log;
    assert |log| > |s.log| ==> log[..|log| - 1] == s.log;
  }

  lemma {:induction false} DirectByStep(s: State, step: Step)
    requires Possible(s, step)
    ensures DirectDispatches(Next(s, step).log)
            == DirectDispatches(s.log) + (if step.Submit? && !Arms(s, step) then [(step.req, s.now)] else [])
  {
    var log := Next(s, step).log;
    assert |log| > |s.log| ==> log[..|log| - 1] == s.log;
  }

  /** Where a task stands that has had these ends: not yet created, armed, or over. */
  ghost predicate Accounted(created: bool, armed: bool, ends: seq<Cause>, begun: seq<Begun>) {
    && (armed ==> created)
    && |ends| == (if created && !armed then 1 else 0)
    && |begun| == (if ends == [Fired] then 1 else 0)
  }

  lemma {:induction false} CountsStay(created: bool, armed: bool, ends: seq<Cause>, begun: seq<Begun>, more: seq<Cause>, one: seq<Begun>)
    requires |one| <= 1 && (more == [Fired] ==> |one| == 1)
    requires Accounted(created, armed, ends, begun)
    requires |more| <= 1 && (more != [] ==> armed)
    ensures Accounted(created, armed && more == [], ends + more, begun + (if more == [Fired] then one else []))
    ensures !created ==> Accounted(true, true, ends + [], begun + [])
  {
    assert ends == [] ==> ends + more == more;
    assert more == [] ==> ends + more == ends;
  }

  ghost predicate AccountedAt(s: State, t: nat, ends: seq<Cause>) {
    Accounted(t < |s.tasks|, IsArmed(s, t), ends, DispatchesOf(s.log, t))
  }

  /** The dispatches of a task are of its request, and none came early. */
  ghost predicate Timely(s: State, t: nat) {
    forall b :: b in DispatchesOf(s.log, t) ==>
      t < |s.tasks| && b.req == s.tasks[t].req && s.tasks[t].due <= b.time <= s.now
  }

  lemma {:induction false} AccountedByStep(s: State, step: Step, t: nat, ends: seq<Cause>)
    requires Inv(s) && Possible(s, step) && AccountedAt(s, t, ends)
    ensures AccountedAt(Next(s, step), t, ends + EndOf(s, step, t))
  {
    ArmedByStep(s, step, t);
    DispatchedByStep(s, step, t);
    assert |Next(s, step).tasks| == |s.tasks| + if Arms(s, step) then 1 else 0;
    CountsStay(t < |s.tasks|, IsArmed(s, t), ends, DispatchesOf(s.log, t), EndOf(s, step, t), FiredBy(s, t));
  }

  lemma {:induction false} TimelyByStep(s: State, step: Step, t: nat)
    requires Possible(s, step) && Timely(s, t)
    ensures Timely(Next(s, step), t)
  {
    DispatchedByStep(s, step, t);
  }

  lemma {:induction false} RunAccounts(s: State, steps: seq<Step>, t: nat)
    requires Fresh(s) && Run(s, steps)
    ensures AccountedAt(After(s, steps), t, EndsOf(s, steps, t)) && Timely(After(s, steps), t)
  {
    if |steps| > 0 {
      var before, step := steps[..|steps| - 1], steps[|steps| - 1];
      RunAccounts(s, before, t);
      RunKeepsInv(s, before);
      AccountedByStep(After(s, before), step, t, EndsOf(s, before, t));
      TimelyByStep(After(s, before), step, t);
    }
  }

  /** Each trailing request is in exactly one place: armed, or ended once, for one cause.  It is
      dispatched at most once, which is exactly when it ended by firing, as submitted and not before
      its window closed. */
  lemma {:induction false} Conservation(s: State, steps: seq<Step>, t: nat)
    requires Fresh(s) && Run(s, steps)
    requires t < |Trailings(s, steps)|
    ensures var v, ends := After(s, steps), EndsOf(s, steps, t);
            var begun := DispatchesOf(v.log, t);
            && |ends| == (if IsArmed(v, t) then 0 else 1)
            && |begun| == (if ends == [Fired] then 1 else 0)
            && forall b :: b in begun ==> b.req == Trailings(s, steps)[t].0 && Trailings(s, steps)[t].1 <= b.time <= v.now
  {
    TasksAreTrailings(s, steps);
    RunAccounts(s, steps, t);
  }

  /** What is armed for a key is its latest trailing request, in every run. */
  lemma {:induction false} ArmedIsLatest(s: State, steps: seq<Step>, t: nat)
    requires Fresh(s) && Run(s, steps)
    requires IsArmed(After(s, steps), t)
    ensures forall u :: t < u < |Trailings(s, steps)| ==> KeyOf(Trailings(s, steps)[u].0) != KeyOf(Trailings(s, steps)[t].0)
  {
    TasksAreTrailings(s, steps);
    if |steps| > 0 {
      var before := steps[..|steps| - 1];
      RunKeepsInv(s, before);
      TasksAreTrailings(s, before);
      ArmedByStep(After(s, before), steps[|steps| - 1], t);
      if IsArmed(After(s, before), t) {
        ArmedIsLatest(s, before, t);
      }
    }
  }

  /** Requests that do not trail are dispatched at once, each exactly once and in order. */
  lemma {:induction false} ImmediateConservation(s: State, steps: seq<Step>)
    requires Fresh(s) && Run(s, steps)
    ensures DirectDispatches(After(s, steps).log) == Immediates(s, steps)
  {
    if |steps| > 0 {
      ImmediateConservation(s, steps[..|steps| - 1]);
      DirectByStep(After(s, steps[..|steps| - 1]), steps[|steps| - 1]);
    }
  }

  // ---- requests that replace each other -------------------------------------------------------

  /** Requests for one server with one scan key. */
  predicate SameKey(p: ScanRequest, q: ScanRequest) {
    p.serverId == q.serverId && p.scanKey == q.scanKey
  }

  /** A trailing request is superseded by a later one with its server and scan key, and by nothing else. */
  lemma {:induction false} SupersededByLater(s: State, steps: seq<Step>, t: nat) returns (u: nat)
    requires Fresh(s) && Run(s, steps)
    requires Superseded in EndsOf(s, steps, t)
    ensures t < u < |Trailings(s, steps)| && SameKey(Trailings(s, steps)[u].0, Trailings(s, steps)[t].0)
  {
    var before, step := steps[..|steps| - 1], steps[|steps| - 1];
    var v := After(s, before);
    TasksAreTrailings(s, before);
    if Superseded in EndsOf(s, before, t) {
      u := SupersededByLater(s, before, t);
    } else {
      assert Superseded in EndOf(v, step, t);
      u := |Trailings(s, before)|;
    }
  }

  /** No two armed requests have the same server and scan key. */
  lemma {:induction false} OneArmedPerKey(s: State, steps: seq<Step>, t: nat, u: nat)
    requires Fresh(s) && Run(s, steps)
    requires IsArmed(After(s, steps), t) && IsArmed(After(s, steps), u) && t != u
    ensures t < |Trailings(s, steps)| && u < |Trailings(s, steps)|
    ensures !SameKey(Trailings(s, steps)[t].0, Trailings(s, steps)[u].0)
  {
    TasksAreTrailings(s, steps);
  }

  // ---- timers that are no longer armed ------------------------------------------------------

  ghost predicate Tended(s: State) {
    forall t :: 0 <= t < |s.tasks| && s.tasks[t].phase == Sleeping ==> IsArmed(s, t) || t in s.cancelled
  }

  lemma {:induction false} StepTends(s: State, step: Step)
    requires Inv(s) && Tended(s) && Possible(s, step)
    ensures Tended(Next(s, step))
  {
    assert forall key :: key in s.timers ==> TimerOk(s, key, s.timers[key]);
  }

  /** A timer that sleeps is armed, or was asked to cancel, and not both: whatever takes it out of the table,
      a later request, a server that is gone or the close, cancels it. */
  lemma {:induction false} SleepersAreTended(s: State, steps: seq<Step>, t: nat)
    requires Fresh(s) && Run(s, steps)
    requires t < |After(s, steps).tasks| && After(s, steps).tasks[t].phase == Sleeping
    ensures IsArmed(After(s, steps), t) <==> t !in After(s, steps).cancelled
  {
    RunTends(s, steps);
    RunKeepsInv(s, steps);
    var v := After(s, steps);
    assert forall key :: key in v.timers ==> TimerOk(v, key, v.timers[key]);
  }

  lemma {:induction false} RunTends(s: State, steps: seq<Step>)
    requires Fresh(s) && Run(s, steps)
    ensures Tended(After(s, steps))
  {
    if |steps| > 0 {
      RunTends(s, steps[..|steps| - 1]);
      RunKeepsInv(s, steps[..|steps| - 1]);
      StepTends(After(s, steps[..|steps| - 1]), steps[|steps| - 1]);
    }
  }

  /** Where a timer task stands, told from what was done with it. */
  predicate Stands(phase: Phase, woken: bool, fired: bool, done: bool) {
    match phase
    case Sleeping => !woken && !fired && !done
    case Dispatching => woken && fired && !done
    case Finished => woken && (fired <==> done)
  }

  predicate Wakes(step: Step, t: nat) {
    step == Fire(t) || step == Stop(t)
  }

  lemma {:induction false} StandsByStep(s: State, step: Step, t: nat, woken: bool, fired: bool, done: bool)
    requires Inv(s) && Possible(s, step) && t < |s.tasks| && Stands(s.tasks[t].phase, woken, fired, done)
    ensures t < |Next(s, step).tasks|
    ensures Stands(Next(s, step).tasks[t].phase, woken || Wakes(step, t), fired || EndOf(s, step, t) == [Fired], done || step == Done(t))
  {
    assert IsArmed(s, t) ==> TimerOk(s, KeyOf(s.tasks[t].req), t);
  }

  ghost predicate WokenIn(steps: seq<Step>, t: nat) {
    exists i :: 0 <= i < |steps| && Wakes(steps[i], t)
  }

  lemma {:induction false} OneMoreStep(steps: seq<Step>, t: nat)
    requires |steps| > 0
    ensures var before, step := steps[..|steps| - 1], steps[|steps| - 1];
            && (WokenIn(steps, t) <==> WokenIn(before, t) || Wakes(step, t))
            && (Done(t) in steps <==> Done(t) in before || step == Done(t))
  {
    var before, step := steps[..|steps| - 1], steps[|steps| - 1];
    assert steps == before + [step];
    if i :| 0 <= i < |before| && Wakes(before[i], t) { assert Wakes(steps[i], t); }
    if i :| 0 <= i < |steps| && Wakes(steps[i], t) { assert i < |before| ==> Wakes(before[i], t); }
    assert Wakes(step, t) ==> Wakes(steps[|before|], t);
  }

  lemma {:induction false} UnbornUntouched(s: State, steps: seq<Step>, t: nat)
    requires Fresh(s) && Run(s, steps) && t >= |After(s, steps).tasks|
    ensures !WokenIn(steps, t) && Done(t) !in steps && EndsOf(s, steps, t) == []
  {
    if |steps| > 0 {
      var before := steps[..|steps| - 1];
      TasksOnlyGrow(After(s, before), steps[|steps| - 1]);
      UnbornUntouched(s, before, t);
      OneMoreStep(steps, t);
    }
  }

  lemma {:induction false} TasksOnlyGrow(s: State, step: Step)
    requires Possible(s, step)
    ensures |Next(s, step).tasks| == |s.tasks| + if Arms(s, step) then 1 else 0
    ensures Arms(s, step) ==> Next(s, step).tasks[|s.tasks|].phase == Sleeping
  {
  }

  /** A timer sleeps until it wakes, after its sleep or cancelled; then it dispatches until the dispatch is done
      if it was still armed, and is finished otherwise. */
  lemma {:induction false} PhaseIsTold(s: State, steps: seq<Step>, t: nat)
    requires Fresh(s) && Run(s, steps) && t < |After(s, steps).tasks|
    ensures Stands(After(s, steps).tasks[t].phase, WokenIn(steps, t), EndsOf(s, steps, t) == [Fired], Done(t) in steps)
  {
    if |steps| > 0 {
      var before, step := steps[..|steps| - 1], steps[|steps| - 1];
      var u := After(s, before);
      OneMoreStep(steps, t);
      TasksOnlyGrow(u, step);
      RunKeepsInv(s, before);
      if t < |u.tasks| {
        PhaseIsTold(s, before, t);
        RunAccounts(s, before, t);
        StandsByStep(u, step, t, WokenIn(before, t), EndsOf(s, before, t) == [Fired], Done(t) in before);
        EndsExtend(EndsOf(s, before, t), EndOf(u, step, t));
        assert EndOf(u, step, t) != [] ==> IsArmed(u, t);
      } else {
        UnbornUntouched(s, before, t);
      }
    }
  }

  lemma {:induction false} EndsExtend(ends: seq<Cause>, more: seq<Cause>)
    requires ends == [] || more == []
    ensures ends + more == [Fired] <==> ends == [Fired] || more == [Fired]
  {
    assert ends == [] ==> ends + more == more;
    assert more == [] ==> ends + more == ends;
  }

  // ---- a dispatch that has begun ----------------------------------------------------------

  /** Cancellation reaches sleeping and finished tasks only. */
  ghost predicate Spared(s: State) {
    forall t :: t in s.cancelled ==> t < |s.tasks| && !s.tasks[t].phase.Dispatching?
  }

  lemma {:induction false} StepSpares(s: State, step: Step, t: nat)
    requires Inv(s) && Spared(s) && Possible(s, step)
    ensures Spared(Next(s, step))
    ensures t < |s.tasks| && s.tasks[t].phase.Dispatching? && step != Done(t) ==>
              Next(s, step).tasks[t] == s.tasks[t]
  {
    assert forall key :: key in s.timers ==> TimerOk(s, key, s.timers[key]);
  }

  /** A dispatch that has begun goes on until it is done: no later submission, server update, close
      or wake-up cancels it. */
  lemma {:induction false} DispatchRunsToItsEnd(s: State, steps: seq<Step>, t: nat)
    requires Inv(s) && Spared(s) && Run(s, steps)
    requires t < |s.tasks| && s.tasks[t].phase.Dispatching?
    ensures var v := After(s, steps);
            && Inv(v) && Spared(v) && t < |v.tasks|
            && (Done(t) !in steps ==> v.tasks[t] == s.tasks[t] && t !in v.cancelled)
  {
    if |steps| > 0 {
      var before, step := steps[..|steps| - 1], steps[|steps| - 1];
      DispatchRunsToItsEnd(s, before, t);
      StepKeepsInv(After(s, before), step);
      StepSpares(After(s, before), step, t);
      assert steps == before + [step];
    }
  }
}
