/** From an event to a trigger: every trigger was asked for by an event, routed under one configuration. */
module Provenance {
  import opened Types
  import Router
  import D = Debounce
  import opened EngineRuns

  /** The request waits to be submitted, belongs to a timer, or was triggered. */
  ghost predicate Carries(s: System, req: ScanRequest) {
    || req in s.pending
    || (exists t :: 0 <= t < |s.debouncer.tasks| && s.debouncer.tasks[t].req == req)
    || (exists k :: 0 <= k < |s.triggers| && s.triggers[k].req == req)
  }

  /** The event that step `k` takes is routed to the request by the configuration of that moment. */
  ghost predicate RoutedAt(s: System, steps: seq<Step>, lower: char -> char, k: nat, req: ScanRequest) {
    && k < |steps| && steps[k].TakeEvent? && Run(s, steps[..k], lower)
    && After(s, steps[..k], lower).config.Some?
    && req in Router.Routed(steps[k].event, After(s, steps[..k], lower).config.value, lower)
  }

  lemma {:induction false} TimerStepHolds(s: System, step: D.Step, req: ScanRequest)
    requires D.Possible(s.debouncer, step) && !step.Submit?
    requires Carries(Debounced(s, step), req)
    ensures Carries(s, req)
  {
    var v := Debounced(s, step);
    assert forall t :: 0 <= t < |s.debouncer.tasks| ==> v.debouncer.tasks[t].req == s.debouncer.tasks[t].req;
    assert forall k :: 0 <= k < |s.triggers| ==> v.triggers[k] == s.triggers[k];
  }

  lemma {:induction false} SubmitHolds(s: System, req: ScanRequest)
    requires s.pending != [] && Carries(WithNextSubmitted(s), req)
    ensures Carries(s, req)
  {
    var v := WithNextSubmitted(s);
    assert s.pending == [s.pending[0]] + s.pending[1..];
    assert forall t :: 0 <= t < |s.debouncer.tasks| ==> v.debouncer.tasks[t] == s.debouncer.tasks[t];
    assert forall k :: 0 <= k < |s.triggers| ==> v.triggers[k] == s.triggers[k];
  }

  lemma {:induction false} SwapHolds(s: System, v: System, req: ScanRequest)
    requires v.pending == s.pending && v.triggers == s.triggers
    requires v.debouncer.tasks == s.debouncer.tasks || v.debouncer.tasks == []
    requires Carries(v, req)
    ensures Carries(s, req)
  {
  }

  predicate KeepsRequests(step: Step) {
    !step.SubmitNext? && !step.Timer? && !step.TakeEvent?
  }

  lemma {:induction false} OthersKeepRequests(s: System, step: Step, lower: char -> char)
    requires Possible(s, step) && KeepsRequests(step)
    ensures var v := Next(s, step, lower);
            && v.pending == s.pending && v.triggers == s.triggers
            && (v.debouncer.tasks == s.debouncer.tasks || v.debouncer.tasks == [])
  {
  }

  /** A step invents no request but those of the event it takes. */
  lemma {:induction false} RequestsByStep(s: System, step: Step, lower: char -> char, req: ScanRequest)
    requires Possible(s, step) && Carries(Next(s, step, lower), req)
    ensures Carries(s, req) || (step.TakeEvent? && req in Router.Routed(step.event, s.config.value, lower))
  {
    if KeepsRequests(step) {
      OthersKeepRequests(s, step, lower);
      SwapHolds(s, Next(s, step, lower), req);
    } else if step.SubmitNext? {
      SubmitHolds(s, req);
    } else if step.Timer? {
      TimerStepHolds(s, step.step, req);
    }
  }

  lemma {:induction false} RequestsAreRouted(steps: seq<Step>, lower: char -> char, req: ScanRequest) returns (k: nat)
    requires Run(Fresh(), steps, lower) && Carries(After(Fresh(), steps, lower), req)
    ensures RoutedAt(Fresh(), steps, lower, k, req)
  {
    var n := |steps| - 1;
    var before := steps[..n];
    RequestsByStep(After(Fresh(), before, lower), steps[n], lower, req);
    if Carries(After(Fresh(), before, lower), req) {
      k := RequestsAreRouted(before, lower, req);
      assert before[..k] == steps[..k];
    } else {
      k := n;
    }
  }

  /** Every trigger's request is one that routing gave for an event taken before, under the configuration
      in force when the event was taken. */
  lemma {:induction false} TriggersAreRouted(steps: seq<Step>, lower: char -> char, i: nat) returns (k: nat)
    requires Run(Fresh(), steps, lower) && i < |After(Fresh(), steps, lower).triggers|
    ensures RoutedAt(Fresh(), steps, lower, k, After(Fresh(), steps, lower).triggers[i].req)
  {
    k := RequestsAreRouted(steps, lower, After(Fresh(), steps, lower).triggers[i].req);
  }
}
