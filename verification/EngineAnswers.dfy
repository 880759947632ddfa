/** What the engine's state, roots and configuration are is told by the answers it got: in every run they are
    those of a ledger that knows nothing of adapters, clients, timers or locks. */
module EngineAnswers {
  import opened Types
  import opened EngineRuns

  /** The configuration that `start` read, the one read last, what the latest answer of the gate left, and whether
      a rebuild holds the lock. */
  datatype Ledger = Ledger(
    first: Option<RuntimeConfig>, last: Option<RuntimeConfig>,
    state: EngineState, roots: set<string>, config: Option<RuntimeConfig>, busy: bool)

  function PathsOf(config: Option<RuntimeConfig>): set<string> {
    if config.Some? then config.value.watchPaths else {}
  }

  /** A yes makes the engine run on the watch paths asked about, a no leaves it blocked: without roots, but
      that a headless start leaves them alone.  A swap takes the configuration read last, a start that
      enters the one it read first. */
  function Noted(l: Ledger, step: Step): Ledger {
    match step
    case Start => l.(state := Starting)
    case ConfigRead(config) =>
      if l.first.None? then l.(first := Some(config), last := Some(config), config := Some(config)) else l.(last := Some(config))
    case Enter(true, _) => l.(state := Running, roots := PathsOf(l.first))
    case Enter(false, true) => l.(state := Blocked, roots := {})
    case Enter(false, false) => l.(state := Blocked)
    case Swap(true) => l.(state := Running, roots := PathsOf(l.last), config := l.last)
    case Swap(false) => l.(state := Blocked, roots := {}, config := l.last)
    case EndClose => l.(state := Stopped)
    case BeginRebuild => l.(busy := true)
    case RebuildRaises => l.(busy := false)
    case EndRebuild => l.(busy := false)
    case _ => l
  }

  function LedgerOf(steps: seq<Step>): Ledger {
    if |steps| == 0 then Ledger(None, None, Stopped, {}, None, false)
    else Noted(LedgerOf(steps[..|steps| - 1]), steps[|steps| - 1])
  }

  ghost predicate Follows(s: System, l: Ledger) {
    && s.state == l.state && s.roots == l.roots && s.config == l.config
    && (l.first.None? <==> s.start.Unstarted? || s.start.ReadingConfig?)
    && (s.rebuild.Idle? <==> !l.busy)
    && (s.start.Gating? ==> l.first == Some(s.start.config))
    && (s.build.Some? ==> l.last == Some(s.build.value.config))
    && (s.start.Wiring? ==> l.first == l.last)
  }

  predicate Answers(step: Step) {
    step.Start? || step.ConfigRead? || step.Enter? || step.Swap? || step.EndClose? || step.Wire?
    || step.BeginRebuild? || step.RebuildRaises? || step.EndRebuild?
  }

  lemma {:induction false} AnswerFollows(s: System, l: Ledger, step: Step, lower: char -> char)
    requires Phases(s) && BuildsLinked(s) && Follows(s, l) && Possible(s, step) && Answers(step)
    ensures Follows(Next(s, step, lower), Noted(l, step))
  {
  }

  lemma {:induction false} OthersFollow(s: System, l: Ledger, step: Step, lower: char -> char)
    requires Phases(s) && Follows(s, l) && Possible(s, step) && !Answers(step)
    ensures Follows(Next(s, step, lower), l)
  {
  }

  lemma {:induction false} StepFollows(s: System, l: Ledger, step: Step, lower: char -> char)
    requires Inv(s) && Follows(s, l) && Possible(s, step)
    ensures Follows(Next(s, step, lower), Noted(l, step))
  {
    if Answers(step) {
      AnswerFollows(s, l, step, lower);
    } else {
      OthersFollow(s, l, step, lower);
    }
  }

  /** In every run the engine is running, blocked or stopped, on the roots and with the configuration, as the
      latest answer of the gate and the configurations read say; and the next rebuild may begin once the one before
      has ended or raised. */
  lemma {:induction false} EngineFollowsAnswers(steps: seq<Step>, lower: char -> char)
    requires Run(Fresh(), steps, lower)
    ensures Follows(After(Fresh(), steps, lower), LedgerOf(steps))
  {
    if |steps| > 0 {
      var before := steps[..|steps| - 1];
      EngineFollowsAnswers(before, lower);
      FreshInv();
      RunInv(Fresh(), before, lower);
      StepFollows(After(Fresh(), before, lower), LedgerOf(before), steps[|steps| - 1], lower);
    }
  }

  /** What a swap installs, whatever there was: with a yes the engine runs on the watch paths of the new
      configuration, with a no it is blocked and watches nothing; either way the new adapters, clients and
      servers are in force and the old clients are to be closed. */
  lemma {:induction false} SwapAnswered(s: System, ok: bool, lower: char -> char)
    requires Possible(s, Swap(ok))
    ensures var v, b := Next(s, Swap(ok), lower), s.build.value;
            && v.state == (if ok then Running else Blocked)
            && v.roots == (if ok then b.config.watchPaths else {})
            && v.config == Some(b.config) && v.debouncer.servers == b.config.servers
            && v.adapters == b.adapters && v.clients == b.clients && v.rebuild == Retiring(s.clients)
  {
  }

  // ---- how far a build has come ---------------------------------------------------------------

  /** Every server of the configuration is still to be built, has its adapter, or failed. */
  ghost predicate EachTried(b: Build, failed: set<int>) {
    forall id :: id in b.config.servers <==> id in b.todo || id in b.adapters || id in failed
  }

  /** The servers whose construction failed since the configuration was read last. */
  function FailedIn(steps: seq<Step>): set<int> {
    if |steps| == 0 then {} else FailedBy(FailedIn(steps[..|steps| - 1]), steps[|steps| - 1])
  }

  function FailedBy(before: set<int>, step: Step): set<int> {
    match step
    case ConfigRead(_) => {}
    case BuildOne(id, works) => if works then before else before + {id}
    case _ => before
  }

  lemma {:induction false} StepTriesEach(s: System, step: Step, failed: set<int>, lower: char -> char)
    requires s.build.Some? ==> EachTried(s.build.value, failed)
    requires Possible(s, step)
    ensures var v := Next(s, step, lower);
            v.build.Some? ==> EachTried(v.build.value, FailedBy(failed, step))
  {
  }

  lemma {:induction false} BuildsTryEach(steps: seq<Step>, lower: char -> char)
    requires Run(Fresh(), steps, lower)
    ensures var v := After(Fresh(), steps, lower);
            v.build.Some? ==> EachTried(v.build.value, FailedIn(steps))
  {
    if |steps| > 0 {
      var before := steps[..|steps| - 1];
      BuildsTryEach(before, lower);
      StepTriesEach(After(Fresh(), before, lower), steps[|steps| - 1], FailedIn(before), lower);
    }
  }

  /** So what a wiring or a swap installs has an adapter for every server but those whose construction failed. */
  lemma {:induction false} InstalledAdapters(steps: seq<Step>, step: Step, lower: char -> char)
    requires Run(Fresh(), steps, lower) && Possible(After(Fresh(), steps, lower), step) && (step.Wire? || step.Swap?)
    ensures var s, v := After(Fresh(), steps, lower), Next(After(Fresh(), steps, lower), step, lower);
            forall id :: id in s.build.value.config.servers <==> id in v.adapters || id in FailedIn(steps)
  {
    BuildsTryEach(steps, lower);
  }
}
