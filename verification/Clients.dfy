/** Who holds which HTTP client, over every run of the engine. */
module Clients {
  import opened Types
  import opened EngineRuns

  /** Who holds which client: a build, the engine itself, a rebuild that is closing the old ones, nobody
      any more because it was closed, or nobody because a rebuild raised. */
  datatype Holdings = Holdings(
    building: map<int, nat>, failing: Option<nat>, current: map<int, nat>, retiring: map<int, nat>,
    closed: seq<nat>, lost: seq<map<int, nat>>, built: nat)

  function Held(s: System): Holdings {
    Holdings(
      if s.build.Some? then s.build.value.clients else map[],
      if s.build.Some? then s.build.value.failing else None,
      if s.close.ClosingClients? then s.close.clients else s.clients,
      if s.rebuild.Retiring? then s.rebuild.clients else map[],
      s.closed, s.lost, s.built)
  }

  datatype Place = InBuild(id: int) | Failing | Current(id: int) | Retired(id: int) | ClosedAs(i: nat) | LostWith(i: nat, id: int)

  function Lookup(clients: map<int, nat>, id: int): Option<nat> {
    if id in clients then Some(clients[id]) else None
  }

  function At(h: Holdings, p: Place): Option<nat> {
    match p
    case InBuild(id) => Lookup(h.building, id)
    case Failing => h.failing
    case Current(id) => Lookup(h.current, id)
    case Retired(id) => Lookup(h.retiring, id)
    case ClosedAs(i) => if i < |h.closed| then Some(h.closed[i]) else None
    case LostWith(i, id) => if i < |h.lost| then Lookup(h.lost[i], id) else None
  }

  /** The clients built so far are each held at exactly one place, and no others are. */
  ghost predicate Owned(h: Holdings) {
    && (forall p :: At(h, p).Some? ==> At(h, p).value < h.built)
    && (forall c: nat :: c < h.built ==> Somewhere(h, c))
    && (forall p, q :: At(h, p).Some? && At(h, p) == At(h, q) ==> p == q)
  }

  ghost predicate Somewhere(h: Holdings, c: nat) {
    exists p :: At(h, p) == Some(c)
  }

  /** Where a step moves the client held at `p`. */
  function Moved(h: Holdings, step: Step, p: Place): Place {
    match step
    case FailingClosed => if p == Failing then ClosedAs(|h.closed|) else p
    case Wire => if p.InBuild? then Current(p.id) else p
    case Swap(_) => if p.InBuild? then Current(p.id) else if p.Current? then Retired(p.id) else p
    case RebuildRaises => if p.InBuild? then LostWith(|h.lost|, p.id) else p
    case RetireOne(id) => if p == Retired(id) then ClosedAs(|h.closed|) else p
    case CloseOne(id) => if p == Current(id) then ClosedAs(|h.closed|) else p
    case _ => p
  }

  /** What a step does to the holdings. */
  ghost predicate Moves(h: Holdings, step: Step, v: Holdings) {
    match step
    case BuildOne(id, works) =>
      && id !in h.building && h.failing.None?
      && v == if works then h.(building := h.building[id := h.built], built := h.built + 1)
              else h.(failing := Some(h.built), built := h.built + 1)
    case FailingClosed => h.failing.Some? && v == h.(failing := None, closed := h.closed + [h.failing.value])
    case Wire => h.current == map[] && v == h.(building := map[], current := h.building)
    case Swap(_) => h.retiring == map[] && v == h.(building := map[], current := h.building, retiring := h.current)
    case RebuildRaises => v == h.(building := map[], lost := v.lost)
                          && (v.lost == h.lost + [h.building] || (h.building == map[] && v.lost == h.lost))
    case RetireOne(id) => id in h.retiring && v == h.(retiring := h.retiring - {id}, closed := h.closed + [h.retiring[id]])
    case CloseOne(id) => id in h.current && v == h.(current := h.current - {id}, closed := h.closed + [h.current[id]])
    case _ => v == h
  }

  /** The loop of `aclose` runs over the clients that were current when it began: replacing them under it
      does no harm only if neither the old nor the new ones are any. */
  predicate LeavesLoopAlone(s: System, step: Step) {
    (step.Swap? || step.Wire?) && s.close.ClosingClients? && s.build.Some? ==>
      s.clients == map[] && s.build.value.clients == map[]
  }

  /** The clients that the loop has still to close are current, and the other current ones are closed. */
  ghost predicate LoopLinked(s: System) {
    s.close.ClosingClients? ==>
      && s.close.clients.Keys <= s.clients.Keys
      && forall id :: id in s.clients ==>
           if id in s.close.clients then s.close.clients[id] == s.clients[id] else s.clients[id] in s.closed
  }

  predicate TouchesNoClient(step: Step) {
    step.Start? || step.Enter? || step.BeginRebuild? || step.TakeEvent? || step.SubmitNext? || step.Timer?
    || step.BeginClose? || step.CloseTimers?
  }

  lemma {:induction false} OthersKeepHeld(s: System, step: Step, lower: char -> char)
    requires Possible(s, step) && TouchesNoClient(step)
    ensures var v := Next(s, step, lower);
            Held(v) == Held(s) && v.close.ClosingClients? == s.close.ClosingClients?
            && (v.close.ClosingClients? ==> v.close == s.close) && v.clients == s.clients && v.closed == s.closed
  {
    if step.SubmitNext? || step.Timer? || step.CloseTimers? {
      TimersKeepHeld(s, step, lower);
    }
  }

  lemma {:induction false} TimersKeepHeld(s: System, step: Step, lower: char -> char)
    requires Possible(s, step) && (step.SubmitNext? || step.Timer? || step.CloseTimers?)
    ensures var v := Next(s, step, lower);
            v == s.(debouncer := v.debouncer, triggers := v.triggers, pending := v.pending,
                    close := if step.CloseTimers? then ReleasingTimers else s.close)
  {
  }

  lemma {:induction false} ClientStepMoves(s: System, step: Step, lower: char -> char)
    requires Phases(s) && BuildsLinked(s) && LoopLinked(s) && Possible(s, step)
    requires !TouchesNoClient(step) && LeavesLoopAlone(s, step)
    ensures Moves(Held(s), step, Held(Next(s, step, lower)))
  {
  }

  lemma {:induction false} StepMoves(s: System, step: Step, lower: char -> char)
    requires Phases(s) && BuildsLinked(s) && LoopLinked(s) && Possible(s, step) && LeavesLoopAlone(s, step)
    ensures Moves(Held(s), step, Held(Next(s, step, lower)))
  {
    if TouchesNoClient(step) {
      OthersKeepHeld(s, step, lower);
    } else {
      ClientStepMoves(s, step, lower);
    }
  }

  lemma {:induction false} StepKeepsLoop(s: System, step: Step, lower: char -> char)
    requires Phases(s) && LoopLinked(s) && Possible(s, step) && LeavesLoopAlone(s, step)
    ensures LoopLinked(Next(s, step, lower))
  {
    if TouchesNoClient(step) {
      OthersKeepHeld(s, step, lower);
    } else {
      ClientStepKeepsLoop(s, step, lower);
    }
  }

  lemma {:induction false} ClientStepKeepsLoop(s: System, step: Step, lower: char -> char)
    requires Phases(s) && LoopLinked(s) && Possible(s, step) && LeavesLoopAlone(s, step)
    requires !TouchesNoClient(step)
    ensures LoopLinked(Next(s, step, lower))
  {
    var v := Next(s, step, lower);
    assert forall c :: c in s.closed ==> c in v.closed;
    if step.CloseOne? {
      assert s.close.clients[step.id] in v.closed by { assert v.closed[|s.closed|] == s.close.clients[step.id]; }
    }
  }

  /** The place before a step of what is at `q` after it, except for the client just built. */
  function Origin(h: Holdings, step: Step, q: Place): Place {
    match step
    case FailingClosed => if q == ClosedAs(|h.closed|) then Failing else q
    case Wire => if q.Current? then InBuild(q.id) else q
    case Swap(_) => if q.Current? then InBuild(q.id) else if q.Retired? then Current(q.id) else q
    case RebuildRaises => if q.LostWith? && q.i == |h.lost| then InBuild(q.id) else q
    case RetireOne(id) => if q == ClosedAs(|h.closed|) then Retired(id) else q
    case CloseOne(id) => if q == ClosedAs(|h.closed|) then Current(id) else q
    case _ => q
  }

  lemma {:induction false} MovedThere(h: Holdings, step: Step, v: Holdings, p: Place)
    requires Moves(h, step, v) && At(h, p).Some?
    ensures At(v, Moved(h, step, p)) == At(h, p)
  {
  }

  lemma {:induction false} CameFrom(h: Holdings, step: Step, v: Holdings, q: Place)
    requires Moves(h, step, v) && At(v, q).Some?
    ensures At(v, q) == At(h, Origin(h, step, q))
            || (At(v, q) == Some(h.built) && step.BuildOne? && q == if step.works then InBuild(step.id) else Failing)
    ensures At(h, Origin(h, step, q)).Some? ==> Moved(h, step, Origin(h, step, q)) == q
  {
  }

  lemma {:induction false} MovesKeepOwned(h: Holdings, step: Step, v: Holdings)
    requires Owned(h) && Moves(h, step, v)
    ensures Owned(v)
  {
    forall p | At(v, p).Some? ensures At(v, p).value < v.built {
      CameFrom(h, step, v, p);
    }
    forall c: nat | c < v.built ensures Somewhere(v, c) {
      if c < h.built {
        assert Somewhere(h, c);
        var p :| At(h, p) == Some(c);
        MovedThere(h, step, v, p);
      } else {
        assert At(v, if step.BuildOne? && step.works then InBuild(step.id) else Failing) == Some(c);
      }
    }
    forall p, q | At(v, p).Some? && At(v, p) == At(v, q) ensures p == q {
      CameFrom(h, step, v, p);
      CameFrom(h, step, v, q);
    }
  }

  // ---- when the loop is not left alone ------------------------------------------------------

  /** A swap under the running loop: a client that was current is retired as well, and so held, or closed,
      twice; a client of the new build is never reached by the loop and dropped when it ends. */
  lemma {:induction false} DisturbedLoop(s: System, step: Step, lower: char -> char)
    requires Phases(s) && BuildsLinked(s) && LoopLinked(s) && Owned(Held(s)) && Possible(s, step)
    requires !LeavesLoopAlone(s, step)
    ensures !Owned(Held(Next(s, step, lower)))
  {
    var h, v := Held(s), Held(Next(s, step, lower));
    if s.clients != map[] {
      var id := SomeServer(s.clients);
      TwicePlaced(s, v, id);
    } else {
      var id := SomeServer(s.build.value.clients);
      assert At(h, InBuild(id)) == Some(s.build.value.clients[id]);
      NotPlaced(h, v, id);
    }
  }

  lemma {:induction false} SomeServer(clients: map<int, nat>) returns (id: int)
    requires clients != map[]
    ensures id in clients
  {
    assert (forall k :: k !in clients) ==> clients == map[];
    id :| id in clients;
  }

  lemma {:induction false} TwicePlaced(s: System, v: Holdings, id: int)
    requires LoopLinked(s) && s.close.ClosingClients? && id in s.clients
    requires v.retiring == s.clients && v.current == s.close.clients && v.closed == s.closed
    ensures !Owned(v)
  {
    assert At(v, Retired(id)) == Some(s.clients[id]);
    if id in s.close.clients {
      assert At(v, Current(id)) == Some(s.clients[id]);
    } else {
      var i :| 0 <= i < |s.closed| && s.closed[i] == s.clients[id];
      assert At(v, ClosedAs(i)) == Some(s.clients[id]);
    }
  }

  lemma {:induction false} NotPlaced(h: Holdings, v: Holdings, id: int)
    requires Owned(h) && id in h.building && h.building[id] < v.built
    requires v.building == map[] && v.failing.None? && v.current == map[] && v.retiring == map[]
    requires v.closed == h.closed && v.lost == h.lost
    ensures !Owned(v)
  {
    var c := h.building[id];
    assert At(h, InBuild(id)) == Some(c);
    assert forall p :: At(v, p) == Some(c) ==> At(h, p) == Some(c) && p != InBuild(id);
    assert !Somewhere(v, c);
  }

  // ---- every run --------------------------------------------------------------------------

  ghost predicate LoopLeftAlone(s: System, steps: seq<Step>, lower: char -> char)
    requires Run(s, steps, lower)
  {
    |steps| > 0 ==>
      && LoopLeftAlone(s, steps[..|steps| - 1], lower)
      && LeavesLoopAlone(After(s, steps[..|steps| - 1], lower), steps[|steps| - 1])
  }

  /** At every point of the run each client is at exactly one place. */
  ghost predicate AlwaysOwned(s: System, steps: seq<Step>, lower: char -> char)
    requires Run(s, steps, lower)
  {
    && Owned(Held(After(s, steps, lower)))
    && (|steps| > 0 ==> AlwaysOwned(s, steps[..|steps| - 1], lower))
  }

  lemma {:induction false} FreshOwned()
    ensures Owned(Held(Fresh())) && LoopLinked(Fresh())
  {
    assert forall p :: At(Held(Fresh()), p) == None;
  }

  lemma {:induction false} StepOwnedExactly(s: System, step: Step, lower: char -> char)
    requires Inv(s) && LoopLinked(s) && Owned(Held(s)) && Possible(s, step)
    ensures Owned(Held(Next(s, step, lower))) <==> LeavesLoopAlone(s, step)
    ensures LeavesLoopAlone(s, step) ==> LoopLinked(Next(s, step, lower))
  {
    if LeavesLoopAlone(s, step) {
      StepMoves(s, step, lower);
      MovesKeepOwned(Held(s), step, Held(Next(s, step, lower)));
      StepKeepsLoop(s, step, lower);
    } else {
      DisturbedLoop(s, step, lower);
    }
  }

  /** Every client ever built is, at every point of a run, in exactly one of being built, current, being
      closed, closed once, or lost by a rebuild that raised, if and only if no swap, nor the wiring of
      `start`, replaces clients under the running loop of `aclose`. */
  lemma {:induction false} ClientConservation(steps: seq<Step>, lower: char -> char)
    requires Run(Fresh(), steps, lower)
    ensures AlwaysOwned(Fresh(), steps, lower) <==> LoopLeftAlone(Fresh(), steps, lower)
    ensures LoopLeftAlone(Fresh(), steps, lower) ==> LoopLinked(After(Fresh(), steps, lower))
  {
    FreshInv();
    FreshOwned();
    if |steps| > 0 {
      var before, step := steps[..|steps| - 1], steps[|steps| - 1];
      ClientConservation(before, lower);
      if LoopLeftAlone(Fresh(), before, lower) {
        RunInv(Fresh(), before, lower);
        StepOwnedExactly(After(Fresh(), before, lower), step, lower);
      }
    }
  }

  lemma {:induction false} PhaseByStep(s: System, step: Step, lower: char -> char)
    requires Possible(s, step)
    ensures var v := Next(s, step, lower);
            !v.close.ClosingClients? && !v.close.Closed? ==> !s.close.ClosingClients? && !s.close.Closed?
  {
  }

  /** Until the loop begins nothing can disturb it. */
  lemma {:induction false} OwnedBeforeLoop(steps: seq<Step>, lower: char -> char)
    requires Run(Fresh(), steps, lower)
    requires var close := After(Fresh(), steps, lower).close; !close.ClosingClients? && !close.Closed?
    ensures LoopLeftAlone(Fresh(), steps, lower) && Owned(Held(After(Fresh(), steps, lower)))
  {
    if |steps| > 0 {
      PhaseByStep(After(Fresh(), steps[..|steps| - 1], lower), steps[|steps| - 1], lower);
      OwnedBeforeLoop(steps[..|steps| - 1], lower);
    }
    ClientConservation(steps, lower);
  }

  /** A client that is current is neither closed nor about to be. */
  lemma {:induction false} CurrentIsOpen(h: Holdings, id: int)
    requires Owned(h) && id in h.current
    ensures h.current[id] !in h.closed && forall other :: other in h.retiring ==> h.retiring[other] != h.current[id]
  {
    assert At(h, Current(id)) == Some(h.current[id]);
    assert forall i :: 0 <= i < |h.closed| ==> At(h, ClosedAs(i)) == Some(h.closed[i]);
    assert forall other :: other in h.retiring ==> At(h, Retired(other)) == Some(h.retiring[other]);
  }

  ghost predicate WasLost(lost: seq<map<int, nat>>, c: nat) {
    exists i, id :: 0 <= i < |lost| && id in lost[i] && lost[i][id] == c
  }

  ghost predicate ClosedOrLost(h: Holdings) {
    && (forall c: nat :: c < h.built ==> (c !in h.closed <==> WasLost(h.lost, c)))
    && (forall i, j :: 0 <= i < j < |h.closed| ==> h.closed[i] != h.closed[j])
    && ((forall c: nat :: c < h.built ==> c in h.closed) <==> forall i :: 0 <= i < |h.lost| ==> h.lost[i] == map[])
  }

  lemma {:induction false} NothingElseHeld(h: Holdings)
    requires Owned(h) && h.building == map[] && h.failing.None? && h.current == map[] && h.retiring == map[]
    ensures ClosedOrLost(h)
  {
    forall c: nat | c < h.built ensures c !in h.closed <==> WasLost(h.lost, c) {
      assert Somewhere(h, c);
      var p :| At(h, p) == Some(c);
      assert forall i, id, j :: 0 <= i < |h.lost| && id in h.lost[i] && h.lost[i][id] == c && 0 <= j < |h.closed| ==>
          At(h, LostWith(i, id)) == Some(c) && (h.closed[j] == c ==> At(h, ClosedAs(j)) == Some(c));
    }
    forall i, j | 0 <= i < j < |h.closed| ensures h.closed[i] != h.closed[j] {
      assert At(h, ClosedAs(i)).Some? && At(h, ClosedAs(j)).Some?;
    }
    forall i, id | 0 <= i < |h.lost| && id in h.lost[i] ensures h.lost[i][id] < h.built && WasLost(h.lost, h.lost[i][id]) {
      assert At(h, LostWith(i, id)).Some?;
    }
    if forall c: nat :: c < h.built ==> c in h.closed {
      forall i | 0 <= i < |h.lost| ensures h.lost[i] == map[] {
        assert forall id :: id in h.lost[i] ==> WasLost(h.lost, h.lost[i][id]);
      }
    }
  }

  /** Some rebuild of the run raised while its build held a client. */
  ghost predicate Leaked(s: System, steps: seq<Step>, lower: char -> char)
    requires Run(s, steps, lower)
  {
    |steps| > 0 &&
    var before := steps[..|steps| - 1];
    var u := After(s, before, lower);
    || Leaked(s, before, lower)
    || (steps[|steps| - 1].RebuildRaises? && u.build.Some? && u.build.value.clients != map[])
  }

  ghost predicate HoldsLost(lost: seq<map<int, nat>>) {
    exists i :: 0 <= i < |lost| && lost[i] != map[]
  }

  lemma {:induction false} LostByStep(s: System, step: Step, lower: char -> char)
    requires Possible(s, step)
    ensures HoldsLost(Next(s, step, lower).lost)
            <==> HoldsLost(s.lost) || (step.RebuildRaises? && s.build.Some? && s.build.value.clients != map[])
  {
    var lost := Next(s, step, lower).lost;
    assert forall i :: 0 <= i < |s.lost| ==> lost[i] == s.lost[i];
    if step.RebuildRaises? && s.build.Some? {
      assert lost[|s.lost|] == s.build.value.clients;
    }
  }

  lemma {:induction false} LostExactly(steps: seq<Step>, lower: char -> char)
    requires Run(Fresh(), steps, lower)
    ensures HoldsLost(After(Fresh(), steps, lower).lost) <==> Leaked(Fresh(), steps, lower)
  {
    if |steps| > 0 {
      LostExactly(steps[..|steps| - 1], lower);
      LostByStep(After(Fresh(), steps[..|steps| - 1], lower), steps[|steps| - 1], lower);
    }
  }

  /** When the engine has closed, its loop left alone and no rebuild in flight, every client was closed,
      once, or lost; and every one was closed if and only if no rebuild raised with a client in its build. */
  lemma {:induction false} ClosedLeavesNothingOpen(steps: seq<Step>, lower: char -> char)
    requires Run(Fresh(), steps, lower) && LoopLeftAlone(Fresh(), steps, lower)
    requires |steps| > 0 && steps[|steps| - 1].EndClose?
    requires After(Fresh(), steps, lower).rebuild.Idle? && After(Fresh(), steps, lower).build.None?
    ensures var v := After(Fresh(), steps, lower);
            && ClosedOrLost(Held(v))
            && ((forall c: nat :: c < v.built ==> c in v.closed) <==> !Leaked(Fresh(), steps, lower))
  {
    ClientConservation(steps, lower);
    LostExactly(steps, lower);
    var h := Held(After(Fresh(), steps, lower));
    EndedLoopHoldsNothing(After(Fresh(), steps[..|steps| - 1], lower), lower);
    NothingElseHeld(h);
    assert (forall i :: 0 <= i < |h.lost| ==> h.lost[i] == map[]) <==> !HoldsLost(h.lost);
  }

  lemma {:induction false} EndedLoopHoldsNothing(s: System, lower: char -> char)
    requires Possible(s, EndClose)
    ensures var v := Next(s, EndClose, lower);
            v.rebuild.Idle? && v.build.None? ==>
              var h := Held(v);
              h.building == map[] && h.failing.None? && h.current == map[] && h.retiring == map[]
  {
  }
}
