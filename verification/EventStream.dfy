/** One client of the live event stream: a replay of the recent records, then the live ones. */
module EventStream {
  import opened EventsBus

  /** What the client was sent: the record and its place in the history of the bus. */
  datatype Frame<R> = Frame(index: nat, record: R)

  /** A stream replays a snapshot taken when `at` records had been published, then follows a subscription. */
  datatype Phase<R> = Unopened | Replaying(snapshot: seq<R>, at: nat, sent: nat) | Live(id: nat) | Over(id: nat)

  /** `replayed` is the size of the snapshot and `at` the number of records published by then. */
  datatype Client<R> = Client(world: World<R>, phase: Phase<R>, frames: seq<Frame<R>>, at: nat, replayed: nat)

  function NewClient<R>(world: World<R>): Client<R> {
    Client(world, Unopened, [], 0, 0)
  }

  datatype Move<R> =
    /** Anything else that happens on the bus. */
    | Other(step: Step<R>)
    | Open
    | Replay
    | Register
    /** The next live record, or the end of the stream if the client has gone. */
    | Deliver(disconnected: bool)

  predicate Allowed<R>(c: Client<R>, move: Move<R>) {
    match move
    case Other(step) =>
      && Possible(c.world, step)
      && (c.phase.Live? ==> step != Receive(c.phase.id) && step != Unsubscribe(c.phase.id))
    case Open => c.phase.Unopened?
    case Replay => c.phase.Replaying? && c.phase.sent < |c.phase.snapshot| <= c.phase.at
    case Register => c.phase.Replaying? && c.phase.sent == |c.phase.snapshot|
    case Deliver(_) => c.phase.Live? && Possible(c.world, Receive(c.phase.id))
  }

  function Moved<R>(c: Client<R>, move: Move<R>): Client<R>
    requires Allowed(c, move)
  {
    match move
    case Other(step) => c.(world := Next(c.world, step))
    case Open =>
      var snapshot := RecentOf(c.world.bus, REPLAYED);
      c.(phase := Replaying(snapshot, |c.world.history|, 0), at := |c.world.history|, replayed := |snapshot|)
    case Replay =>
      var p := c.phase;
      c.(phase := p.(sent := p.sent + 1),
         frames := c.frames + [Frame(p.at - |p.snapshot| + p.sent, p.snapshot[p.sent])])
    case Register => c.(phase := Live(c.world.bus.next), world := Next(c.world, Subscribe))
    case Deliver(disconnected) =>
      var id, world := c.phase.id, Next(c.world, Receive(c.phase.id));
      if disconnected then c.(phase := Over(id), world := Next(world, Unsubscribe(id)))
      else
        var receipt := world.taken[id][|world.taken[id]| - 1];
        c.(world := world, frames := c.frames + [Frame(receipt.index, receipt.record)])
  }

  ghost predicate Reaches<R(!new)>(c: Client<R>, moves: seq<Move<R>>)
    decreases |moves|, 0
  {
    |moves| > 0 ==> Reaches(c, moves[..|moves| - 1]) && Allowed(Reached(c, moves[..|moves| - 1]), moves[|moves| - 1])
  }

  ghost function Reached<R(!new)>(c: Client<R>, moves: seq<Move<R>>): Client<R>
    requires Reaches(c, moves)
    decreases |moves|, 1
  {
    if |moves| == 0 then c else Moved(Reached(c, moves[..|moves| - 1]), moves[|moves| - 1])
  }

  /** The frames are records of the history, in strictly increasing order and all before `bound`. */
  ghost predicate Ascending<R>(frames: seq<Frame<R>>, history: seq<R>, bound: nat) {
    && bound <= |history|
    && (forall i :: 0 <= i < |frames| ==> frames[i].index < bound && frames[i].record == history[frames[i].index])
    && (forall i, j :: 0 <= i < j < |frames| ==> frames[i].index < frames[j].index)
  }

  /** The place in the history before which everything sent so far lies. */
  function Bound<R>(c: Client<R>): nat {
    match c.phase
    case Unopened => 0
    case Replaying(snapshot, at, sent) => if |snapshot| <= at + sent then at + sent - |snapshot| else 0
    case Live(id) =>
      if id in c.world.bus.queues && |c.world.bus.queues[id]| <= |c.world.history|
      then |c.world.history| - |c.world.bus.queues[id]| else 0
    case Over(_) => |c.world.history|
  }

  ghost predicate ReplayOk<R>(c: Client<R>) {
    c.phase.Replaying? ==>
      var p := c.phase;
      && p.sent <= |p.snapshot| <= p.at <= |c.world.history|
      && p.snapshot == c.world.history[p.at - |p.snapshot|..p.at]
  }

  ghost predicate Sound<R>(c: Client<R>) {
    && Inv(c.world)
    && ReplayOk(c)
    && (c.phase.Live? ==> c.phase.id in c.world.bus.queues)
    && Ascending(c.frames, c.world.history, Bound(c))
  }

  lemma {:induction false} AscendingStays<R>(frames: seq<Frame<R>>, history: seq<R>, bound: nat, more: seq<R>, beyond: nat)
    requires Ascending(frames, history, bound) && history <= more && bound <= beyond <= |more|
    ensures Ascending(frames, more, beyond)
  {
    assert forall i :: 0 <= i < |history| ==> more[i] == history[i];
  }

  lemma {:induction false} AscendingGrows<R>(frames: seq<Frame<R>>, history: seq<R>, bound: nat, index: nat)
    requires Ascending(frames, history, bound) && bound <= index < |history|
    ensures Ascending(frames + [Frame(index, history[index])], history, index + 1)
  {
  }

  /** What happens elsewhere on the bus moves a queue's head only forward. */
  lemma {:induction false} OtherMovesForward<R>(c: Client<R>, step: Step<R>)
    requires Sound(c) && Allowed(c, Other(step))
    ensures var d := Moved(c, Other(step));
            c.world.history <= d.world.history && Bound(c) <= Bound(d) <= |d.world.history|
            && (d.phase.Live? ==> d.phase.id in d.world.bus.queues) && ReplayOk(d)
  {
    StepInv(c.world, step);
    if c.phase.Live? {
      assert Registered(c.world, c.phase.id) && Registered(Next(c.world, step), c.phase.id);
    }
  }

  lemma {:induction false} DeliverIsSound<R>(c: Client<R>, disconnected: bool)
    requires Sound(c) && Allowed(c, Deliver(disconnected))
    ensures Sound(Moved(c, Deliver(disconnected)))
  {
    var id := c.phase.id;
    var w := Next(c.world, Receive(id));
    StepInv(c.world, Receive(id));
    StepInv(w, Unsubscribe(id));
    assert Registered(c.world, id);
    var receipt := w.taken[id][|w.taken[id]| - 1];
    assert receipt.record == c.world.history[receipt.index];
    AscendingStays(c.frames, c.world.history, Bound(c), w.history, |w.history|);
    AscendingGrows(c.frames, c.world.history, Bound(c), receipt.index);
  }

  lemma {:induction false} OwnMoveIsSound<R>(c: Client<R>, move: Move<R>)
    requires Sound(c) && Allowed(c, move) && (move.Open? || move.Replay? || move.Register?)
    ensures Sound(Moved(c, move))
  {
    if move.Replay? {
      AscendingGrows(c.frames, c.world.history, Bound(c), Bound(c));
    } else if move.Register? {
      StepInv(c.world, Subscribe);
      AscendingStays(c.frames, c.world.history, Bound(c), c.world.history, |c.world.history|);
    } else {
      AscendingStays(c.frames, c.world.history, Bound(c), c.world.history, Bound(Moved(c, move)));
    }
  }

  lemma {:induction false} MoveIsSound<R>(c: Client<R>, move: Move<R>)
    requires Sound(c) && Allowed(c, move)
    ensures Sound(Moved(c, move))
  {
    match move
    case Other(step) =>
      StepInv(c.world, step);
      OtherMovesForward(c, step);
      AscendingStays(c.frames, c.world.history, Bound(c), Moved(c, move).world.history, Bound(Moved(c, move)));
    case Deliver(disconnected) => DeliverIsSound(c, disconnected);
    case _ => OwnMoveIsSound(c, move);
  }

  /** The replay comes first and is whole: the last fifty records published when it was taken, or as
      many as the ring keeps. */
  ghost predicate ReplayFirst<R>(c: Client<R>) {
    && (c.phase.Unopened? ==> c.frames == [])
    && (!c.phase.Unopened? ==> c.replayed == Least(Least(REPLAYED, c.world.bus.capacity), c.at))
    && (c.phase.Replaying? ==> c.phase.at == c.at && |c.phase.snapshot| == c.replayed && |c.frames| == c.phase.sent)
    && (c.phase.Live? || c.phase.Over? ==> c.replayed <= |c.frames|)
    && forall i :: 0 <= i < |c.frames| && i < c.replayed ==> c.frames[i].index == c.at - c.replayed + i
  }

  function Least(a: nat, b: nat): nat {
    if a <= b then a else b
  }

  lemma {:induction false} MoveKeepsReplayFirst<R>(c: Client<R>, move: Move<R>)
    requires c.world.bus.buffer == Last(c.world.history, c.world.bus.capacity)
    requires ReplayFirst(c) && Allowed(c, move)
    ensures ReplayFirst(Moved(c, move))
  {
  }

  /** In every interleaving with the rest of the bus the frames of a client are records of the history in
      strictly increasing order: none is repeated, none comes late. */
  lemma {:induction false} StreamNeverRepeats<R(!new)>(w: World<R>, moves: seq<Move<R>>)
    requires Inv(w) && Reaches(NewClient(w), moves)
    ensures var c := Reached(NewClient(w), moves);
            Sound(c)
            && (forall i :: 0 <= i < |c.frames| ==>
                  c.frames[i].index < |c.world.history| && c.frames[i].record == c.world.history[c.frames[i].index])
            && (forall i, j :: 0 <= i < j < |c.frames| ==> c.frames[i].index < c.frames[j].index)
            && ReplayFirst(c)
  {
    if |moves| > 0 {
      StreamNeverRepeats(w, moves[..|moves| - 1]);
      MoveKeepsReplayFirst(Reached(NewClient(w), moves[..|moves| - 1]), moves[|moves| - 1]);
      MoveIsSound(Reached(NewClient(w), moves[..|moves| - 1]), moves[|moves| - 1]);
    }
  }

  /** What was sent after the replay is what the subscription delivered, record for record; the one in hand
      when the client turned out to have gone is not sent, and the subscription is given up. */
  ghost predicate LiveOk<R>(c: Client<R>) {
    match c.phase
    case Live(id) => id in c.world.taken && SentAfterReplay(c, c.world.taken[id])
    case Over(id) =>
      && id in c.world.taken && id < c.world.bus.next && id !in c.world.bus.queues
      && |c.world.taken[id]| > 0 && SentAfterReplay(c, c.world.taken[id][..|c.world.taken[id]| - 1])
    case _ => true
  }

  ghost predicate SentAfterReplay<R>(c: Client<R>, taken: seq<Receipt<R>>) {
    && |c.frames| == c.replayed + |taken|
    && forall i :: 0 <= i < |taken| ==> c.frames[c.replayed + i] == Frame(taken[i].index, taken[i].record)
  }

  lemma {:induction false} OtherKeepsLive<R>(c: Client<R>, step: Step<R>)
    requires LiveOk(c) && Allowed(c, Other(step)) && (c.phase.Live? ==> c.phase.id < c.world.bus.next)
    ensures LiveOk(Moved(c, Other(step)))
  {
    var v := Moved(c, Other(step));
    if c.phase.Live? || c.phase.Over? {
      assert v.world.taken[c.phase.id] == c.world.taken[c.phase.id];
    }
  }

  lemma {:induction false} DeliverKeepsLive<R>(c: Client<R>, disconnected: bool)
    requires LiveOk(c) && Allowed(c, Deliver(disconnected)) && c.phase.id < c.world.bus.next
    ensures LiveOk(Moved(c, Deliver(disconnected)))
  {
    var taken, more := c.world.taken[c.phase.id], Next(c.world, Receive(c.phase.id)).taken[c.phase.id];
    assert more[..|more| - 1] == taken;
  }

  lemma {:induction false} MoveKeepsLive<R>(c: Client<R>, move: Move<R>)
    requires Sound(c) && ReplayFirst(c) && LiveOk(c) && Allowed(c, move)
    ensures LiveOk(Moved(c, move))
  {
    if c.phase.Live? {
      assert Registered(c.world, c.phase.id);
    }
    if move.Other? {
      OtherKeepsLive(c, move.step);
    } else if move.Deliver? {
      DeliverKeepsLive(c, move.disconnected);
    }
  }

  /** In every interleaving a client is sent, after its replay, everything that its subscription delivers, and
      once it has gone its queue is gone. */
  lemma {:induction false} StreamSendsDelivered<R(!new)>(w: World<R>, moves: seq<Move<R>>)
    requires Inv(w) && Reaches(NewClient(w), moves)
    ensures LiveOk(Reached(NewClient(w), moves))
  {
    if |moves| > 0 {
      var before := moves[..|moves| - 1];
      StreamSendsDelivered(w, before);
      StreamNeverRepeats(w, before);
      MoveKeepsLive(Reached(NewClient(w), before), moves[|moves| - 1]);
    }
  }
}
