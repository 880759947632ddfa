/** The in-process event bus: a bounded ring for replay and one bounded queue for each subscriber. */
module EventsBus {
  import opened Types

  const QUEUE_SIZE := 100
  const REPLAYED := 50

  /** The last `n` elements, or all of them. */
  function Last<R>(s: seq<R>, n: nat): seq<R> {
    if |s| <= n then s else s[|s| - n..]
  }

  /** A full queue drops its oldest record to take a new one. */
  function Pushed<R>(queue: seq<R>, record: R): seq<R> {
    (if |queue| == QUEUE_SIZE then queue[1..] else queue) + [record]
  }

  /** The ring and the queues, named in the order of registration. */
  datatype Bus<R> = Bus(capacity: nat, buffer: seq<R>, queues: map<nat, seq<R>>, next: nat)

  function Published<R>(bus: Bus<R>, record: R): Bus<R> {
    bus.(buffer := Last(bus.buffer + [record], bus.capacity),
         queues := map id | id in bus.queues :: Pushed(bus.queues[id], record))
  }

  function Subscribed<R>(bus: Bus<R>): Bus<R> {
    bus.(queues := bus.queues[bus.next := []], next := bus.next + 1)
  }

  function Received<R>(bus: Bus<R>, id: nat): Bus<R>
    requires id in bus.queues && bus.queues[id] != []
  {
    bus.(queues := bus.queues[id := bus.queues[id][1..]])
  }

  function Unsubscribed<R>(bus: Bus<R>, id: nat): Bus<R> {
    bus.(queues := bus.queues - {id})
  }

  function RecentOf<R>(bus: Bus<R>, limit: int): seq<R> {
    if limit <= 0 then [] else Last(bus.buffer, limit)
  }

  class EventsBus<R> {
    const capacity: nat
    var buffer: seq<R>
    var subscribers: map<nat, seq<R>>
    var next: nat

    function View(): Bus<R>
      reads this
    {
      Bus(capacity, buffer, subscribers, next)
    }

    predicate Valid()
      reads this
    {
      |buffer| <= capacity && forall id :: id in subscribers ==> |subscribers[id]| <= QUEUE_SIZE
    }

    constructor (capacity: nat)
      ensures Valid() && View() == Bus(capacity, [], map[], 0)
    {
      this.capacity, buffer, subscribers, next := capacity, [], map[], 0;
    }

    method Publish(record: R)
      requires Valid()
      modifies this
      ensures Valid() && View() == Published(old(View()), record)
    {
      buffer := buffer + [record];
      if |buffer| > capacity {
        buffer := buffer[1..];
      }
      FanOut(record);
    }

    method FanOut(record: R)
      requires forall id :: id in subscribers ==> |subscribers[id]| <= QUEUE_SIZE
      modifies `subscribers
      ensures subscribers.Keys == old(subscribers).Keys
      ensures forall id :: id in subscribers ==>
                |subscribers[id]| <= QUEUE_SIZE && subscribers[id] == Pushed(old(subscribers)[id], record)
    {
      ghost var before := subscribers;
      var todo := subscribers.Keys;
      while todo != {}
        invariant subscribers.Keys == before.Keys && todo <= before.Keys
        invariant forall id :: id in todo ==> subscribers[id] == before[id]
        invariant forall id :: id in before && id !in todo ==> subscribers[id] == Pushed(before[id], record)
        decreases |todo|
      {
        var id := Pick(todo);
        var queue := subscribers[id];
        if |queue| == QUEUE_SIZE {
          queue := queue[1..];
        }
        queue := queue + [record];
        subscribers := subscribers[id := queue];
        todo := todo - {id};
      }
    }

    method Recent(limit: int) returns (records: seq<R>)
      ensures records == RecentOf(View(), limit)
    {
      if limit <= 0 {
        return [];
      }
      records := if limit < |buffer| then buffer[|buffer| - limit..] else buffer;
    }

    method Subscribe() returns (id: nat)
      requires Valid()
      modifies this
      ensures Valid() && id == old(next) && View() == Subscribed(old(View()))
    {
      id := next;
      subscribers, next := subscribers[id := []], next + 1;
    }

    method Receive(id: nat) returns (record: R)
      requires Valid() && id in subscribers && subscribers[id] != []
      modifies this
      ensures Valid() && View() == Received(old(View()), id) && record == old(subscribers[id][0])
    {
      record := subscribers[id][0];
      subscribers := subscribers[id := subscribers[id][1..]];
    }

    method Unsubscribe(id: nat)
      requires Valid()
      modifies this
      ensures Valid() && View() == Unsubscribed(old(View()), id)
    {
      subscribers := subscribers - {id};
    }
  }

  // ---- the bus and its unbounded history --------------------------------------------------

  /** A record that a subscriber took: its place in the history, and how many had been published. */
  datatype Receipt<R> = Receipt(index: nat, record: R, count: nat)

  /** The bus beside all that it published and, for each subscriber, how much had been published at its
      registration and what it has taken since. */
  datatype World<R> = World(bus: Bus<R>, history: seq<R>, since: map<nat, nat>, taken: map<nat, seq<Receipt<R>>>)

  datatype Step<R> = Publish(record: R) | Subscribe | Receive(id: nat) | Unsubscribe(id: nat)

  function Fresh<R>(capacity: nat): World<R> {
    World(Bus(capacity, [], map[], 0), [], map[], map[])
  }

  predicate Possible<R>(w: World<R>, step: Step<R>) {
    step.Receive? ==>
      step.id in w.bus.queues && 0 < |w.bus.queues[step.id]| <= |w.history| && step.id in w.taken
  }

  function Next<R>(w: World<R>, step: Step<R>): World<R>
    requires Possible(w, step)
  {
    match step
    case Publish(record) => w.(bus := Published(w.bus, record), history := w.history + [record])
    case Subscribe =>
      World(Subscribed(w.bus), w.history, w.since[w.bus.next := |w.history|], w.taken[w.bus.next := []])
    case Receive(id) =>
      var receipt := Receipt(|w.history| - |w.bus.queues[id]|, w.bus.queues[id][0], |w.history|);
      w.(bus := Received(w.bus, id), taken := w.taken[id := w.taken[id] + [receipt]])
    case Unsubscribe(id) => w.(bus := Unsubscribed(w.bus, id))
  }

  /** A queue is the end of the history, since the registration and at most its size. */
  ghost predicate QueueOk<R>(queue: seq<R>, history: seq<R>, since: nat) {
    && |queue| <= QUEUE_SIZE
    && since + |queue| <= |history|
    && queue == history[|history| - |queue|..]
  }

  /** What was taken are records of the history, in strictly increasing order since the registration, each
      before a hundred more were published. */
  ghost predicate TakenOk<R>(taken: seq<Receipt<R>>, history: seq<R>, since: nat, head: nat) {
    && (forall i :: 0 <= i < |taken| ==>
          && since <= taken[i].index < head <= |history|
          && taken[i].record == history[taken[i].index]
          && taken[i].index < taken[i].count <= taken[i].index + QUEUE_SIZE)
    && (forall i, j :: 0 <= i < j < |taken| ==> taken[i].index < taken[j].index)
  }

  ghost predicate Took<R>(taken: seq<Receipt<R>>, k: nat) {
    exists i :: 0 <= i < |taken| && taken[i].index == k
  }

  /** A record since the registration that is no longer queued was taken, or the one a hundred later
      has been published. */
  ghost predicate LossOk<R>(taken: seq<Receipt<R>>, count: nat, since: nat, head: nat) {
    forall k: nat :: since <= k < head ==> Took(taken, k) || k + QUEUE_SIZE < count
  }

  ghost predicate ReaderOk<R>(w: World<R>, id: nat)
    requires id in w.bus.queues && id in w.since && id in w.taken
  {
    var queue := w.bus.queues[id];
    && QueueOk(queue, w.history, w.since[id])
    && TakenOk(w.taken[id], w.history, w.since[id], |w.history| - |queue|)
    && LossOk(w.taken[id], |w.history|, w.since[id], |w.history| - |queue|)
  }

  ghost predicate Inv<R>(w: World<R>) {
    && w.bus.buffer == Last(w.history, w.bus.capacity)
    && (forall id :: Registered(w, id))
  }

  lemma {:induction false} PublishKeepsReader<R>(queue: seq<R>, history: seq<R>, since: nat, taken: seq<Receipt<R>>, record: R)
    requires QueueOk(queue, history, since)
    requires TakenOk(taken, history, since, |history| - |queue|) && LossOk(taken, |history|, since, |history| - |queue|)
    ensures var q, h := Pushed(queue, record), history + [record];
            QueueOk(q, h, since) && TakenOk(taken, h, since, |h| - |q|) && LossOk(taken, |h|, since, |h| - |q|)
  {
  }

  lemma {:induction false} ReceiveKeepsReader<R>(queue: seq<R>, history: seq<R>, since: nat, taken: seq<Receipt<R>>)
    requires QueueOk(queue, history, since) && queue != []
    requires TakenOk(taken, history, since, |history| - |queue|) && LossOk(taken, |history|, since, |history| - |queue|)
    ensures var head := |history| - |queue|;
            var more := taken + [Receipt(head, queue[0], |history|)];
            QueueOk(queue[1..], history, since) && TakenOk(more, history, since, head + 1) && LossOk(more, |history|, since, head + 1)
  {
    var head := |history| - |queue|;
    var more := taken + [Receipt(head, queue[0], |history|)];
    assert queue[0] == history[head];
    forall k: nat | since <= k < head + 1 ensures Took(more, k) || k + QUEUE_SIZE < |history| {
      if k == head {
        assert more[|taken|].index == k;
      } else if Took(taken, k) {
        var i :| 0 <= i < |taken| && taken[i].index == k;
        assert more[i].index == k;
      }
    }
  }

  ghost predicate Registered<R>(w: World<R>, id: nat) {
    id in w.bus.queues ==> id < w.bus.next && id in w.since && id in w.taken && ReaderOk(w, id)
  }

  lemma {:induction false} PublishStep<R>(w: World<R>, record: R, id: nat)
    requires Registered(w, id)
    ensures Registered(Next(w, Publish(record)), id)
  {
    if id in w.bus.queues {
      PublishKeepsReader(w.bus.queues[id], w.history, w.since[id], w.taken[id], record);
    }
  }

  lemma {:induction false} ReceiveStep<R>(w: World<R>, step: Step<R>, id: nat)
    requires Registered(w, id) && step.Receive? && Possible(w, step)
    ensures Registered(Next(w, step), id)
  {
    if id == step.id {
      ReceiveKeepsReader(w.bus.queues[id], w.history, w.since[id], w.taken[id]);
    }
  }

  lemma {:induction false} SubscriptionStep<R>(w: World<R>, step: Step<R>, id: nat)
    requires Registered(w, id) && (step.Subscribe? || step.Unsubscribe?)
    ensures Registered(Next(w, step), id)
  {
  }

  lemma {:induction false} StepInv<R>(w: World<R>, step: Step<R>)
    requires Inv(w) && Possible(w, step)
    ensures Inv(Next(w, step))
  {
    RingStep(w, step);
    forall id ensures Registered(Next(w, step), id) {
      assert Registered(w, id);
      match step
      case Publish(record) => PublishStep(w, record, id);
      case Receive(_) => ReceiveStep(w, step, id);
      case _ => SubscriptionStep(w, step, id);
    }
  }

  lemma {:induction false} RingStep<R>(w: World<R>, step: Step<R>)
    requires w.bus.buffer == Last(w.history, w.bus.capacity) && Possible(w, step)
    ensures Next(w, step).bus.buffer == Last(Next(w, step).history, Next(w, step).bus.capacity)
  {
  }

  ghost predicate Run<R(!new)>(w: World<R>, steps: seq<Step<R>>)
    decreases |steps|, 0
  {
    |steps| > 0 ==> Run(w, steps[..|steps| - 1]) && Possible(After(w, steps[..|steps| - 1]), steps[|steps| - 1])
  }

  ghost function After<R(!new)>(w: World<R>, steps: seq<Step<R>>): World<R>
    requires Run(w, steps)
    decreases |steps|, 1
  {
    if |steps| == 0 then w else Next(After(w, steps[..|steps| - 1]), steps[|steps| - 1])
  }

  /** After any interleaving of publishing, receiving, subscribing and unsubscribing, the ring is the
      last records published; every queue is an unbroken end of the history since the registration, at
      most a hundred long; deliveries come in order without repetition; and a record passes a subscriber
      by only if the record a hundred later was published before it was taken. */
  lemma {:induction false} QueueIsHistorySuffix<R(!new)>(capacity: nat, steps: seq<Step<R>>)
    requires Run(Fresh(capacity), steps)
    ensures Inv(After(Fresh(capacity), steps))
  {
    if |steps| > 0 {
      QueueIsHistorySuffix(capacity, steps[..|steps| - 1]);
      StepInv(After(Fresh(capacity), steps[..|steps| - 1]), steps[|steps| - 1]);
    }
  }

  /** The subscribers of a run, told from the steps alone, and how many there were in all. */
  function Members<R>(steps: seq<Step<R>>): (set<nat>, nat) {
    if |steps| == 0 then ({}, 0)
    else
      var (ids, next) := Members(steps[..|steps| - 1]);
      match steps[|steps| - 1]
      case Subscribe => (ids + {next}, next + 1)
      case Unsubscribe(id) => (ids - {id}, next)
      case _ => (ids, next)
  }

  /** There is a queue for each subscriber that has come and not gone, and for nobody else. */
  lemma {:induction false} QueuesAreMembers<R(!new)>(capacity: nat, steps: seq<Step<R>>)
    requires Run(Fresh(capacity), steps)
    ensures var bus := After(Fresh(capacity), steps).bus;
            bus.queues.Keys == Members(steps).0 && bus.next == Members(steps).1 && bus.capacity == capacity
  {
    if |steps| > 0 {
      QueuesAreMembers(capacity, steps[..|steps| - 1]);
    }
  }

  /** What is read from the ring: the latest records of the history, as many as there are, as the ring keeps
      and as were asked for, in order. */
  lemma {:induction false} RecentIsHistory<R(!new)>(capacity: nat, steps: seq<Step<R>>, limit: int)
    requires Run(Fresh(capacity), steps)
    ensures var w := After(Fresh(capacity), steps);
            var records := RecentOf(w.bus, limit);
            && |records| <= |w.history| && records == w.history[|w.history| - |records|..]
            && (limit <= 0 ==> records == [])
            && (limit > 0 ==> |records| <= limit && |records| <= capacity
                              && (|records| == limit || |records| == capacity || |records| == |w.history|))
  {
    QueueIsHistorySuffix(capacity, steps);
    QueuesAreMembers(capacity, steps);
  }
}
