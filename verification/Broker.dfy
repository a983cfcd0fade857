/** One durable queue as `AmqpQueue` declares and consumes it (`utils/messaging.py`): the main
    queue, its TTL retry ladder, its dead-letter queue, and the consumers' channels. */
module Broker {
  import opened Wrappers

  // ---------- the retry ladder ----------

  const RETRY_LADDER_SECONDS: seq<nat> := [60, 300, 900, 1800, 3600]

  /** The rung `_retry_queue_for` picks from a ladder: the first that is long enough, else the last. */
  function RungFor(ladder: seq<nat>, requested: real): (rung: nat)
    requires ladder != []
    ensures rung in ladder
  {
    if requested <= ladder[0] as real || |ladder| == 1 then ladder[0]
    else RungFor(ladder[1..], requested)
  }

  /** `_retry_queue_for`: no delay at all counts as 0. */
  function RetryRung(delay: real): nat {
    RungFor(RETRY_LADDER_SECONDS, delay)
  }

  ghost predicate Ascending(ladder: seq<nat>) {
    forall i, j :: 0 <= i < j < |ladder| ==> ladder[i] < ladder[j]
  }

  /** The rung waits at least the requested delay, and it is the smallest that does; a delay no
      rung covers gets the longest one. */
  lemma {:induction false} RungIsTheSmallestLongEnough(ladder: seq<nat>, requested: real)
    requires ladder != [] && Ascending(ladder)
    ensures var rung := RungFor(ladder, requested);
      && (forall i :: 0 <= i < |ladder| && requested <= ladder[i] as real ==>
            requested <= rung as real && rung <= ladder[i])
      && (requested > ladder[|ladder| - 1] as real ==> rung == ladder[|ladder| - 1])
  {
    if requested > ladder[0] as real && |ladder| > 1 {
      var rest := ladder[1..];
      RungIsTheSmallestLongEnough(rest, requested);
      forall i | 0 <= i < |ladder| && requested <= ladder[i] as real
        ensures requested <= RungFor(ladder, requested) as real && RungFor(ladder, requested) <= ladder[i]
      {
        assert rest[i - 1] == ladder[i];
      }
    }
  }

  // ---------- what a handler asks for ----------

  datatype Outcome = Ack | Retry | RetryLater(delay: real) | DeadLetter

  datatype Queue = Main | Rung(seconds: nat) | Dlq

  /** A command on the consumer's channel; `Publish` carries the delivery's own payload. */
  datatype Command = Publish(to: Queue) | AckDelivery | NackRequeue

  /** `_acknowledge`: the commands sent for one outcome, in order. */
  function SettleCommands(outcome: Outcome): seq<Command> {
    match outcome
    case Ack => [AckDelivery]
    case Retry => [NackRequeue]
    case DeadLetter => [Publish(Dlq), AckDelivery]
    case RetryLater(delay) => [Publish(Rung(RetryRung(delay))), AckDelivery]
  }

  /** A deferred message is published to the shortest retry queue that waits long enough before the delivery
      is acked, and to the hour when none does. */
  lemma {:induction false} DeferralWaits(delay: real)
    ensures var seconds :=
        if delay <= 60.0 then 60 else if delay <= 300.0 then 300 else if delay <= 900.0 then 900
        else if delay <= 1800.0 then 1800 else 3600;
      && SettleCommands(RetryLater(delay)) == [Publish(Rung(seconds)), AckDelivery]
      && (delay <= 3600.0 ==> delay <= seconds as real)
  {
    var ladder := RETRY_LADDER_SECONDS;
    RungIsTheSmallestLongEnough(ladder, delay);
    assert ladder[0] == 60 && ladder[1] == 300 && ladder[2] == 900 && ladder[3] == 1800 && ladder[4] == 3600;
  }

  // ---------- the state ----------

  /** A copy of a published message: `origin` names the client publish it descends from. */
  datatype Copy<B> = Copy(id: nat, origin: nat, body: B)

  datatype Placed<B> = Placed(queue: Queue, copy: Copy<B>)

  /** A consumer with prefetch 1: idle, running the handler on its one unacked copy, or with
      commands sent that the broker has not processed yet. */
  datatype Channel<B> =
    | Idle
    | Handling(copy: Copy<B>)
    | Settling(copy: Copy<B>, commands: seq<Command>, acked: bool)

  /** `acked` of a settling channel: the handler returned ACK. `published` and `acknowledged` are
      histories: every origin a client published, and every origin acked after an ACK. */
  datatype State<B> = State(
    ready: map<nat, Placed<B>>,
    channels: map<nat, Channel<B>>,
    nextId: nat,
    published: set<nat>,
    acknowledged: set<nat>)

  datatype Event<B> =
    | ClientPublish(body: B)
    | Open(pod: nat)
    | Deliver(pod: nat, id: nat)
    | Settle(pod: nat, outcome: Outcome)
    | HandlerRaised(pod: nat)
    | Undecodable(pod: nat)
    | Process(pod: nat)
    | Expire(id: nat)
    | Crash(pod: nat)

  function Init<B>(): State<B> {
    State(map[], map[], 0, {}, {})
  }

  predicate Holds<B>(s: State<B>, pod: nat) {
    pod in s.channels && !s.channels[pod].Idle?
  }

  predicate Enabled<B>(s: State<B>, e: Event<B>) {
    match e
    case ClientPublish(_) => true
    case Open(pod) => pod !in s.channels
    case Deliver(pod, id) =>
      pod in s.channels && s.channels[pod].Idle? && id in s.ready && s.ready[id].queue == Main
    case Settle(pod, _) => pod in s.channels && s.channels[pod].Handling?
    case HandlerRaised(pod) => pod in s.channels && s.channels[pod].Handling?
    case Undecodable(pod) => pod in s.channels && s.channels[pod].Handling?
    case Process(pod) =>
      pod in s.channels && s.channels[pod].Settling? && s.channels[pod].commands != []
    case Expire(id) => id in s.ready && s.ready[id].queue.Rung?
    case Crash(pod) => Holds(s, pod)
  }

  function WithChannel<B>(s: State<B>, pod: nat, c: Channel<B>): State<B> {
    s.(channels := s.channels[pod := c])
  }

  /** The unacked copy goes back to the main queue; sent commands not yet processed are lost. */
  function Requeue<B>(s: State<B>, pod: nat): State<B>
    requires Holds(s, pod)
  {
    var copy := s.channels[pod].copy;
    WithChannel(s.(ready := s.ready[copy.id := Placed(Main, copy)]), pod, Idle)
  }

  /** The broker processes the next command of a channel. */
  function ProcessCommand<B>(s: State<B>, pod: nat): State<B>
    requires Enabled(s, Process(pod))
  {
    var Settling(copy, commands, acked) := s.channels[pod];
    match commands[0]
    case Publish(to) =>
      var again := Copy(s.nextId, copy.origin, copy.body);
      WithChannel(s.(ready := s.ready[s.nextId := Placed(to, again)], nextId := s.nextId + 1),
                  pod, Settling(copy, commands[1..], acked))
    case AckDelivery =>
      WithChannel(s.(acknowledged := s.acknowledged + (if acked then {copy.origin} else {})), pod, Idle)
    case NackRequeue => Requeue(s, pod)
  }

  function Next<B>(s: State<B>, e: Event<B>): State<B>
    requires Enabled(s, e)
  {
    match e
    case ClientPublish(body) =>
      s.(ready := s.ready[s.nextId := Placed(Main, Copy(s.nextId, s.nextId, body))],
         published := s.published + {s.nextId}, nextId := s.nextId + 1)
    case Open(pod) => WithChannel(s, pod, Idle)
    case Deliver(pod, id) =>
      WithChannel(s.(ready := s.ready - {id}), pod, Handling(s.ready[id].copy))
    case Settle(pod, outcome) =>
      WithChannel(s, pod, Settling(s.channels[pod].copy, SettleCommands(outcome), outcome == Ack))
    case HandlerRaised(pod) => WithChannel(s, pod, Settling(s.channels[pod].copy, [NackRequeue], false))
    case Undecodable(pod) =>
      WithChannel(s, pod, Settling(s.channels[pod].copy, [Publish(Dlq), AckDelivery], false))
    case Process(pod) => ProcessCommand(s, pod)
    case Expire(id) => s.(ready := s.ready[id := s.ready[id].(queue := Main)])
    case Crash(pod) => Requeue(s, pod)
  }

  /** The state after a run, when every event of it was enabled. */
  ghost predicate IsRun<B>(s: State<B>, events: seq<Event<B>>, t: State<B>)
    decreases |events|
  {
    if events == [] then t == s
    else Enabled(s, events[0]) && IsRun(Next(s, events[0]), events[1..], t)
  }

  // ---------- no message is lost ----------

  /** Copy `c` waits in a queue. */
  ghost predicate Queued<B>(s: State<B>, c: Copy<B>) {
    c.id in s.ready && s.ready[c.id].copy == c
  }

  /** Copy `c` is unacked on channel `pod`. */
  ghost predicate Unacked<B>(s: State<B>, pod: nat, c: Copy<B>) {
    Holds(s, pod) && s.channels[pod].copy == c
  }

  ghost predicate Present<B>(s: State<B>, c: Copy<B>) {
    Queued(s, c) || exists pod :: Unacked(s, pod, c)
  }

  /** Copies carry the id they are filed under, no id is in two places, ids come from the counter. */
  ghost predicate Distinct<B>(s: State<B>) {
    && (forall id :: id in s.ready ==> s.ready[id].copy.id == id && id < s.nextId)
    && (forall pod :: Holds(s, pod) ==>
          s.channels[pod].copy.id !in s.ready && s.channels[pod].copy.id < s.nextId)
    && (forall p, q :: Holds(s, p) && Holds(s, q) && p != q ==>
          s.channels[p].copy.id != s.channels[q].copy.id)
  }

  /** The origin was acknowledged, or a copy of it newer than `than` is still around. */
  ghost predicate Continued<B(!new)>(s: State<B>, origin: nat, than: int) {
    || origin in s.acknowledged
    || exists c: Copy<B> :: Present(s, c) && c.origin == origin && c.id > than
  }

  ghost predicate AcksNext<B>(s: State<B>, pod: nat) {
    && pod in s.channels && s.channels[pod].Settling?
    && s.channels[pod].commands != [] && s.channels[pod].commands[0].AckDelivery?
  }

  /** A channel whose next command is its ack returned ACK or has handed its message on to a newer
      copy. "Newer" is what makes this survive two channels acking copies of one message. */
  ghost predicate HandedOn<B(!new)>(s: State<B>) {
    forall pod :: AcksNext(s, pod) ==>
      s.channels[pod].acked || Continued(s, s.channels[pod].copy.origin, s.channels[pod].copy.id)
  }

  ghost predicate Inv<B(!new)>(s: State<B>) {
    && Distinct(s)
    && HandedOn(s)
    && (forall origin :: origin in s.published ==> Continued(s, origin, -1))
  }

  lemma {:induction false} DistinctIsKept<B(!new)>(s: State<B>, e: Event<B>)
    requires Distinct(s) && Enabled(s, e)
    ensures Distinct(Next(s, e))
  {
    if e.Deliver? {
      DeliveryKeepsDistinct(s, e.pod, e.id);
    } else if e.Process? {
      CommandKeepsDistinct(s, e.pod);
    } else if e.Crash? {
      RequeueKeepsDistinct(s, e.pod);
    } else if e.ClientPublish? || e.Expire? {
      assert Next(s, e).channels == s.channels;
    } else {
      assert Next(s, e).ready == s.ready && Next(s, e).nextId == s.nextId;
    }
  }

  lemma {:induction false} DeliveryKeepsDistinct<B(!new)>(s: State<B>, pod: nat, id: nat)
    requires Distinct(s) && Enabled(s, Deliver(pod, id))
    ensures Distinct(Next(s, Deliver(pod, id)))
  {
    assert s.ready[id].copy.id == id;
  }

  lemma {:induction false} RequeueKeepsDistinct<B(!new)>(s: State<B>, pod: nat)
    requires Distinct(s) && Holds(s, pod)
    ensures Distinct(Requeue(s, pod))
  {
  }

  lemma {:induction false} CommandKeepsDistinct<B(!new)>(s: State<B>, pod: nat)
    requires Distinct(s) && Enabled(s, Process(pod))
    ensures Distinct(ProcessCommand(s, pod))
  {
    if s.channels[pod].commands[0].NackRequeue? {
      RequeueKeepsDistinct(s, pod);
    }
  }

  /** The step acks the copy for good. */
  ghost predicate AcksCopy<B>(s: State<B>, e: Event<B>, c: Copy<B>) {
    && e.Process? && Enabled(s, e)
    && s.channels[e.pod].commands[0].AckDelivery? && s.channels[e.pod].copy == c
  }

  /** Nothing but its own ack makes a copy disappear: not a delivery, not a TTL, not a crash. */
  lemma {:induction false} OnlyAnAckRemoves<B(!new)>(s: State<B>, e: Event<B>, c: Copy<B>)
    requires Distinct(s) && Enabled(s, e) && Present(s, c) && !AcksCopy(s, e, c)
    ensures Present(Next(s, e), c)
  {
    if Queued(s, c) {
      QueuedStays(s, e, c);
    } else {
      var pod :| Unacked(s, pod, c);
      UnackedStays(s, e, pod, c);
    }
  }

  lemma {:induction false} QueuedStays<B(!new)>(s: State<B>, e: Event<B>, c: Copy<B>)
    requires Distinct(s) && Enabled(s, e) && Queued(s, c)
    ensures Present(Next(s, e), c)
  {
    if e.Deliver? && e.id == c.id {
      assert Unacked(Next(s, e), e.pod, c);
    } else {
      assert Queued(Next(s, e), c);
    }
  }

  lemma {:induction false} UnackedStays<B(!new)>(s: State<B>, e: Event<B>, pod: nat, c: Copy<B>)
    requires Distinct(s) && Enabled(s, e) && Unacked(s, pod, c) && !AcksCopy(s, e, c)
    ensures Present(Next(s, e), c)
  {
    if !Unacked(Next(s, e), pod, c) {
      assert Queued(Next(s, e), c);
    }
  }

  lemma {:induction false} ContinuationIsKept<B(!new)>(s: State<B>, e: Event<B>, origin: nat, than: int)
    requires Inv(s) && Enabled(s, e) && Continued(s, origin, than)
    ensures Continued(Next(s, e), origin, than)
  {
    if origin !in s.acknowledged {
      var c: Copy<B> :| Present(s, c) && c.origin == origin && c.id > than;
      if !AcksCopy(s, e, c) {
        OnlyAnAckRemoves(s, e, c);
      } else if !s.channels[e.pod].acked {
        var newer: Copy<B> :| Present(s, newer) && newer.origin == origin && newer.id > c.id;
        OnlyAnAckRemoves(s, e, newer);
      }
    }
  }

  lemma {:induction false} InvIsKept<B(!new)>(s: State<B>, e: Event<B>)
    requires Inv(s) && Enabled(s, e)
    ensures Inv(Next(s, e))
  {
    var t := Next(s, e);
    DistinctIsKept(s, e);
    forall origin | origin in t.published ensures Continued(t, origin, -1) {
      if origin in s.published {
        ContinuationIsKept(s, e, origin, -1);
      } else {
        var c := t.ready[s.nextId].copy;
        assert Queued(t, c);
      }
    }
    forall pod | AcksNext(t, pod)
      ensures t.channels[pod].acked || Continued(t, t.channels[pod].copy.origin, t.channels[pod].copy.id)
    {
      if pod in s.channels && t.channels[pod] == s.channels[pod] {
        if !t.channels[pod].acked {
          ContinuationIsKept(s, e, t.channels[pod].copy.origin, t.channels[pod].copy.id);
        }
      } else if e.Process? {
        var again := t.ready[s.nextId].copy;
        assert Queued(t, again);
      }
    }
  }

  lemma {:induction false} InvOverRuns<B(!new)>(s: State<B>, events: seq<Event<B>>, t: State<B>)
    requires Inv(s) && IsRun(s, events, t)
    ensures Inv(t)
    decreases |events|
  {
    if events != [] {
      InvIsKept(s, events[0]);
      InvOverRuns(Next(s, events[0]), events[1..], t);
    }
  }

  /** The broker never loses a message: after any run, with any number of consumers, outcomes, TTL
      expiries and crashes at any point, every published message is in the main queue, unacked, in
      a retry queue or in the dead-letter queue, or was acked after the handler returned ACK. */
  lemma {:induction false} NoMessageIsLost<B(!new)>(events: seq<Event<B>>, t: State<B>, origin: nat)
    requires IsRun(Init(), events, t) && origin in t.published
    ensures origin in t.acknowledged || exists c: Copy<B> :: Present(t, c) && c.origin == origin
  {
    InvOverRuns(Init(), events, t);
    assert Continued(t, origin, -1);
  }

  /** What a crash does to the broker: the pod's copy is ready in the main queue again, whatever
      was already published stays, so a crash between publish and ack can only duplicate. */
  lemma {:induction false} CrashOnlyDuplicates<B(!new)>(s: State<B>, pod: nat, c: Copy<B>)
    requires Distinct(s) && Holds(s, pod) && Present(s, c)
    ensures var t := Next(s, Crash(pod));
      && Present(t, c) && t.acknowledged == s.acknowledged
      && Queued(t, s.channels[pod].copy) && t.ready[s.channels[pod].copy.id].queue == Main
  {
    OnlyAnAckRemoves(s, Crash(pod), c);
  }

  /** A dead letter stays where the operator can see it. */
  lemma {:induction false} DeadLettersStay<B(!new)>(s: State<B>, e: Event<B>, id: nat)
    requires Distinct(s) && Enabled(s, e) && id in s.ready && s.ready[id].queue == Dlq
    ensures id in Next(s, e).ready && Next(s, e).ready[id] == s.ready[id]
  {
  }

  // ---------- where a settled message goes ----------

  /** The pod is idle again, with its copy gone from its hands, nothing else changed but the queues. */
  ghost predicate Released<B>(s: State<B>, t: State<B>, pod: nat) {
    pod in t.channels && t.channels == s.channels[pod := Idle] && t.published == s.published
  }

  /** ACK takes the copy away for good; RETRY puts it back into the main queue. */
  lemma {:induction false} SettledAtOnce<B>(s: State<B>, pod: nat)
    requires pod in s.channels && s.channels[pod].Handling?
    ensures var copy := s.channels[pod].copy;
      && (var t := Next(Next(s, Settle(pod, Ack)), Process(pod));
          Released(s, t, pod) && t.ready == s.ready && t.acknowledged == s.acknowledged + {copy.origin})
      && (var t := Next(Next(s, Settle(pod, Retry)), Process(pod));
          && Released(s, t, pod) && t.ready == s.ready[copy.id := Placed(Main, copy)]
          && t.acknowledged == s.acknowledged)
  {
  }

  /** A deferral goes to its retry queue and a dead letter to the dead-letter queue, as new copies, before the
      old one is acked; nothing is acknowledged for that. */
  lemma {:induction false} HandedOnThenAcked<B>(s: State<B>, pod: nat, e: Event<B>, to: Queue)
    requires pod in s.channels && s.channels[pod].Handling?
    requires || (e == Settle(pod, DeadLetter) && to == Dlq) || (e == Undecodable(pod) && to == Dlq)
             || (e.Settle? && e.pod == pod && e.outcome.RetryLater? && to == Rung(RetryRung(e.outcome.delay)))
    ensures var copy := s.channels[pod].copy;
      var t := Next(Next(Next(s, e), Process(pod)), Process(pod));
      && Released(s, t, pod) && t.acknowledged == s.acknowledged
      && t.ready == s.ready[s.nextId := Placed(to, Copy(s.nextId, copy.origin, copy.body))]
  {
  }

  // ---------- what counts as acknowledged ----------

  /** Some handler of the run returned ACK for a copy of the message. */
  ghost predicate AckedInRun<B>(s: State<B>, events: seq<Event<B>>, origin: nat)
    decreases |events|
  {
    && events != [] && Enabled(s, events[0])
    && ((events[0].Settle? && events[0].outcome == Ack && s.channels[events[0].pod].copy.origin == origin)
        || AckedInRun(Next(s, events[0]), events[1..], origin))
  }

  ghost predicate AckOnItsWay<B>(s: State<B>, origin: nat) {
    exists pod :: pod in s.channels && s.channels[pod].Settling? && s.channels[pod].acked
                  && s.channels[pod].copy.origin == origin
  }

  lemma {:induction false} AcknowledgedComesFrom<B>(s: State<B>, events: seq<Event<B>>, t: State<B>, origin: nat)
    requires IsRun(s, events, t) && origin in t.acknowledged
    ensures origin in s.acknowledged || AckOnItsWay(s, origin) || AckedInRun(s, events, origin)
    decreases |events|
  {
    if events != [] {
      AcknowledgedComesFrom(Next(s, events[0]), events[1..], t, origin);
    }
  }

  /** Only what a handler returned ACK for counts as acknowledged. */
  lemma {:induction false} AcknowledgedWasAcked<B>(events: seq<Event<B>>, t: State<B>, origin: nat)
    requires IsRun(Init(), events, t) && origin in t.acknowledged
    ensures AckedInRun(Init<B>(), events, origin)
  {
    AcknowledgedComesFrom(Init<B>(), events, t, origin);
  }

  // ---------- the consumer's side of one delivery ----------

  datatype Limit = NoLimit | Messages(max: nat)

  /** The consumer object: the commands it has sent on its channel, and its own counters. */
  class Consumer {
    var sent: seq<Command>
    var received: nat
    var stopped: bool
    const limit: Limit

    constructor (limit: Limit)
      ensures sent == [] && received == 0 && !stopped && this.limit == limit
    {
      this.sent, this.received, this.stopped, this.limit := [], 0, false, limit;
    }

    method Publish(to: Queue)
      modifies this`sent
      ensures sent == old(sent) + [Command.Publish(to)]
    {
      sent := sent + [Command.Publish(to)];
    }

    /** `_acknowledge`: the commands of the outcome in their order, then the message count. */
    method Acknowledge(outcome: Outcome)
      modifies this
      ensures sent == old(sent) + SettleCommands(outcome)
      ensures received == old(received) + 1
      ensures stopped <==> old(stopped) || (limit.Messages? && received >= limit.max)
    {
      match outcome {
        case Ack => sent := sent + [AckDelivery];
        case Retry => sent := sent + [NackRequeue];
        case DeadLetter =>
          Publish(Dlq);
          sent := sent + [AckDelivery];
        case RetryLater(delay) =>
          Publish(Rung(RetryRung(delay)));
          sent := sent + [AckDelivery];
      }
      received := received + 1;
      if limit.Messages? && received >= limit.max {
        stopped := true;
      }
    }

    /** `_callback` around the handler: `result` is None when the handler raised. */
    method Callback(decodable: bool, result: Option<Outcome>)
      modifies this
      ensures !decodable ==> sent == old(sent) + [Command.Publish(Dlq), AckDelivery]
      ensures decodable && result.None? ==> sent == old(sent) + [NackRequeue]
      ensures decodable && result.Some? ==> sent == old(sent) + SettleCommands(result.value)
      ensures received == old(received) + (if decodable && result.Some? then 1 else 0)
    {
      if !decodable {
        Publish(Dlq);
        sent := sent + [AckDelivery];
        return;
      }
      if result.None? {
        sent := sent + [NackRequeue];
        return;
      }
      Acknowledge(result.value);
    }
  }

}
