/** The queue state machine: what one request does to the whole replicated state.

    Every request is a short script of operations on single topics (`Script`); `Apply` is the request
    itself. `ScriptIsApply` joins the two, so a fact about every operation is a fact about every run. */
module Queue {
  import opened Collections
  import opened Model
  import opened Topics

  // ---------------------------------------------------------------- admission

  predicate NameOk(name: Name) { |name| <= MAX_NAME_BYTES }

  predicate ConsumerOk(topic: Name, group: Name) { NameOk(topic) && NameOk(group) }

  predicate ItemOk(item: ProduceItem) { NameOk(item.topic) && |item.producerId| <= MAX_PRODUCER_ID_BYTES }

  /** Whether a request naming this topic can proceed. */
  predicate TopicAdmits(q: QueueState, topic: Name) {
    topic in q.topics || |q.topics| < MAX_TOPICS
  }

  function NewTopics(q: QueueState, items: seq<ProduceItem>): set<Name> {
    set i | 0 <= i < |items| && items[i].topic !in q.topics :: items[i].topic
  }

  /** The check a produce runs over its whole batch before applying any of it. */
  predicate ProduceAllowed(q: QueueState, items: seq<ProduceItem>) {
    (forall item | item in items :: ItemOk(item)) && |q.topics| + |NewTopics(q, items)| <= MAX_TOPICS
  }

  // ---------------------------------------------------------------- operations on one topic

  datatype Op =
    | StoreItem(item: ProduceItem)
    | Lend(group: Name, max: u32, visibilityMs: u64, tsMs: u64)
    | Settle(group: Name, leaseId: nat)
    | Release(group: Name, leaseId: nat)
    | Advance(group: Name, offset: nat, nowMs: Option<nat>)
    | DropDone
    | Ensure
    | Remove
    | LimitRate(rateMilliPerSec: nat, burst: nat)
    | LimitRetention(maxMessages: nat, maxAgeMs: nat)

  datatype Call = Call(topic: Name, op: Op)

  function TopicOr(q: QueueState, topic: Name): TopicState {
    if topic in q.topics then q.topics[topic] else EMPTY_TOPIC
  }

  /** The lease is in flight in the group. */
  predicate Leases(q: QueueState, topic: Name, group: Name, lease: nat) {
    topic in q.topics && group in q.topics[topic].groups && lease in q.topics[topic].groups[group].inFlight
  }

  /** Operations that create their topic when it is missing; the others then do nothing. */
  predicate Creates(op: Op) {
    op.StoreItem? || op.Ensure? || op.LimitRate? || op.LimitRetention?
  }

  /** One operation on its topic, with the lease counter it draws from. */
  function TopicStep(t: TopicState, op: Op, nextLease: nat): (TopicState, nat)
    requires !op.Remove?
  {
    match op
    case StoreItem(item) => (ProduceTo(t, item).0, nextLease)
    case Lend(group, max, visibilityMs, tsMs) =>
      var r := PollTopic(t, group, max, visibilityMs, tsMs, nextLease);
      (r.topic, r.nextLease)
    case Settle(group, leaseId) => (AckTopic(t, group, leaseId), nextLease)
    case Release(group, leaseId) => (NackTopic(t, group, leaseId), nextLease)
    case Advance(group, offset, nowMs) => (CommitTopic(t, group, offset, nowMs), nextLease)
    case DropDone => (Reclaim(t), nextLease)
    case Ensure => (t, nextLease)
    case LimitRate(rate, burst) => (t.(rateMilliPerSec := rate, burst := burst), nextLease)
    case LimitRetention(count, age) => (t.(retainMaxMessages := count, retainMaxAgeMs := age), nextLease)
  }

  function Step(q: QueueState, call: Call): QueueState {
    if call.op.Remove? then q.(topics := q.topics - {call.topic})
    else if call.topic !in q.topics && !Creates(call.op) then q
    else
      var r := TopicStep(TopicOr(q, call.topic), call.op, q.nextLeaseId);
      QueueState(q.topics[call.topic := r.0], r.1)
  }

  function Steps(q: QueueState, calls: seq<Call>): QueueState
    decreases |calls|
  {
    if calls == [] then q else Steps(Step(q, calls[0]), calls[1..])
  }

  lemma {:induction false} StepsAppend(q: QueueState, a: seq<Call>, b: seq<Call>)
    ensures Steps(q, a + b) == Steps(Steps(q, a), b)
    decreases |a|
  {
    if a == [] {
      assert a + b == b;
    } else {
      assert (a + b)[1..] == a[1..] + b;
      StepsAppend(Step(q, a[0]), a[1..], b);
    }
  }

  // ---------------------------------------------------------------- requests

  function ProduceAll(q: QueueState, items: seq<ProduceItem>): (QueueState, seq<nat>)
    decreases |items|
  {
    if items == [] then (q, []) else
      var offset := ProduceTo(TopicOr(q, items[0].topic), items[0]).1;
      var rest := ProduceAll(Step(q, Call(items[0].topic, StoreItem(items[0]))), items[1..]);
      (rest.0, [offset] + rest.1)
  }

  function AckAll(q: QueueState, topic: Name, group: Name, leaseIds: seq<nat>): QueueState
    decreases |leaseIds|
  {
    if leaseIds == [] then q
    else AckAll(Step(q, Call(topic, Settle(group, leaseIds[0]))), topic, group, leaseIds[1..])
  }

  function NackAll(q: QueueState, topic: Name, group: Name, leaseIds: seq<nat>): QueueState
    decreases |leaseIds|
  {
    if leaseIds == [] then q
    else NackAll(Step(q, Call(topic, Release(group, leaseIds[0]))), topic, group, leaseIds[1..])
  }

  function ReclaimIn(q: QueueState, topic: Name): QueueState { Step(q, Call(topic, DropDone)) }

  function LeaseIds(items: seq<Delivered>): (ids: seq<nat>)
    ensures |ids| == |items| && forall i | 0 <= i < |ids| :: ids[i] == items[i].leaseId
  {
    if items == [] then [] else [items[0].leaseId] + LeaseIds(items[1..])
  }

  /** What a poll answers. */
  function Items(q: QueueState, topic: Name, group: Name, max: u32, visibilityMs: u64, tsMs: u64): seq<Delivered> {
    if topic in q.topics
    then PollTopic(q.topics[topic], group, max, visibilityMs, tsMs, q.nextLeaseId).items
    else []
  }

  function Apply(q: QueueState, r: Request): (QueueState, Response) {
    match r
    case CreateTopic(topic) =>
      if NameOk(topic) && TopicAdmits(q, topic) then (Step(q, Call(topic, Ensure)), TopicCreated) else (q, Rejected)
    case DeleteTopic(topic) => (Step(q, Call(topic, Remove)), TopicDeleted)
    case Produce(item) =>
      if ProduceAllowed(q, [item])
      then (Step(q, Call(item.topic, StoreItem(item))), Produced(ProduceTo(TopicOr(q, item.topic), item).1))
      else (q, Rejected)
    case ProduceMany(items) =>
      if ProduceAllowed(q, items)
      then (ProduceAll(q, items).0, ProducedMany(ProduceAll(q, items).1))
      else (q, Rejected)
    case Poll(topic, group, max, visibilityMs, tsMs) =>
      if ConsumerOk(topic, group)
      then (Step(q, Call(topic, Lend(group, max, visibilityMs, tsMs))),
            Polled(Items(q, topic, group, max, visibilityMs, tsMs)))
      else (q, Rejected)
    case PollAuto(topic, group, max, visibilityMs, tsMs) =>
      if ConsumerOk(topic, group) then
        var items := Items(q, topic, group, max, visibilityMs, tsMs);
        var lent := Step(q, Call(topic, Lend(group, max, visibilityMs, tsMs)));
        (ReclaimIn(AckAll(lent, topic, group, LeaseIds(items)), topic), Polled(items))
      else (q, Rejected)
    case Ack(topic, group, leaseId) => (ReclaimIn(Step(q, Call(topic, Settle(group, leaseId))), topic), Acked)
    case AckMany(topic, group, leaseIds) => (ReclaimIn(AckAll(q, topic, group, leaseIds), topic), Acked)
    case Nack(topic, group, leaseId) => (Step(q, Call(topic, Release(group, leaseId))), Nacked)
    case NackMany(topic, group, leaseIds) => (NackAll(q, topic, group, leaseIds), Nacked)
    case CommitOffset(topic, group, offset) =>
      if ConsumerOk(topic, group)
      then (ReclaimIn(Step(q, Call(topic, Advance(group, offset, None))), topic), Committed)
      else (q, Rejected)
    case CommitOffsetAt(topic, group, offset, tsMs) =>
      if ConsumerOk(topic, group)
      then (ReclaimIn(Step(q, Call(topic, Advance(group, offset, Some(tsMs)))), topic), Committed)
      else (q, Rejected)
    case SetRateLimit(topic, rate, burst) =>
      if NameOk(topic) && TopicAdmits(q, topic)
      then (Step(q, Call(topic, LimitRate(rate, burst))), RateLimitSet)
      else (q, Rejected)
    case SetRetention(topic, maxMessages, maxAgeMs) =>
      if NameOk(topic) && TopicAdmits(q, topic)
      then (Step(q, Call(topic, LimitRetention(maxMessages, maxAgeMs))), RetentionSet)
      else (q, Rejected)
  }

  function Run(q: QueueState, requests: seq<Request>): QueueState
    decreases |requests|
  {
    if requests == [] then q else Run(Apply(q, requests[0]).0, requests[1..])
  }

  // ---------------------------------------------------------------- scripts

  function Stores(items: seq<ProduceItem>): seq<Call>
    decreases |items|
  {
    if items == [] then [] else [Call(items[0].topic, StoreItem(items[0]))] + Stores(items[1..])
  }

  lemma OneStore(item: ProduceItem)
    ensures Stores([item]) == [Call(item.topic, StoreItem(item))]
  {
    assert Stores([item]) == [Call(item.topic, StoreItem(item))] + Stores([]);
  }

  function Settles(topic: Name, group: Name, leaseIds: seq<nat>): seq<Call>
    decreases |leaseIds|
  {
    if leaseIds == [] then [] else [Call(topic, Settle(group, leaseIds[0]))] + Settles(topic, group, leaseIds[1..])
  }

  function Releases(topic: Name, group: Name, leaseIds: seq<nat>): seq<Call>
    decreases |leaseIds|
  {
    if leaseIds == [] then [] else [Call(topic, Release(group, leaseIds[0]))] + Releases(topic, group, leaseIds[1..])
  }

  /** The topic operations a request performs in state `q`. */
  function Script(q: QueueState, r: Request): seq<Call> {
    match r
    case CreateTopic(topic) => if NameOk(topic) && TopicAdmits(q, topic) then [Call(topic, Ensure)] else []
    case DeleteTopic(topic) => [Call(topic, Remove)]
    case Produce(item) => if ProduceAllowed(q, [item]) then [Call(item.topic, StoreItem(item))] else []
    case ProduceMany(items) => if ProduceAllowed(q, items) then Stores(items) else []
    case Poll(topic, group, max, visibilityMs, tsMs) =>
      if ConsumerOk(topic, group) then [Call(topic, Lend(group, max, visibilityMs, tsMs))] else []
    case PollAuto(topic, group, max, visibilityMs, tsMs) =>
      if ConsumerOk(topic, group) then
        [Call(topic, Lend(group, max, visibilityMs, tsMs))]
        + (Settles(topic, group, LeaseIds(Items(q, topic, group, max, visibilityMs, tsMs))) + [Call(topic, DropDone)])
      else []
    case Ack(topic, group, leaseId) => [Call(topic, Settle(group, leaseId)), Call(topic, DropDone)]
    case AckMany(topic, group, leaseIds) => Settles(topic, group, leaseIds) + [Call(topic, DropDone)]
    case Nack(topic, group, leaseId) => [Call(topic, Release(group, leaseId))]
    case NackMany(topic, group, leaseIds) => Releases(topic, group, leaseIds)
    case CommitOffset(topic, group, offset) =>
      if ConsumerOk(topic, group) then [Call(topic, Advance(group, offset, None)), Call(topic, DropDone)] else []
    case CommitOffsetAt(topic, group, offset, tsMs) =>
      if ConsumerOk(topic, group) then [Call(topic, Advance(group, offset, Some(tsMs))), Call(topic, DropDone)] else []
    case SetRateLimit(topic, rate, burst) =>
      if NameOk(topic) && TopicAdmits(q, topic) then [Call(topic, LimitRate(rate, burst))] else []
    case SetRetention(topic, maxMessages, maxAgeMs) =>
      if NameOk(topic) && TopicAdmits(q, topic) then [Call(topic, LimitRetention(maxMessages, maxAgeMs))] else []
  }

  lemma {:induction false} StoresAreProduceAll(q: QueueState, items: seq<ProduceItem>)
    ensures Steps(q, Stores(items)) == ProduceAll(q, items).0
    decreases |items|
  {
    hide Step;
    if items != [] {
      StoresAreProduceAll(Step(q, Stores(items)[0]), items[1..]);
    }
  }

  lemma {:induction false} SettlesAreAckAll(q: QueueState, topic: Name, group: Name, leaseIds: seq<nat>)
    ensures Steps(q, Settles(topic, group, leaseIds)) == AckAll(q, topic, group, leaseIds)
    decreases |leaseIds|
  {
    hide Step;
    if leaseIds != [] {
      SettlesAreAckAll(Step(q, Settles(topic, group, leaseIds)[0]), topic, group, leaseIds[1..]);
    }
  }

  lemma {:induction false} ReleasesAreNackAll(q: QueueState, topic: Name, group: Name, leaseIds: seq<nat>)
    ensures Steps(q, Releases(topic, group, leaseIds)) == NackAll(q, topic, group, leaseIds)
    decreases |leaseIds|
  {
    hide Step;
    if leaseIds != [] {
      ReleasesAreNackAll(Step(q, Releases(topic, group, leaseIds)[0]), topic, group, leaseIds[1..]);
    }
  }

  lemma StepsOne(q: QueueState, a: Call)
    ensures Steps(q, [a]) == Step(q, a)
  {
    assert [a][1..] == [];
  }

  lemma StepsTwo(q: QueueState, a: Call, b: Call)
    ensures Steps(q, [a, b]) == Step(Step(q, a), b)
  {
    assert [a, b][1..] == [b];
    StepsOne(Step(q, a), b);
  }

  /** A request does exactly what its script does. */
  lemma ScriptIsApply(q: QueueState, r: Request)
    ensures Steps(q, Script(q, r)) == Apply(q, r).0
  {
    hide ProduceAllowed, ConsumerOk, NameOk, TopicAdmits, ProduceTo, Step, Items;
    forall c: Call ensures Steps(q, [c]) == Step(q, c) { StepsOne(q, c); }
    match r
    case ProduceMany(items) => StoresAreProduceAll(q, items);
    case NackMany(topic, group, leaseIds) => ReleasesAreNackAll(q, topic, group, leaseIds);
    case AckMany(topic, group, leaseIds) => AckScript(q, topic, group, leaseIds);
    case PollAuto(topic, group, max, visibilityMs, tsMs) =>
      LendScript(q, Call(topic, Lend(group, max, visibilityMs, tsMs)),
                 LeaseIds(Items(q, topic, group, max, visibilityMs, tsMs)));
    case Ack(topic, group, leaseId) =>
      StepsTwo(q, Call(topic, Settle(group, leaseId)), Call(topic, DropDone));
    case CommitOffset(topic, group, offset) =>
      StepsTwo(q, Call(topic, Advance(group, offset, None)), Call(topic, DropDone));
    case CommitOffsetAt(topic, group, offset, tsMs) =>
      StepsTwo(q, Call(topic, Advance(group, offset, Some(tsMs))), Call(topic, DropDone));
    case _ =>
  }

  lemma AckScript(q: QueueState, topic: Name, group: Name, leaseIds: seq<nat>)
    ensures Steps(q, Settles(topic, group, leaseIds) + [Call(topic, DropDone)]) ==
            ReclaimIn(AckAll(q, topic, group, leaseIds), topic)
  {
    var settles := Settles(topic, group, leaseIds);
    StepsAppend(q, settles, [Call(topic, DropDone)]);
    SettlesAreAckAll(q, topic, group, leaseIds);
    StepsOne(Steps(q, settles), Call(topic, DropDone));
  }

  lemma LendScript(q: QueueState, lend: Call, leaseIds: seq<nat>)
    requires lend.op.Lend?
    ensures Steps(q, [lend] + (Settles(lend.topic, lend.op.group, leaseIds) + [Call(lend.topic, DropDone)])) ==
            ReclaimIn(AckAll(Step(q, lend), lend.topic, lend.op.group, leaseIds), lend.topic)
  {
    StepsAppend(q, [lend], Settles(lend.topic, lend.op.group, leaseIds) + [Call(lend.topic, DropDone)]);
    StepsOne(q, lend);
    AckScript(Step(q, lend), lend.topic, lend.op.group, leaseIds);
  }

  lemma {:induction false} RunAppend(q: QueueState, a: seq<Request>, b: seq<Request>)
    ensures Run(q, a + b) == Run(Run(q, a), b)
    decreases |a|
  {
    if a == [] {
      assert a + b == b;
    } else {
      assert (a + b)[1..] == a[1..] + b;
      RunAppend(Apply(q, a[0]).0, a[1..], b);
    }
  }

  lemma RunOneMore(q: QueueState, requests: seq<Request>, r: Request)
    ensures Run(q, requests + [r]) == Apply(Run(q, requests), r).0
  {
    hide Apply;
    RunAppend(q, requests, [r]);
    assert [r][1..] == [];
    assert Run(Run(q, requests), [r]) == Run(Apply(Run(q, requests), r).0, []);
  }

  lemma RunNothing(q: QueueState)
    ensures Run(q, []) == q
  {
  }
}
