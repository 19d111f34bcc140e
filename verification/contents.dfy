/** What was produced is what is delivered. */
module Contents {
  import opened Collections
  import opened Model
  import opened Groups
  import opened Topics
  import opened TopicFacts
  import opened Queue
  import opened Invariant
  import opened Runs
  import opened Delivery
  import Idempotence

  /** Unless it is gone, the message at the offset is the item: its priority, content type, payload and time. */
  ghost predicate Carries(t: TopicState, o: nat, item: ProduceItem) {
    && o < t.nextOffset
    && (o in t.messages ==>
          && t.messages[o].priority == item.priority && t.messages[o].contentType == item.contentType
          && t.messages[o].payload == item.payload && t.messages[o].tsMs == item.tsMs)
  }

  ghost predicate CarriesIn(q: QueueState, topic: Name, o: nat, item: ProduceItem) {
    topic in q.topics && Carries(q.topics[topic], o, item)
  }

  // ---------------------------------------------------------------- messages do not change

  lemma PurgedMessages(t: TopicState, nowMs: nat)
    ensures PurgeRetained(t, nowMs).nextOffset == t.nextOffset
    ensures forall p | p in PurgeRetained(t, nowMs).messages :: p in t.messages && PurgeRetained(t, nowMs).messages[p] == t.messages[p]
  {
    hide PurgeCount, RaiseGroups, PruneDedup;
  }

  /** No operation changes a message; an old one may go, a new one gets a new offset. */
  lemma MessagesStay(t: TopicState, op: Op, leases: nat)
    requires TopicInv(t, leases) && leases <= MAX_COUNTER && t.nextOffset <= MAX_COUNTER && !op.Remove?
    ensures var r := TopicStep(t, op, leases).0;
            && t.nextOffset <= r.nextOffset
            && forall p | p in r.messages && p < t.nextOffset :: p in t.messages && r.messages[p] == t.messages[p]
  {
    hide TopicInv, PurgeRetained, RememberKey, Sweep, Chosen, Refreshed, IssueLeases, Deliveries, Reclaim, AdvanceWatermark,
      AckLease, Unlease, ConsumedDropped;
    match op
    case StoreItem(item) =>
      PurgedMessages(t, item.tsMs);
      PurgedMessages(Stored(t, item), item.tsMs);
    case Lend(group, max, visibilityMs, tsMs) => SweptMessages(t, tsMs, leases);
    case Advance(group, offset, nowMs) => if nowMs.Some? { SweptMessages(t, nowMs.value, leases); }
    case DropDone => ReclaimedMessages(t);
    case _ =>
  }

  lemma SweptMessages(t: TopicState, nowMs: nat, leases: nat)
    requires TopicInv(t, leases)
    ensures var r := Sweep(t, nowMs);
            r.nextOffset == t.nextOffset && forall p | p in r.messages :: p in t.messages && r.messages[p] == t.messages[p]
  {
    hide TopicInv, Sweep;
    SweepFacts(t, nowMs, leases);
  }

  lemma ReclaimedMessages(t: TopicState)
    ensures var r := Reclaim(t);
            r.nextOffset == t.nextOffset && forall p | p in r.messages :: p in t.messages && r.messages[p] == t.messages[p]
  {
  }

  lemma CarriesStep(q: QueueState, call: Call, topic: Name, o: nat, item: ProduceItem)
    requires QueueInv(q) && Headroom(q) && CarriesIn(q, topic, o, item) && !(call.topic == topic && call.op.Remove?)
    ensures CarriesIn(Step(q, call), topic, o, item)
  {
    hide TopicInv, TopicStep, Creates;
    if call.topic == topic {
      MessagesStay(q.topics[topic], call.op, q.nextLeaseId);
    }
  }

  lemma {:induction false} CarriesSteps(q: QueueState, calls: seq<Call>, topic: Name, o: nat, item: ProduceItem)
    requires QueueInv(q) && Fits(q, calls) && CarriesIn(q, topic, o, item)
    requires forall c | c in calls && c.topic == topic :: !c.op.Remove?
    ensures CarriesIn(Steps(q, calls), topic, o, item)
    decreases |calls|
  {
    hide QueueInv, Headroom, CarriesIn, Step;
    if calls != [] {
      assert calls[0] in calls;
      StepKeeps(q, calls[0]);
      CarriesStep(q, calls[0], topic, o, item);
      CarriesSteps(Step(q, calls[0]), calls[1..], topic, o, item);
    }
  }

  /** Over every run that does not delete the topic. */
  lemma CarriesOverRun(q: QueueState, requests: seq<Request>, topic: Name, o: nat, item: ProduceItem)
    requires QueueInv(q) && BelowCeiling(q, requests) && CarriesIn(q, topic, o, item)
    requires DeleteTopic(topic) !in requests
    ensures CarriesIn(Run(q, requests), topic, o, item)
  {
    hide QueueInv, BelowCeiling, CarriesIn, RunCalls, Run, Fits;
    var calls := RunCalls(q, requests);
    RunFits(q, requests);
    RunIsSteps(q, requests);
    forall c | c in calls && c.topic == topic ensures !c.op.Remove? {
      RunCallsComeFrom(q, requests, c);
      var r :| r in requests && CallOf(r, c);
    }
    CarriesSteps(q, calls, topic, o, item);
  }

  // ---------------------------------------------------------------- in and out

  /** A produce answered with a new offset stores its item there. */
  lemma ProducedCarries(q: QueueState, item: ProduceItem, o: nat)
    requires QueueInv(q) && Headroom(q) && Apply(q, Produce(item)).1 == Produced(o)
    requires item.topic in q.topics ==> o >= q.topics[item.topic].nextOffset
    ensures CarriesIn(Apply(q, Produce(item)).0, item.topic, o, item)
  {
    hide QueueInv, TopicInv, ProduceTo, ProduceAllowed, Carries;
    OneTopicOr(q, item.topic);
    StoredCarries(TopicOr(q, item.topic), item, q.nextLeaseId);
  }

  lemma OneTopicOr(q: QueueState, topic: Name)
    requires QueueInv(q)
    ensures TopicInv(TopicOr(q, topic), q.nextLeaseId)
  {
    EmptyTopicKeeps(q.nextLeaseId);
  }

  lemma StoredCarries(t: TopicState, item: ProduceItem, leases: nat)
    requires TopicInv(t, leases) && t.nextOffset <= MAX_COUNTER && ProduceTo(t, item).1 >= t.nextOffset
    ensures Carries(ProduceTo(t, item).0, ProduceTo(t, item).1, item)
  {
    hide TopicInv, PurgeRetained, RememberKey;
    KnownOffsets(t, leases);
    PurgedMessages(Stored(t, item), item.tsMs);
  }

  /** Exactly what a produce that is accepted answers: the offset remembered for its key, and then nothing is stored; otherwise
      the topic's next offset, where its message then is. */
  lemma ProduceAnswers(q: QueueState, item: ProduceItem)
    requires QueueInv(q) && Headroom(q) && Apply(q, Produce(item)).1 != Rejected
    ensures var t, (next, response) := TopicOr(q, item.topic), Apply(q, Produce(item));
            && item.topic in next.topics && response.Produced?
            && if item.producerId != "" && (item.producerId, item.seqNo) in t.dedup.entries
               then && response.offset == t.dedup.entries[(item.producerId, item.seqNo)]
                    && next.topics[item.topic].nextOffset == t.nextOffset
               else && response.offset == t.nextOffset && t.nextOffset in next.topics[item.topic].messages
                    && next.topics[item.topic].nextOffset == t.nextOffset + 1
  {
    hide QueueInv, TopicInv, ProduceAllowed, PurgeRetained, RememberKey;
    var t := TopicOr(q, item.topic);
    OneTopicOr(q, item.topic);
    if IsDuplicate(t, item) {
      PurgedMessages(t, item.tsMs);
    } else {
      PurgedMessages(Stored(t, item), item.tsMs);
      Idempotence.FreshIsRetained(t, item, q.nextLeaseId);
    }
  }

  lemma KnownOffsets(t: TopicState, leases: nat)
    requires TopicInv(t, leases)
    ensures forall k | k in t.dedup.entries :: t.dedup.entries[k] < t.nextOffset
  {
  }

  lemma ItemIsMessage(t: TopicState, n: Name, max: u32, visibilityMs: nat, tsMs: nat, leases: nat, i: nat)
    requires TopicInv(t, leases) && leases <= MAX_COUNTER
    requires i < |PollTopic(t, n, max, visibilityMs, tsMs, leases).items|
    ensures var d := PollTopic(t, n, max, visibilityMs, tsMs, leases).items[i];
            && d.offset in t.messages
            && var m := t.messages[d.offset];
               d.priority == m.priority && d.contentType == m.contentType && d.payload == m.payload && d.tsMs == m.tsMs
  {
    hide TopicInv, Sweep, Chosen, Refreshed, IssueLeases, Deliveries, Admits;
    SweptMessages(t, tsMs, leases);
    assert Admits(Sweep(t, tsMs), n);
    hide PollTopic;
    ItemsAreChosen(t, n, max, visibilityMs, tsMs, leases);
  }

  /** A poll of any group answers the item for its offset. */
  lemma AnswerCarries(q: QueueState, r: Request, o: nat, item: ProduceItem, i: nat)
    requires (r.Poll? || r.PollAuto?) && QueueInv(q) && Headroom(q) && CarriesIn(q, r.topic, o, item)
    requires Apply(q, r).1.Polled? && i < |Apply(q, r).1.items|
    requires Apply(q, r).1.items[i].offset == o
    ensures var d := Apply(q, r).1.items[i];
            d.priority == item.priority && d.contentType == item.contentType && d.payload == item.payload && d.tsMs == item.tsMs
  {
    hide TopicInv, PollTopic, AckAll;
    ItemIsMessage(q.topics[r.topic], r.group, r.max, r.visibilityMs, r.tsMs, q.nextLeaseId, i);
  }

  /** What was produced is what is delivered: if a produce is answered with a new offset, every later answer that holds the
      offset, to any group of the topic, holds the item's priority, content type, payload and time, until the topic is
      deleted. */
  lemma DeliveredAsProduced(q: QueueState, item: ProduceItem, o: nat, later: seq<Request>, r: Request, i: nat)
    requires QueueInv(q) && BelowCeiling(q, [Produce(item)] + later)
    requires Apply(q, Produce(item)).1 == Produced(o)
    requires item.topic in q.topics ==> o >= q.topics[item.topic].nextOffset
    requires DeleteTopic(item.topic) !in later && (r.Poll? || r.PollAuto?) && r.topic == item.topic
    requires var end := Run(Apply(q, Produce(item)).0, later);
             Apply(end, r).1.Polled? && i < |Apply(end, r).1.items| && Apply(end, r).1.items[i].offset == o
    ensures var d := Apply(Run(Apply(q, Produce(item)).0, later), r).1.items[i];
            d.priority == item.priority && d.contentType == item.contentType && d.payload == item.payload && d.tsMs == item.tsMs
  {
    hide QueueInv, Apply, CountersBelow, CarriesIn;
    assert ([Produce(item)] + later)[1..] == later;
    var next := Apply(q, Produce(item)).0;
    assert BelowCeiling(next, later);
    CountersGiveHeadroom(q);
    CountersGiveHeadroom(next);
    ApplyKeeps(q, Produce(item));
    ProducedCarries(q, item, o);
    CarriesOverRun(next, later, item.topic, o, item);
    RunKeeps(next, later);
    CountersGiveHeadroom(Run(next, later));
    AnswerCarries(Run(next, later), r, o, item, i);
  }
}
