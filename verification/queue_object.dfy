/** The queue as the object the state machine owns: every request changes it in place. */
module QueueObject {
  import opened Collections
  import opened Model
  import opened Topics
  import opened Queue
  import opened TopicObject
  import Restart

  class LiveQueue {
    var topics: map<Name, TopicState>
    var nextLeaseId: u64

    constructor ()
      ensures State() == EMPTY_QUEUE
    {
      topics, nextLeaseId := map[], 0;
    }

    function State(): QueueState
      reads this
    {
      QueueState(topics, nextLeaseId)
    }

    /** One pass over the batch, gathering the topics it would create. */
    method CheckProduce(items: seq<ProduceItem>) returns (ok: bool)
      ensures ok <==> ProduceAllowed(State(), items)
    {
      hide NewTopics;
      var created: set<Name> := {};
      assert NewTopics(State(), items[..0]) == {} by { NoNewTopics(State()); }
      for i := 0 to |items|
        invariant forall k | 0 <= k < i :: ItemOk(items[k])
        invariant created == NewTopics(State(), items[..i])
      {
        if |items[i].topic| > MAX_NAME_BYTES || |items[i].producerId| > MAX_PRODUCER_ID_BYTES {
          assert items[i] in items && !ItemOk(items[i]);
          return false;
        }
        MoreNewTopics(State(), items, i);
        if items[i].topic !in topics {
          created := created + {items[i].topic};
        }
      }
      assert items[..|items|] == items;
      ok := |topics| + |created| <= MAX_TOPICS;
    }

    method ProduceOne(item: ProduceItem) returns (offset: nat)
      modifies this`topics
      ensures State() == Step(old(State()), Call(item.topic, StoreItem(item)))
      ensures offset == ProduceTo(TopicOr(old(State()), item.topic), item).1
    {
      hide ProduceTo;
      var t := new Topic(TopicOr(State(), item.topic));
      offset := t.ProduceOne(item);
      topics := topics[item.topic := t.State()];
    }

    method ProduceBatch(items: seq<ProduceItem>) returns (offsets: seq<nat>)
      modifies this`topics
      ensures (State(), offsets) == ProduceAll(old(State()), items)
    {
      hide Step, ProduceTo;
      offsets := [];
      for i := 0 to |items|
        invariant ProduceAll(State(), items[i..]).0 == ProduceAll(old(State()), items).0
        invariant offsets + ProduceAll(State(), items[i..]).1 == ProduceAll(old(State()), items).1
      {
        assert items[i..][0] == items[i] && items[i..][1..] == items[i + 1..];
        var offset := ProduceOne(items[i]);
        offsets := offsets + [offset];
      }
      assert items[|items|..] == [];
      assert ProduceAll(State(), []) == (State(), []) && offsets + [] == offsets;
    }

    method PollOne(topic: Name, group: Name, max: u32, visibilityMs: u64, tsMs: u64) returns (items: seq<Delivered>)
      modifies this
      ensures State() == Step(old(State()), Call(topic, Lend(group, max, visibilityMs, tsMs)))
      ensures items == Items(old(State()), topic, group, max, visibilityMs, tsMs)
    {
      hide PollTopic;
      if topic !in topics {
        return [];
      }
      var t := new Topic(topics[topic]);
      var nextLease;
      items, nextLease := t.PollGroup(group, max, visibilityMs, tsMs, nextLeaseId);
      topics := topics[topic := t.State()];
      nextLeaseId := nextLease;
    }

    method AckOne(topic: Name, group: Name, leaseId: nat)
      modifies this`topics
      ensures State() == Step(old(State()), Call(topic, Settle(group, leaseId)))
    {
      hide AckTopic;
      if topic in topics {
        var t := new Topic(topics[topic]);
        t.AckLeaseOf(group, leaseId);
        topics := topics[topic := t.State()];
      }
    }

    method NackOne(topic: Name, group: Name, leaseId: nat)
      modifies this`topics
      ensures State() == Step(old(State()), Call(topic, Release(group, leaseId)))
    {
      hide NackTopic;
      if topic in topics {
        var t := new Topic(topics[topic]);
        t.NackLeaseOf(group, leaseId);
        topics := topics[topic := t.State()];
      }
    }

    method AckBatch(topic: Name, group: Name, leaseIds: seq<nat>)
      modifies this`topics
      ensures State() == AckAll(old(State()), topic, group, leaseIds)
    {
      hide Step;
      for i := 0 to |leaseIds|
        invariant AckAll(State(), topic, group, leaseIds[i..]) == AckAll(old(State()), topic, group, leaseIds)
      {
        assert leaseIds[i..][0] == leaseIds[i] && leaseIds[i..][1..] == leaseIds[i + 1..];
        AckOne(topic, group, leaseIds[i]);
      }
      assert leaseIds[|leaseIds|..] == [];
    }

    method NackBatch(topic: Name, group: Name, leaseIds: seq<nat>)
      modifies this`topics
      ensures State() == NackAll(old(State()), topic, group, leaseIds)
    {
      hide Step;
      for i := 0 to |leaseIds|
        invariant NackAll(State(), topic, group, leaseIds[i..]) == NackAll(old(State()), topic, group, leaseIds)
      {
        assert leaseIds[i..][0] == leaseIds[i] && leaseIds[i..][1..] == leaseIds[i + 1..];
        NackOne(topic, group, leaseIds[i]);
      }
      assert leaseIds[|leaseIds|..] == [];
    }

    method ReclaimTopic(topic: Name)
      modifies this`topics
      ensures State() == ReclaimIn(old(State()), topic)
    {
      hide Reclaim;
      if topic in topics {
        var t := new Topic(topics[topic]);
        t.ReclaimDone();
        topics := topics[topic := t.State()];
      }
    }

    method CommitOne(topic: Name, group: Name, offset: nat, nowMs: Option<nat>)
      modifies this`topics
      ensures State() == Step(old(State()), Call(topic, Advance(group, offset, nowMs)))
    {
      hide CommitTopic;
      if topic in topics {
        var t := new Topic(topics[topic]);
        t.Commit(group, offset, nowMs);
        topics := topics[topic := t.State()];
      }
    }

    /** `Queue::apply`. */
    method Handle(request: Request) returns (response: Response)
      modifies this
      ensures (State(), response) == Apply(old(State()), request)
    {
      hide TopicStep, Items, ProduceAllowed, NameOk;
      match request
      case CreateTopic(topic) =>
        if !NameOk(topic) || !TopicAdmits(State(), topic) { return Rejected; }
        topics := topics[topic := TopicOr(State(), topic)];
        EnsureStep(old(State()), topic);
        response := TopicCreated;
      case DeleteTopic(topic) =>
        topics := topics - {topic};
        response := TopicDeleted;
      case Produce(item) =>
        var ok := CheckProduce([item]);
        if !ok { return Rejected; }
        var offset := ProduceOne(item);
        response := Produced(offset);
      case ProduceMany(items) =>
        var ok := CheckProduce(items);
        if !ok { return Rejected; }
        var offsets := ProduceBatch(items);
        response := ProducedMany(offsets);
      case Poll(topic, group, max, visibilityMs, tsMs) =>
        if !ConsumerOk(topic, group) { return Rejected; }
        var items := PollOne(topic, group, max, visibilityMs, tsMs);
        response := Polled(items);
      case PollAuto(topic, group, max, visibilityMs, tsMs) =>
        if !ConsumerOk(topic, group) { return Rejected; }
        var items := PollOne(topic, group, max, visibilityMs, tsMs);
        AckBatch(topic, group, LeaseIds(items));
        ReclaimTopic(topic);
        response := Polled(items);
      case Ack(topic, group, leaseId) =>
        AckOne(topic, group, leaseId);
        ReclaimTopic(topic);
        response := Acked;
      case AckMany(topic, group, leaseIds) =>
        AckBatch(topic, group, leaseIds);
        ReclaimTopic(topic);
        response := Acked;
      case Nack(topic, group, leaseId) =>
        NackOne(topic, group, leaseId);
        response := Nacked;
      case NackMany(topic, group, leaseIds) =>
        NackBatch(topic, group, leaseIds);
        response := Nacked;
      case CommitOffset(topic, group, offset) =>
        if !ConsumerOk(topic, group) { return Rejected; }
        CommitOne(topic, group, offset, None);
        ReclaimTopic(topic);
        response := Committed;
      case CommitOffsetAt(topic, group, offset, tsMs) =>
        if !ConsumerOk(topic, group) { return Rejected; }
        CommitOne(topic, group, offset, Some(tsMs));
        ReclaimTopic(topic);
        response := Committed;
      case SetRateLimit(topic, rate, burst) =>
        if !NameOk(topic) || !TopicAdmits(State(), topic) { return Rejected; }
        var t := TopicOr(State(), topic);
        topics := topics[topic := t.(rateMilliPerSec := rate, burst := burst)];
        LimitSteps(old(State()), topic, rate, burst);
        response := RateLimitSet;
      case SetRetention(topic, maxMessages, maxAgeMs) =>
        if !NameOk(topic) || !TopicAdmits(State(), topic) { return Rejected; }
        var t := TopicOr(State(), topic);
        topics := topics[topic := t.(retainMaxMessages := maxMessages, retainMaxAgeMs := maxAgeMs)];
        LimitSteps(old(State()), topic, maxMessages, maxAgeMs);
        response := RetentionSet;
    }

    /** `Queue::normalize`: lower each watermark that lies past the end of its topic. */
    method Normalize()
      modifies this`topics
      ensures State() == Restart.Normalized(old(State()))
    {
      var left := topics.Keys;
      while left != {}
        invariant left <= old(topics).Keys && topics.Keys == old(topics).Keys
        invariant forall n | n in left :: topics[n] == old(topics)[n]
        invariant forall n | n in topics && n !in left :: topics[n] == Restart.NormalizedTopic(old(topics)[n])
        decreases |left|
      {
        var n :| n in left;
        var t := NormalizeTopic(topics[n]);
        topics := topics[n := t];
        left := left - {n};
      }
    }

    static method NormalizeTopic(t: TopicState) returns (r: TopicState)
      ensures r == Restart.NormalizedTopic(t)
    {
      var groups, left := t.groups, t.groups.Keys;
      while left != {}
        invariant left <= t.groups.Keys && groups.Keys == t.groups.Keys
        invariant forall n | n in left :: groups[n] == t.groups[n]
        invariant forall n | n in groups && n !in left :: groups[n] == Restart.NormalizedGroup(t.groups[n], t.nextOffset)
        decreases |left|
      {
        var n :| n in left;
        if groups[n].watermark > t.nextOffset {
          groups := groups[n := groups[n].(watermark := t.nextOffset)];
        }
        left := left - {n};
      }
      r := t.(groups := groups);
    }
  }

  lemma NoNewTopics(q: QueueState)
    ensures NewTopics(q, []) == {}
  {
  }

  lemma MoreNewTopics(q: QueueState, items: seq<ProduceItem>, i: nat)
    requires i < |items|
    ensures NewTopics(q, items[..i + 1])
         == NewTopics(q, items[..i]) + if items[i].topic !in q.topics then {items[i].topic} else {}
  {
    var before, after := items[..i], items[..i + 1];
    assert after == before + [items[i]];
    forall n | n in NewTopics(q, before) ensures n in NewTopics(q, after) {
      var k :| 0 <= k < |before| && before[k].topic !in q.topics && before[k].topic == n;
      assert after[k].topic == n;
    }
    if items[i].topic !in q.topics {
      assert after[i].topic in NewTopics(q, after);
    }
  }

  lemma EnsureStep(q: QueueState, topic: Name)
    ensures Step(q, Call(topic, Ensure)) == q.(topics := q.topics[topic := TopicOr(q, topic)])
  {
  }

  lemma LimitSteps(q: QueueState, topic: Name, a: nat, b: nat)
    ensures Step(q, Call(topic, LimitRate(a, b)))
         == q.(topics := q.topics[topic := TopicOr(q, topic).(rateMilliPerSec := a, burst := b)])
    ensures Step(q, Call(topic, LimitRetention(a, b)))
         == q.(topics := q.topics[topic := TopicOr(q, topic).(retainMaxMessages := a, retainMaxAgeMs := b)])
  {
  }
}
