/** How long a message can wait, exactly: from the empty queue, for every number of messages below it, every poll count and
    every sequence of polls. */
module Waiting {
  import opened Collections
  import opened Model
  import opened Groups
  import opened Selection
  import opened Topics
  import opened TopicFacts
  import opened Queue
  import opened Invariant
  import opened Delivery
  import opened Fairness
  import opened Starvation

  // ---------------------------------------------------------------- a stocked queue

  function PriorityAt(k: nat, i: nat): nat { if i < k then 0 else if i == k then 1 else 2 }

  function ItemAt(k: nat, i: nat): ProduceItem { ProduceItem("t", PriorityAt(k, i), Raw, [], "", 0, 1) }

  function Shelved(k: nat, i: nat): Message { Message(i, PriorityAt(k, i), Raw, [], 1) }

  /** `k` messages of the lowest priority, then one above them, then others above that. */
  function Shelf(k: nat, cap: nat, size: nat): TopicState {
    EMPTY_TOPIC.(nextOffset := size, messages := map i | i in Range(0, size) :: Shelved(k, i), retainMaxMessages := cap)
  }

  function One(t: TopicState): QueueState { QueueState(map["t" := t], 0) }

  /** The group after so many polls for nothing. */
  function Reader(count: nat): GroupState { GroupState(0, {}, map[], map[], count, 1) }

  function WithReader(t: TopicState, count: nat): TopicState { Put(t, "g", Reader(count)) }

  function Stock(k: nat, cap: nat, size: nat): seq<Request> {
    if size == 0 then [SetRetention("t", cap, 0)] else Stock(k, cap, size - 1) + [Produce(ItemAt(k, size - 1))]
  }

  /** The requests that make the queue: a retention cap, the messages, a commit that creates the group, and its polls. */
  function Setup(k: nat, cap: nat, size: nat, count: nat): seq<Request> {
    if count == 0 then Stock(k, cap, size) + [CommitOffsetAt("t", "g", 0, 1)]
    else Setup(k, cap, size, count - 1) + [Poll("t", "g", 0, 1000, 1)]
  }

  // ---------------------------------------------------------------- stocking it

  lemma ShelfSize(k: nat, cap: nat, size: nat)
    ensures |Shelf(k, cap, size).messages| == size
  {
    var messages := Shelf(k, cap, size).messages;
    assert messages.Keys == Range(0, size);
    assert |messages| == |messages.Keys|;
  }

  lemma NothingPurged(t: TopicState)
    requires |t.messages| <= t.retainMaxMessages && t.retainMaxMessages > 0 && t.retainMaxAgeMs == 0
    ensures PurgeRetained(t, 1) == t
  {
    hide SortedKeys;
    assert PurgeCount(t, 1) == 0;
  }

  lemma OneMoreMessage(k: nat, cap: nat, size: nat)
    ensures Shelf(k, cap, size).messages[size := Shelved(k, size)] == Shelf(k, cap, size + 1).messages
  {
    hide Shelved, Range;
    assert Range(0, size + 1) == Range(0, size) + {size};
  }

  lemma ShelfGrows(k: nat, cap: nat, size: nat)
    requires size < cap && size <= MAX_COUNTER
    ensures ProduceTo(Shelf(k, cap, size), ItemAt(k, size)).0 == Shelf(k, cap, size + 1)
  {
    hide PurgeRetained;
    OneMoreMessage(k, cap, size);
    ShelfSize(k, cap, size + 1);
    assert Stored(Shelf(k, cap, size), ItemAt(k, size)) == Shelf(k, cap, size + 1);
    NothingPurged(Shelf(k, cap, size + 1));
  }

  lemma OneTopicFits(t: TopicState, item: ProduceItem)
    requires item.topic == "t" && item.producerId == ""
    ensures ProduceAllowed(One(t), [item])
  {
    assert NewTopics(One(t), [item]) == {};
    assert |One(t).topics| == |One(t).topics.Keys| == 1;
  }

  lemma OneReplaced(t: TopicState, r: TopicState)
    ensures One(t).topics["t" := r] == One(r).topics
  {
  }

  lemma OneRoom(t: TopicState)
    requires t.nextOffset <= MAX_COUNTER
    ensures Headroom(One(t))
  {
  }

  lemma ShelfOpens(k: nat, cap: nat)
    ensures Apply(EMPTY_QUEUE, SetRetention("t", cap, 0)).0 == One(Shelf(k, cap, 0))
    ensures QueueInv(One(Shelf(k, cap, 0)))
  {
    hide QueueInv, Range;
    assert Shelf(k, cap, 0) == EMPTY_TOPIC.(retainMaxMessages := cap, retainMaxAgeMs := 0);
    EmptyQueueInv();
    StepKeeps(EMPTY_QUEUE, Call("t", LimitRetention(cap, 0)));
  }

  lemma OneProduced(t: TopicState, item: ProduceItem, r: TopicState)
    requires item.topic == "t" && item.producerId == "" && ProduceTo(t, item).0 == r
    ensures Apply(One(t), Produce(item)).0 == One(r)
  {
    hide ProduceTo, ProduceAllowed;
    OneTopicFits(t, item);
    OneReplaced(t, r);
  }

  lemma ShelfStep(k: nat, cap: nat, size: nat)
    requires size < cap && size < MAX_COUNTER && QueueInv(One(Shelf(k, cap, size)))
    ensures Apply(One(Shelf(k, cap, size)), Produce(ItemAt(k, size))).0 == One(Shelf(k, cap, size + 1))
    ensures QueueInv(One(Shelf(k, cap, size + 1)))
  {
    hide QueueInv, ProduceTo, Apply, Headroom, One;
    ShelfGrows(k, cap, size);
    OneProduced(Shelf(k, cap, size), ItemAt(k, size), Shelf(k, cap, size + 1));
    OneRoom(Shelf(k, cap, size));
    OneRoom(Shelf(k, cap, size + 1));
    ApplyKeeps(One(Shelf(k, cap, size)), Produce(ItemAt(k, size)));
  }

  lemma {:induction false} StockIsShelf(k: nat, cap: nat, size: nat)
    requires size <= cap && size <= MAX_COUNTER
    ensures Run(EMPTY_QUEUE, Stock(k, cap, size)) == One(Shelf(k, cap, size)) && QueueInv(One(Shelf(k, cap, size)))
    decreases size
  {
    hide QueueInv, Shelf, Apply, Run, One;
    if size == 0 {
      ShelfOpens(k, cap);
      RunOneMore(EMPTY_QUEUE, [], SetRetention("t", cap, 0));
      RunNothing(EMPTY_QUEUE);
      assert [] + [SetRetention("t", cap, 0)] == Stock(k, cap, 0);
    } else {
      StockIsShelf(k, cap, size - 1);
      ShelfStep(k, cap, size - 1);
      RunOneMore(EMPTY_QUEUE, Stock(k, cap, size - 1), Produce(ItemAt(k, size - 1)));
    }
  }

  // ---------------------------------------------------------------- its group

  lemma NobodyThere(t: TopicState)
    requires t.groups == map[]
    ensures Sweep(t, 1) == t && Admits(t, "g")
  {
    assert SweepIdleGroups(t, 1).groups == map[];
  }

  lemma ShelfBase(k: nat, cap: nat, size: nat)
    ensures Base(Shelf(k, cap, size)) == 0
  {
    if size > 0 {
      assert 0 in Range(0, size);
      assert 0 in Shelf(k, cap, size).messages;
    } else {
      assert Shelf(k, cap, size).messages == map[];
    }
  }

  lemma NothingRaised(g: GroupState)
    requires g.watermark == 0 && g.ackedAbove == {} && g.inFlight == map[] && g.leasedOffsets == map[]
    ensures AdvanceWatermark(g, 0) == g
  {
  }

  lemma ReaderOpens(k: nat, cap: nat, size: nat)
    ensures CommitTopic(Shelf(k, cap, size), "g", 0, Some(1)) == WithReader(Shelf(k, cap, size), 0)
  {
    hide Sweep, Base, AdvanceWatermark;
    var t := Shelf(k, cap, size);
    ShelfBase(k, cap, size);
    NobodyThere(t);
    NothingRaised(GroupEntry(t, "g", Some(1)));
  }

  lemma NothingReclaimed(k: nat, cap: nat, size: nat, count: nat)
    ensures Reclaim(WithReader(Shelf(k, cap, size), count)) == WithReader(Shelf(k, cap, size), count)
  {
    var t := WithReader(Shelf(k, cap, size), count);
    assert t.groups == map["g" := Reader(count)];
    assert "g" in t.groups && t.groups["g"].watermark == 0;
    assert Watermarks(t.groups) == {0};
    assert |t.groups| == |t.groups.Keys| == 1;
  }

  lemma OnlyReader(t: TopicState, count: nat)
    requires t.groups == map["g" := Reader(count)]
    ensures Sweep(t, 1) == t && Admits(t, "g")
  {
    assert SweepIdleGroups(t, 1).groups == t.groups;
  }

  lemma ReaderCounts(k: nat, cap: nat, size: nat, count: nat)
    requires count < MAX_COUNTER
    ensures PollTopic(WithReader(Shelf(k, cap, size), count), "g", 0, 1000, 1, 0)
         == PollResult(WithReader(Shelf(k, cap, size), count + 1), [], 0)
  {
    var t := WithReader(Shelf(k, cap, size), count);
    assert t.groups == map["g" := Reader(count)];
    assert Refreshed(Reader(count), 1) == Reader(count + 1);
    OnlyReader(t, count);
    ChosenFacts(t.messages, Reader(count), 0, 1);
    hide Sweep, Chosen, Refreshed, Shelf;
    assert Put(t, "g", Reader(count + 1)) == WithReader(Shelf(k, cap, size), count + 1);
  }

  lemma OneCommitted(t: TopicState, r: TopicState)
    requires CommitTopic(t, "g", 0, Some(1)) == r && Reclaim(r) == r
    ensures Apply(One(t), CommitOffsetAt("t", "g", 0, 1)).0 == One(r)
  {
    hide CommitTopic, Reclaim;
    OneReplaced(t, r);
    OneReplaced(r, r);
  }

  lemma OnePolled(t: TopicState, r: TopicState)
    requires PollTopic(t, "g", 0, 1000, 1, 0) == PollResult(r, [], 0)
    ensures Apply(One(t), Poll("t", "g", 0, 1000, 1)).0 == One(r)
  {
    hide PollTopic;
    OneReplaced(t, r);
  }

  lemma CommitStep(k: nat, cap: nat, size: nat)
    requires size <= MAX_COUNTER && QueueInv(One(Shelf(k, cap, size)))
    ensures Apply(One(Shelf(k, cap, size)), CommitOffsetAt("t", "g", 0, 1)).0 == One(WithReader(Shelf(k, cap, size), 0))
    ensures QueueInv(One(WithReader(Shelf(k, cap, size), 0)))
  {
    hide QueueInv, CommitTopic, Reclaim, Apply, Headroom, One;
    var t := Shelf(k, cap, size);
    ReaderOpens(k, cap, size);
    NothingReclaimed(k, cap, size, 0);
    OneCommitted(t, WithReader(t, 0));
    OneRoom(t);
    OneRoom(WithReader(t, 0));
    ApplyKeeps(One(t), CommitOffsetAt("t", "g", 0, 1));
  }

  lemma PollStep(k: nat, cap: nat, size: nat, count: nat)
    requires size <= MAX_COUNTER && count < MAX_COUNTER && QueueInv(One(WithReader(Shelf(k, cap, size), count)))
    ensures Apply(One(WithReader(Shelf(k, cap, size), count)), Poll("t", "g", 0, 1000, 1)).0
         == One(WithReader(Shelf(k, cap, size), count + 1))
    ensures QueueInv(One(WithReader(Shelf(k, cap, size), count + 1)))
  {
    hide QueueInv, PollTopic, Apply, Headroom, One;
    var t, r := WithReader(Shelf(k, cap, size), count), WithReader(Shelf(k, cap, size), count + 1);
    ReaderCounts(k, cap, size, count);
    OnePolled(t, r);
    OneRoom(t);
    OneRoom(r);
    ApplyKeeps(One(t), Poll("t", "g", 0, 1000, 1));
  }

  /** The queue the requests make. */
  lemma {:induction false} SetupMakes(k: nat, cap: nat, size: nat, count: nat)
    requires size <= cap && size <= MAX_COUNTER && count <= MAX_COUNTER
    ensures Run(EMPTY_QUEUE, Setup(k, cap, size, count)) == One(WithReader(Shelf(k, cap, size), count))
    ensures QueueInv(One(WithReader(Shelf(k, cap, size), count)))
    decreases count
  {
    hide QueueInv, Shelf, Apply, Run, One, WithReader, Stock;
    if count == 0 {
      StockIsShelf(k, cap, size);
      CommitStep(k, cap, size);
      RunOneMore(EMPTY_QUEUE, Stock(k, cap, size), CommitOffsetAt("t", "g", 0, 1));
    } else {
      SetupMakes(k, cap, size, count - 1);
      PollStep(k, cap, size, count - 1);
      RunOneMore(EMPTY_QUEUE, Setup(k, cap, size, count - 1), Poll("t", "g", 0, 1000, 1));
    }
  }

  // ---------------------------------------------------------------- the exact bound

  /** The polls can be made, the message waits behind `k` deliverable ones, and no lease comes back on the way. */
  ghost predicate StartsBehind(q: QueueState, topic: Name, n: Name, o: nat, asks: seq<u32>, count: nat, k: nat) {
    && PollsIn(q, topic, n, asks, count) && WaitsIn(q, topic, n, o)
    && |Below(q.topics[topic], n, o)| == k && NothingDue(q.topics[topic].groups[n])
  }

  lemma OnShelf(k: nat, cap: nat, size: nat, count: nat)
    ensures var t := WithReader(Shelf(k, cap, size), count);
            && "g" in t.groups && t.groups["g"] == Reader(count)
            && (forall i: nat :: i in t.messages <==> i < size)
            && forall i | i in t.messages :: t.messages[i].priority == PriorityAt(k, i)
  {
    hide PriorityAt, Range;
    assert forall i: nat :: i in Shelf(k, cap, size).messages <==> i in Range(0, size);
  }

  lemma ShelfIsCrowded(k: nat, cap: nat, high: nat, count: nat)
    ensures var t := WithReader(Shelf(k, cap, k + 1 + high), count);
            && Waits(t, "g", k) && NothingDue(t.groups["g"])
            && |Higher(t, "g", k)| == high && |Lower(t, "g", k)| == |Below(t, "g", k)| == k
  {
    hide Range, WithReader;
    OnShelf(k, cap, k + 1 + high, count);
    var t := WithReader(Shelf(k, cap, k + 1 + high), count);
    assert IsOpen(t.groups["g"], k);
    assert Higher(t, "g", k) == Range(k + 1, k + 1 + high);
    assert Below(t, "g", k) == Range(0, k);
    assert Lower(t, "g", k) == Range(0, k);
  }

  lemma ReaderPolls(k: nat, cap: nat, size: nat, asks: seq<u32>, count: nat)
    requires count + |asks| <= MAX_COUNTER && size <= MAX_COUNTER && Total(asks) <= MAX_COUNTER
    requires QueueInv(One(WithReader(Shelf(k, cap, size), count)))
    ensures PollsIn(One(WithReader(Shelf(k, cap, size), count)), "t", "g", asks, count)
  {
    hide QueueInv;
  }

  /** The requests of a queue in which the message at `k` waits behind `k` others, with as many of higher priority as the
      polls ask for. */
  function Crowd(asks: seq<u32>, count: nat, k: nat): seq<Request> {
    Setup(k, k + 1 + Total(asks), k + 1 + Total(asks), count)
  }

  /** If the polls reserve no more places than there are messages below it, a message can be in none of the answers: a run
      from the empty queue leads to such a state. */
  lemma MessageCanWait(asks: seq<u32>, count: nat, k: nat)
    requires count + |asks| <= MAX_COUNTER && k + 1 + Total(asks) <= MAX_COUNTER && Reserves(asks, count) <= k
    ensures var q := Run(EMPTY_QUEUE, Crowd(asks, count, k));
            StartsBehind(q, "t", "g", k, asks, count, k) && NeverAnswered(q, Asking("t", "g", asks), "t", "g", k)
  {
    hide QueueInv, Shelf, Run, WithReader, Setup, Waits, Higher, Lower, Below, NothingDue, PollsIn, NeverAnswered;
    var size := k + 1 + Total(asks);
    SetupMakes(k, size, size, count);
    ShelfIsCrowded(k, size, Total(asks), count);
    ReaderPolls(k, size, size, asks, count);
    CrowdStarves(One(WithReader(Shelf(k, size, size), count)), "t", "g", k, asks, count);
  }

  /** The bound is exact: a message behind `k` deliverable ones is sure to be in one of the answers, in every queue that a run
      from empty reaches, if and only if the polls reserve more than `k` places. */
  lemma WaitBoundIff(asks: seq<u32>, count: nat, k: nat)
    requires count + |asks| <= MAX_COUNTER && k + 1 + Total(asks) <= MAX_COUNTER
    ensures Reserves(asks, count) > k <==>
            forall requests, topic, n, o | StartsBehind(Run(EMPTY_QUEUE, requests), topic, n, o, asks, count, k) ::
              !NeverAnswered(Run(EMPTY_QUEUE, requests), Asking(topic, n, asks), topic, n, o)
  {
    hide Run, PollsIn, NeverAnswered, WaitsIn, Below, NothingDue, Crowd, Asking;
    if Reserves(asks, count) > k {
      forall requests, topic, n, o | StartsBehind(Run(EMPTY_QUEUE, requests), topic, n, o, asks, count, k)
        ensures !NeverAnswered(Run(EMPTY_QUEUE, requests), Asking(topic, n, asks), topic, n, o)
      {
        MustBeAnswered(Run(EMPTY_QUEUE, requests), topic, n, o, asks, count, k);
      }
    } else {
      MessageCanWait(asks, count, k);
    }
  }

  lemma MustBeAnswered(q: QueueState, topic: Name, n: Name, o: nat, asks: seq<u32>, count: nat, k: nat)
    requires StartsBehind(q, topic, n, o, asks, count, k) && Reserves(asks, count) > k
    ensures !NeverAnswered(q, Asking(topic, n, asks), topic, n, o)
  {
    hide PollsIn, NeverAnswered, Below, NothingDue, Asking;
    if NeverAnswered(q, Asking(topic, n, asks), topic, n, o) {
      UnansweredIsBehind(q, topic, n, o, asks, count);
    }
  }

  // ---------------------------------------------------------------- polls alone are no bound

  /** One message at a time, and nothing whenever the poll would reserve a place. */
  function Sparing(count: nat, polls: nat): seq<u32>
    decreases polls
  {
    if polls == 0 then [] else [if (count + 1) % RESERVED_DEN == 0 then 0 else 1] + Sparing(count + 1, polls - 1)
  }

  lemma {:induction false} SparingReservesNothing(count: nat, polls: nat)
    ensures |Sparing(count, polls)| == polls && Total(Sparing(count, polls)) <= polls
    ensures Reserves(Sparing(count, polls), count) == 0
    decreases polls
  {
    if polls > 0 {
      SparingReservesNothing(count + 1, polls - 1);
      assert Sparing(count, polls)[1..] == Sparing(count + 1, polls - 1);
    }
  }

  /** So no number of polls alone bounds the wait: as many as the counters allow can pass over a message with nothing
      deliverable below it. */
  lemma PollCountIsNoBound(polls: nat)
    requires polls < MAX_COUNTER
    ensures var asks := Sparing(0, polls);
            var q := Run(EMPTY_QUEUE, Crowd(asks, 0, 0));
            && |asks| == polls && StartsBehind(q, "t", "g", 0, asks, 0, 0)
            && NeverAnswered(q, Asking("t", "g", asks), "t", "g", 0)
  {
    hide Run, Crowd, StartsBehind, NeverAnswered, Asking, Sparing, Total, Reserves;
    SparingReservesNothing(0, polls);
    MessageCanWait(Sparing(0, polls), 0, 0);
  }
}
