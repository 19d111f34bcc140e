/** How long a message can wait: exactly as long as the reserved places of its group's polls do not outnumber the deliverable
    messages below it. */
module Starvation {
  import opened Collections
  import opened Model
  import opened Groups
  import opened Selection
  import opened Topics
  import opened TopicFacts
  import opened Queue
  import opened Invariant
  import opened Progress
  import opened Delivery
  import opened Fairness

  /** The deliverable messages of higher priority. */
  function Higher(t: TopicState, n: Name, o: nat): set<nat>
    requires n in t.groups && o in t.messages
  {
    set p | p in t.messages && IsOpen(t.groups[n], p) && t.messages[p].priority > t.messages[o].priority
  }

  /** The deliverable messages below it of lower priority. */
  function Lower(t: TopicState, n: Name, o: nat): set<nat>
    requires n in t.groups && o in t.messages
  {
    set p | p in Below(t, n, o) && t.messages[p].priority < t.messages[o].priority
  }

  /** A poll passes over a message with enough deliverable ones of higher priority for its places by priority and enough
      earlier ones of lower priority for its reserved places. */
  lemma SelectionSkips(messages: map<nat, Message>, s: GroupState, max: nat, tsMs: nat, o: nat, higher: set<nat>, lower: set<nat>)
    requires o in messages && IsOpen(Refreshed(s, tsMs), o)
    requires PrioritySlots(max, s.pollCount) <= |higher| && max - PrioritySlots(max, s.pollCount) <= |lower|
    requires forall p | p in higher ::
               p in messages && IsOpen(Refreshed(s, tsMs), p) && messages[p].priority > messages[o].priority
    requires forall p | p in lower ::
               p in messages && IsOpen(Refreshed(s, tsMs), p) && messages[p].priority < messages[o].priority && p < o
    ensures !HasOffset(Chosen(messages, s, max, tsMs), o)
    ensures |OffsetsIn(Chosen(messages, s, max, tsMs)) * lower| <= max - PrioritySlots(max, s.pollCount)
  {
    hide Chosen, Refreshed, ReferenceSelection, Candidates, IsOpen;
    var ref := Refreshed(s, tsMs);
    var candidates := Candidates(messages, ref);
    ChosenIsSelection(messages, s, max, tsMs);
    CandidatesFacts(messages, ref);
    ItemsAtSize(messages, higher);
    ItemsAtSize(messages, lower);
    var x := Item(messages[o].priority, o);
    assert x in candidates;
    CrowdPassesOver(candidates, max, s.pollCount, x, ItemsAt(messages, higher), ItemsAt(messages, lower));
    ChosenFacts(messages, s, max, tsMs);
    LowerChosen(messages, Chosen(messages, s, max, tsMs), lower);
  }

  lemma LowerChosen(messages: map<nat, Message>, chosen: seq<Item>, lower: set<nat>)
    requires lower <= messages.Keys
    requires forall x | x in chosen :: x.offset in messages && x.priority == messages[x.offset].priority
    ensures |OffsetsIn(chosen) * lower| <= |Elements(chosen) * ItemsAt(messages, lower)|
  {
    var both := OffsetsIn(chosen) * lower;
    ItemsAtSize(messages, both);
    forall x | x in ItemsAt(messages, both) ensures x in Elements(chosen) * ItemsAt(messages, lower) {
      var y :| y in chosen && y.offset == x.offset;
      assert y == x;
    }
    SubsetSize(ItemsAt(messages, both), Elements(chosen) * ItemsAt(messages, lower));
  }

  /** The message waits behind enough others for a poll of this size. */
  ghost predicate Crowds(t: TopicState, n: Name, o: nat, max: nat) {
    && Waits(t, n, o)
    && var slots := PrioritySlots(max, t.groups[n].pollCount);
       slots <= |Higher(t, n, o)| && max - slots <= |Lower(t, n, o)|
  }

  lemma SkippingSelection(t: TopicState, op: Op, leases: nat, n: Name, o: nat)
    requires TopicInv(t, leases) && leases <= MAX_COUNTER && IsPollOf(op, n) && Crowds(t, n, o, op.max) && KeepsGroup(t, op, n)
    ensures var swept := Sweep(t, op.tsMs);
            var s := Stamped(t.groups[n], op.tsMs);
            var chosen := Chosen(swept.messages, s, op.max, op.tsMs);
            && PollView(t, op, leases, n, swept, Refreshed(s, op.tsMs), chosen)
            && GroupEntry(swept, n, Some(op.tsMs)) == s && Admits(swept, n)
            && !HasOffset(chosen, o) && |chosen| <= op.max
            && |OffsetsIn(chosen) * Lower(t, n, o)| <= op.max - PrioritySlots(op.max, t.groups[n].pollCount)
  {
    hide TopicInv, Sweep, Chosen, Refreshed, KeepsGroup, HasOffset, PollView, Admits, GroupEntry;
    var swept := Sweep(t, op.tsMs);
    var s := Stamped(t.groups[n], op.tsMs);
    var ref := Refreshed(s, op.tsMs);
    var chosen := Chosen(swept.messages, s, op.max, op.tsMs);
    ViewOf(t, op, leases, n);
    forall p | p in t.messages && IsOpen(t.groups[n], p)
      ensures p in swept.messages && swept.messages[p] == t.messages[p] && IsOpen(ref, p)
    {
      StillOpen(t, op, leases, n, swept, ref, chosen, p);
    }
    SelectionSkips(swept.messages, s, op.max, op.tsMs, o, Higher(t, n, o), Lower(t, n, o));
    ChosenFacts(swept.messages, s, op.max, op.tsMs);
  }

  lemma SkippingPoll(t: TopicState, op: Op, leases: nat, n: Name, o: nat)
    requires TopicInv(t, leases) && leases <= MAX_COUNTER && IsPollOf(op, n) && Crowds(t, n, o, op.max) && KeepsGroup(t, op, n)
    ensures !HasItem(PollTopic(t, n, op.max, op.visibilityMs, op.tsMs, leases).items, o)
    ensures var r := TopicStep(t, op, leases).0;
            && Waits(r, n, o) && |Higher(t, n, o)| <= |Higher(r, n, o)| + op.max
            && |Lower(t, n, o)| <= |Lower(r, n, o)| + Reserved(t, op, n)
  {
    hide TopicInv, TopicStep, Sweep, Chosen, Refreshed, PollTopic, KeepsGroup, HasItem, PollView, Stamped, Admits, GroupEntry;
    var r := TopicStep(t, op, leases).0;
    var swept := Sweep(t, op.tsMs);
    var s := Stamped(t.groups[n], op.tsMs);
    var chosen := Chosen(swept.messages, s, op.max, op.tsMs);
    SkippingSelection(t, op, leases, n, o);
    DeliveredIffChosen(t, n, op.max, op.visibilityMs, op.tsMs, leases, o);
    OffsetsAtMost(chosen);
    PollLeavesOpen(t, op, leases, n, swept, Refreshed(s, op.tsMs), chosen);
    hide IsOpen, HasOffset, ConsumedDropped, Lower, Higher;
    forall p | p in t.messages && IsOpen(t.groups[n], p) && !HasOffset(chosen, p)
      ensures p in r.messages && r.messages[p] == t.messages[p] && IsOpen(r.groups[n], p)
    {
      StillOpen(t, op, leases, n, swept, Refreshed(s, op.tsMs), chosen, p);
    }
    CrowdLeft(t, r, n, o, chosen);
  }

  lemma CrowdLeft(t: TopicState, r: TopicState, n: Name, o: nat, chosen: seq<Item>)
    requires Waits(t, n, o) && Waits(r, n, o) && r.messages[o] == t.messages[o]
    requires forall p | p in t.messages && IsOpen(t.groups[n], p) && !HasOffset(chosen, p) ::
               p in r.messages && r.messages[p] == t.messages[p] && IsOpen(r.groups[n], p)
    ensures |Higher(t, n, o)| <= |Higher(r, n, o)| + |OffsetsIn(chosen)|
    ensures |Lower(t, n, o)| <= |Lower(r, n, o)| + |OffsetsIn(chosen) * Lower(t, n, o)|
  {
    hide IsOpen;
    var taken := OffsetsIn(chosen);
    assert Higher(t, n, o) - taken <= Higher(r, n, o);
    SubsetSize(Higher(t, n, o) - taken, Higher(r, n, o));
    RemovedSize(Higher(t, n, o), taken);
    assert Lower(t, n, o) - taken * Lower(t, n, o) <= Lower(r, n, o);
    SubsetSize(Lower(t, n, o) - taken * Lower(t, n, o), Lower(r, n, o));
    RemovedSize(Lower(t, n, o), taken * Lower(t, n, o));
  }

  lemma RemovedSize(a: set<nat>, b: set<nat>)
    ensures |a| <= |a - b| + |b|
  {
    assert a == (a - b) + (a * b);
    SubsetSize(a * b, b);
  }

  lemma {:induction false} OffsetsAtMost(items: seq<Item>)
    ensures |OffsetsIn(items)| <= |items|
    decreases |items|
  {
    if items == [] {
      assert OffsetsIn(items) == {};
    } else {
      OffsetsAtMost(items[1..]);
      assert items == [items[0]] + items[1..];
      assert OffsetsIn(items) == {items[0].offset} + OffsetsIn(items[1..]);
    }
  }

  // ---------------------------------------------------------------- polls in a row

  /** Polls of the group for these numbers of messages, all at one clock. */
  function Asking(topic: Name, n: Name, asks: seq<u32>): seq<Request>
    decreases |asks|
  {
    if asks == [] then [] else [Poll(topic, n, asks[0], 1000, 1)] + Asking(topic, n, asks[1..])
  }

  function Total(asks: seq<u32>): nat
    decreases |asks|
  {
    if asks == [] then 0 else asks[0] + Total(asks[1..])
  }

  /** The places they reserve, from this poll count on. */
  function Reserves(asks: seq<u32>, count: nat): nat
    decreases |asks|
  {
    if asks == [] then 0 else asks[0] - PrioritySlots(asks[0], count) + Reserves(asks[1..], count + 1)
  }

  /** The group is active and has counted so many polls, with room for these. */
  ghost predicate Polls(t: TopicState, n: Name, asks: seq<u32>, count: nat) {
    && n in t.groups && t.groups[n].pollCount == count && count + |asks| <= MAX_COUNTER
    && t.groups[n].lastActiveMs >= 1
  }

  ghost predicate PollsIn(q: QueueState, topic: Name, n: Name, asks: seq<u32>, count: nat) {
    && QueueInv(q) && Headroom(q) && topic in q.topics && ConsumerOk(topic, n)
    && Polls(q.topics[topic], n, asks, count)
    && q.nextLeaseId + Total(asks) <= MAX_COUNTER
  }

  lemma RecentSurvives(g: GroupState)
    requires g.lastActiveMs >= 1
    ensures Survives(g, 1)
  {
  }

  lemma ActiveMoved(h: GroupState, g: GroupState, t: TopicState, op: Op, n: Name, base: nat)
    requires Moved(h, g, t, op, n, base)
    ensures g.lastActiveMs <= h.lastActiveMs
  {
  }

  lemma LeasesUsed(t: TopicState, n: Name, max: u32, lease: nat)
    requires TopicInv(t, lease) && lease <= MAX_COUNTER
    ensures var r := TopicStep(t, Lend(n, max, 1000, 1), lease);
            r.1 <= lease + max && r.0.nextOffset == t.nextOffset
  {
    hide TopicInv, Sweep, Chosen, Refreshed, IssueLeases, Deliveries;
    PollKeeps(t, n, max, 1000, 1, lease);
    var swept := Sweep(t, 1);
    ChosenFacts(swept.messages, GroupEntry(swept, n, Some(1)), max, 1);
  }

  lemma PollsTopicStep(t: TopicState, leases: nat, n: Name, asks: seq<u32>, count: nat)
    requires TopicInv(t, leases) && leases <= MAX_COUNTER && t.nextOffset <= MAX_COUNTER
    requires asks != [] && Polls(t, n, asks, count)
    ensures KeepsGroup(t, Lend(n, asks[0], 1000, 1), n)
    ensures Polls(TopicStep(t, Lend(n, asks[0], 1000, 1), leases).0, n, asks[1..], count + 1)
  {
    hide TopicInv, TopicStep, Moved, Survives;
    var op := Lend(n, asks[0], 1000, 1);
    RecentSurvives(t.groups[n]);
    GroupMoves(t, op, leases, n);
    var r := TopicStep(t, op, leases).0;
    CountMoved(r.groups[n], t.groups[n], t, op, n, Base(r));
    ActiveMoved(r.groups[n], t.groups[n], t, op, n, Base(r));
  }

  /** One of the polls: what it does to the topic, and that the rest can follow. */
  lemma PollsStep(q: QueueState, topic: Name, n: Name, asks: seq<u32>, count: nat)
    requires asks != [] && PollsIn(q, topic, n, asks, count)
    ensures var t := q.topics[topic];
            var op := Lend(n, asks[0], 1000, 1);
            var r := Apply(q, Poll(topic, n, asks[0], 1000, 1)).0;
            && TopicInv(t, q.nextLeaseId) && q.nextLeaseId <= MAX_COUNTER && KeepsGroup(t, op, n)
            && PollsIn(r, topic, n, asks[1..], count + 1)
            && topic in r.topics && r.topics[topic] == TopicStep(t, op, q.nextLeaseId).0
    ensures forall o: nat :: Answers(q, Poll(topic, n, asks[0], 1000, 1), topic, n, o) <==>
              HasItem(PollTopic(q.topics[topic], n, asks[0], 1000, 1, q.nextLeaseId).items, o)
  {
    hide QueueInv, TopicStep, PollTopic, HasItem, Polls, ConsumerOk, KeepsGroup, TopicInv;
    TopicOf(q, topic);
    PollsTopicStep(q.topics[topic], q.nextLeaseId, n, asks, count);
    LeasesUsed(q.topics[topic], n, asks[0], q.nextLeaseId);
    StepKeeps(q, Call(topic, Lend(n, asks[0], 1000, 1)));
  }

  // ---------------------------------------------------------------- few reserved places: it can wait

  /** If there are enough deliverable messages of higher priority for all the polls, and enough earlier ones of lower priority
      for all their reserved places, the message is in no answer. */
  lemma {:induction false} CrowdStarves(q: QueueState, topic: Name, n: Name, o: nat, asks: seq<u32>, count: nat)
    requires PollsIn(q, topic, n, asks, count) && WaitsIn(q, topic, n, o)
    requires Total(asks) <= |Higher(q.topics[topic], n, o)| && Reserves(asks, count) <= |Lower(q.topics[topic], n, o)|
    ensures NeverAnswered(q, Asking(topic, n, asks), topic, n, o)
    decreases |asks|
  {
    hide PollsIn, Apply, Answers, TopicInv, KeepsGroup, Higher, Lower, TopicStep, PollTopic, HasItem, PrioritySlots;
    if asks != [] {
      var t := q.topics[topic];
      PollsStep(q, topic, n, asks, count);
      CountOf(q, topic, n, asks, count);
      SkippingPoll(t, Lend(n, asks[0], 1000, 1), q.nextLeaseId, n, o);
      CrowdStarves(Apply(q, Poll(topic, n, asks[0], 1000, 1)).0, topic, n, o, asks[1..], count + 1);
    }
  }

  lemma CountOf(q: QueueState, topic: Name, n: Name, asks: seq<u32>, count: nat)
    requires PollsIn(q, topic, n, asks, count)
    ensures topic in q.topics && n in q.topics[topic].groups && q.topics[topic].groups[n].pollCount == count
  {
    hide QueueInv, Headroom;
  }

  // ---------------------------------------------------------------- many: it cannot

  /** No lease of the group is due at the polls' clock. */
  predicate NothingDue(g: GroupState) { forall l | l in g.inFlight :: g.inFlight[l].deadlineMs > 1 }

  lemma NothingComesBack(t: TopicState, n: Name, max: u32, o: nat)
    requires n in t.groups && NothingDue(t.groups[n])
    ensures Back(t, Lend(n, max, 1000, 1), n, o) == {}
  {
  }

  lemma StillNothingDue(t: TopicState, leases: nat, n: Name, max: u32)
    requires TopicInv(t, leases) && leases <= MAX_COUNTER && n in t.groups && KeepsGroup(t, Lend(n, max, 1000, 1), n)
    ensures var r := TopicStep(t, Lend(n, max, 1000, 1), leases).0; n in r.groups && NothingDue(r.groups[n])
  {
    hide TopicInv, Sweep, Chosen, Refreshed, IssueLeases, KeepsGroup, Deliveries, Admits, GroupEntry, Base, GroupInv;
    ViewOf(t, Lend(n, max, 1000, 1), leases, n);
    SweepFacts(t, 1, leases);
    var swept := Sweep(t, 1);
    var entry := GroupEntry(swept, n, Some(1));
    PolledFacts(swept, n, max, 1000, 1, leases);
    EntryKeeps(swept, n, Some(1), leases);
    RefreshedFacts(entry, 1, Base(swept), swept.nextOffset, leases);
    DueAfter(TopicFacts.Polled(swept, n, max, 1000, 1, leases), Refreshed(entry, 1),
             Chosen(swept.messages, entry, max, 1), leases);
  }

  lemma DueAfter(h: GroupState, r: GroupState, chosen: seq<Item>, leases: nat)
    requires Issued(h, r, chosen, leases, DeadlineOf(1, 1000)) && NothingDue(r)
    ensures NothingDue(h)
  {
    forall l | l in h.inFlight ensures h.inFlight[l].deadlineMs > 1 {
      if l !in r.inFlight {
        assert h.inFlight[leases + (l - leases)] == Lease(chosen[l - leases].offset, DeadlineOf(1, 1000));
      }
    }
  }

  /** A message that is in no answer has at least as many deliverable ones below it as the polls reserve places. */
  lemma {:induction false} UnansweredIsBehind(q: QueueState, topic: Name, n: Name, o: nat, asks: seq<u32>, count: nat)
    requires PollsIn(q, topic, n, asks, count) && WaitsIn(q, topic, n, o) && NothingDue(q.topics[topic].groups[n])
    requires NeverAnswered(q, Asking(topic, n, asks), topic, n, o)
    ensures Reserves(asks, count) <= |Below(q.topics[topic], n, o)|
    decreases |asks|
  {
    hide PollsIn, Apply, Answers, TopicInv, KeepsGroup, Below, TopicStep, PollTopic, HasItem, PrioritySlots, NothingDue, Back;
    if asks != [] {
      var t := q.topics[topic];
      PollsStep(q, topic, n, asks, count);
      CountOf(q, topic, n, asks, count);
      NothingComesBack(t, n, asks[0], o);
      PassedOver(t, Lend(n, asks[0], 1000, 1), q.nextLeaseId, n, o);
      StillNothingDue(t, q.nextLeaseId, n, asks[0]);
      UnansweredIsBehind(Apply(q, Poll(topic, n, asks[0], 1000, 1)).0, topic, n, o, asks[1..], count + 1);
    }
  }
}
