/** What one poll answers, in terms of the topic it finds: which messages, in which order, how many, and under which leases. */
module Polls {
  import opened Collections
  import opened Model
  import opened Groups
  import opened Selection
  import opened Topics
  import opened TopicFacts
  import opened Queue
  import opened Invariant
  import opened Progress
  import opened Runs
  import opened Delivery
  import opened Fairness

  /** The group's record outlives a sweep at this clock: active within seven days, or never yet, or holding a lease that is
      not due. */
  predicate Active(g: GroupState, tsMs: nat) {
    || g.lastActiveMs == 0 || tsMs <= g.lastActiveMs + 604_800_000
    || exists l :: l in g.inFlight && g.inFlight[l].deadlineMs > tsMs
  }

  /** The retained messages the group is not done with and has no running lease on. */
  function FreeAt(t: TopicState, n: Name, tsMs: nat): set<nat>
    requires n in t.groups
  {
    var g := t.groups[n];
    set p | p in t.messages && p >= g.watermark && p !in g.ackedAbove && (p in g.leasedOffsets ==> g.leasedOffsets[p] <= tsMs)
  }

  /** Those of higher priority, or of the same and earlier. */
  function Preferred(messages: map<nat, Message>, free: set<nat>, o: nat): set<nat>
    requires free <= messages.Keys && o in free
  {
    set p | p in free && (messages[p].priority > messages[o].priority || (messages[p].priority == messages[o].priority && p < o))
  }

  /** Those with lower offsets that at least `places` others are preferred to. */
  function Overlooked(messages: map<nat, Message>, free: set<nat>, o: nat, places: nat): set<nat>
    requires free <= messages.Keys && o in free
  {
    set p | p in free && p < o && |Preferred(messages, free, p)| >= places
  }

  /** What a poll for `max` messages takes. Of its places all but a quarter, and one less on every fourth poll, go by priority:
      a free message is taken if fewer others are preferred to it. The rest go to the earliest of the others. */
  predicate Takes(t: TopicState, n: Name, max: nat, tsMs: nat, o: nat)
    requires n in t.groups
  {
    var free := FreeAt(t, n, tsMs);
    var reserved := Min(max / 4 + (if (t.groups[n].pollCount + 1) % 4 == 0 then 1 else 0), max);
    && o in free
    && (|| |Preferred(t.messages, free, o)| < max - reserved
        || |Overlooked(t.messages, free, o, max - reserved)| < reserved)
  }

  // ---------------------------------------------------------------- candidates and offsets

  lemma ActiveSurvives(g: GroupState, tsMs: nat)
    ensures Active(g, tsMs) <==> Survives(g, tsMs)
  {
  }

  /** The candidates of the poll's selection are the free messages. */
  lemma CandidatesAreFree(t: TopicState, op: Op, leases: nat, n: Name)
    requires TopicInv(t, leases) && leases <= MAX_COUNTER && n in t.groups && IsPollOf(op, n) && KeepsGroup(t, op, n)
    ensures var free := FreeAt(t, n, op.tsMs);
            var swept := Sweep(t, op.tsMs).messages;
            var candidates := Candidates(swept, Refreshed(Stamped(t.groups[n], op.tsMs), op.tsMs));
            && ByOffset(candidates) && free <= t.messages.Keys && Elements(candidates) == ItemsAt(t.messages, free)
  {
    hide TopicInv, TopicStep, Sweep, Chosen, Refreshed, KeepsGroup, Stamped, Candidates, GroupInv;
    var swept := Sweep(t, op.tsMs);
    var s := Stamped(t.groups[n], op.tsMs);
    var ref := Refreshed(s, op.tsMs);
    var chosen := Chosen(swept.messages, s, op.max, op.tsMs);
    ViewOf(t, op, leases, n);
    PollLeavesOpen(t, op, leases, n, swept, ref, chosen);
    CandidatesFacts(swept.messages, ref);
    hide PollView;
    var free := FreeAt(t, n, op.tsMs);
    forall p | p in free ensures p in swept.messages && swept.messages[p] == t.messages[p] && IsOpen(ref, p) {
      FreeIsThere(swept.messages, t.messages, swept.groups, n, p, t.groups[n], op.tsMs);
    }
    SameItems(swept.messages, t.messages, ref, t.groups[n], op.tsMs, free, Candidates(swept.messages, ref));
  }

  lemma FreeIsThere(after: map<nat, Message>, before: map<nat, Message>, groups: map<Name, GroupState>, n: Name, p: nat, g: GroupState, tsMs: nat)
    requires ConsumedDropped(after, before, groups) && n in groups && groups[n] == Stamped(g, tsMs)
    requires p in before && p >= g.watermark
    ensures p in after && after[p] == before[p]
  {
  }

  lemma SameItems(swept: map<nat, Message>, messages: map<nat, Message>, ref: GroupState, g: GroupState, tsMs: nat, free: set<nat>,
                  candidates: seq<Item>)
    requires forall p | p in swept :: p in messages && swept[p] == messages[p]
    requires forall p: nat :: IsDone(ref, p) <==> IsDone(g, p)
    requires forall p :: p in ref.leasedOffsets <==> p in g.leasedOffsets && g.leasedOffsets[p] > tsMs
    requires forall p :: p in free <==>
               p in messages && p >= g.watermark && p !in g.ackedAbove && (p in g.leasedOffsets ==> g.leasedOffsets[p] <= tsMs)
    requires forall p | p in free :: p in swept
    requires forall x :: x in candidates <==> x.offset in swept && IsOpen(ref, x.offset) && x.priority == swept[x.offset].priority
    ensures Elements(candidates) == ItemsAt(messages, free)
  {
    forall x ensures x in Elements(candidates) <==> x in ItemsAt(messages, free) {
      assert IsDone(ref, x.offset) <==> IsDone(g, x.offset);
    }
  }

  lemma PreferredSize(candidates: seq<Item>, messages: map<nat, Message>, free: set<nat>, o: nat)
    requires free <= messages.Keys && o in free && Elements(candidates) == ItemsAt(messages, free)
    ensures |Ahead(candidates, Item(messages[o].priority, o))| == |Preferred(messages, free, o)|
  {
    var x := Item(messages[o].priority, o);
    ItemsAtSize(messages, Preferred(messages, free, o));
    forall y ensures y in Ahead(candidates, x) <==> y in ItemsAt(messages, Preferred(messages, free, o)) {
      assert y in candidates <==> y in Elements(candidates);
    }
    assert Ahead(candidates, x) == ItemsAt(messages, Preferred(messages, free, o));
  }

  lemma OverlookedSize(candidates: seq<Item>, messages: map<nat, Message>, free: set<nat>, o: nat, places: nat)
    requires free <= messages.Keys && o in free && Elements(candidates) == ItemsAt(messages, free)
    ensures |EarlierBehind(candidates, Item(messages[o].priority, o), places)| == |Overlooked(messages, free, o, places)|
  {
    hide Ahead, Preferred;
    var x := Item(messages[o].priority, o);
    ItemsAtSize(messages, Overlooked(messages, free, o, places));
    forall y ensures y in EarlierBehind(candidates, x, places) <==> y in ItemsAt(messages, Overlooked(messages, free, o, places)) {
      assert y in candidates <==> y in Elements(candidates);
      if y in ItemsAt(messages, free) {
        PreferredSize(candidates, messages, free, y.offset);
      }
    }
    assert EarlierBehind(candidates, x, places) == ItemsAt(messages, Overlooked(messages, free, o, places));
  }

  // ---------------------------------------------------------------- which messages

  lemma TopicAnswers(t: TopicState, op: Op, leases: nat, n: Name, o: nat)
    requires TopicInv(t, leases) && leases <= MAX_COUNTER && n in t.groups && IsPollOf(op, n) && KeepsGroup(t, op, n)
    ensures HasItem(PollTopic(t, n, op.max, op.visibilityMs, op.tsMs, leases).items, o) <==> Takes(t, n, op.max, op.tsMs, o)
  {
    hide TopicInv, Sweep, Refreshed, KeepsGroup, Stamped, Candidates, PollTopic, Preferred, Overlooked, FreeAt, HasItem,
      ReferenceSelection, Ahead, EarlierBehind, Admits, GroupEntry, ByOffset, PollView;
    var free := FreeAt(t, n, op.tsMs);
    var swept := Sweep(t, op.tsMs);
    var s := Stamped(t.groups[n], op.tsMs);
    var candidates := Candidates(swept.messages, Refreshed(s, op.tsMs));
    CandidatesAreFree(t, op, leases, n);
    ViewOf(t, op, leases, n);
    DeliveredIffChosen(t, n, op.max, op.visibilityMs, op.tsMs, leases, o);
    ChosenIsSelection(swept.messages, s, op.max, op.tsMs);
    hide Chosen;
    StampedView(t.groups[n], op.tsMs);
    SelectionOffsets(candidates, t.messages, free, op.max, s.pollCount, o);
    if o in free {
      SelectedIff(candidates, op.max, s.pollCount, Item(t.messages[o].priority, o));
      PreferredSize(candidates, t.messages, free, o);
      var reserved := Min(op.max / 4 + (if (s.pollCount + 1) % 4 == 0 then 1 else 0), op.max);
      OverlookedSize(candidates, t.messages, free, o, op.max - reserved);
    }
  }

  lemma SelectionOffsets(candidates: seq<Item>, messages: map<nat, Message>, free: set<nat>, max: nat, pollCount: nat, o: nat)
    requires ByOffset(candidates) && free <= messages.Keys && Elements(candidates) == ItemsAt(messages, free)
    ensures HasOffset(ReferenceSelection(candidates, max, pollCount), o) <==>
            o in free && Item(messages[o].priority, o) in ReferenceSelection(candidates, max, pollCount)
    ensures o in free ==> Item(messages[o].priority, o) in candidates
  {
    hide ReferenceSelection;
    var r := ReferenceSelection(candidates, max, pollCount);
    SelectionFacts(candidates, max, pollCount);
    if HasOffset(r, o) {
      var i :| 0 <= i < |r| && r[i].offset == o;
      assert r[i] in Elements(r) && r[i] in ItemsAt(messages, free);
    }
    if o in free {
      assert Item(messages[o].priority, o) in Elements(candidates);
    }
  }

  /** A poll request of an existing group, that passes the name check. */
  ghost predicate PollOf(q: QueueState, r: Request) {
    && (r.Poll? || r.PollAuto?) && |r.topic| <= 256 && |r.group| <= 256
    && r.topic in q.topics && r.group in q.topics[r.topic].groups && Active(q.topics[r.topic].groups[r.group], r.tsMs)
  }

  lemma PollTopicOf(q: QueueState, r: Request)
    requires QueueInv(q) && Headroom(q) && PollOf(q, r)
    ensures var t := q.topics[r.topic];
            && TopicInv(t, q.nextLeaseId) && q.nextLeaseId <= MAX_COUNTER
            && KeepsGroup(t, Lend(r.group, r.max, r.visibilityMs, r.tsMs), r.group)
            && Apply(q, r).1.Polled?
            && Apply(q, r).1.items == PollTopic(t, r.group, r.max, r.visibilityMs, r.tsMs, q.nextLeaseId).items
  {
    hide PollTopic, Survives, TopicInv, AckAll, Active;
    ActiveSurvives(q.topics[r.topic].groups[r.group], r.tsMs);
  }

  /** Exactly which messages a poll answers. */
  lemma AnsweredExactly(q: QueueState, r: Request, o: nat)
    requires QueueInv(q) && Headroom(q) && PollOf(q, r)
    ensures Answers(q, r, r.topic, r.group, o) <==> Takes(q.topics[r.topic], r.group, r.max, r.tsMs, o)
  {
    hide QueueInv, Headroom, Apply, PollTopic, Takes, HasItem, TopicInv, KeepsGroup, Active;
    PollTopicOf(q, r);
    TopicAnswers(q.topics[r.topic], Lend(r.group, r.max, r.visibilityMs, r.tsMs), q.nextLeaseId, r.group, o);
  }

  // ---------------------------------------------------------------- in which order, and with what

  /** The item is the message, under the next lease id but `i`. */
  predicate IsMessage(item: Delivered, t: TopicState, lease: nat) {
    && item.leaseId == lease && item.offset in t.messages
    && var m := t.messages[item.offset];
       item.priority == m.priority && item.contentType == m.contentType && item.payload == m.payload && item.tsMs == m.tsMs
  }

  predicate InOrder(items: seq<Delivered>) {
    forall i, j | 0 <= i < j < |items| ::
      items[i].priority > items[j].priority || (items[i].priority == items[j].priority && items[i].offset < items[j].offset)
  }

  lemma TopicAnswerIs(t: TopicState, op: Op, leases: nat, n: Name)
    requires TopicInv(t, leases) && leases <= MAX_COUNTER && n in t.groups && IsPollOf(op, n) && KeepsGroup(t, op, n)
    ensures var items := PollTopic(t, n, op.max, op.visibilityMs, op.tsMs, leases).items;
            && |items| == Min(op.max, |FreeAt(t, n, op.tsMs)|) && InOrder(items)
            && forall i | 0 <= i < |items| :: IsMessage(items[i], t, leases + i)
  {
    hide TopicInv, Sweep, Refreshed, KeepsGroup, Candidates, PollTopic, FreeAt, ReferenceSelection, ByOffset, Chosen, Stamped;
    var swept := Sweep(t, op.tsMs);
    var s := Stamped(t.groups[n], op.tsMs);
    var chosen := Chosen(swept.messages, s, op.max, op.tsMs);
    ViewOf(t, op, leases, n);
    CandidatesAreFree(t, op, leases, n);
    PollLeavesOpen(t, op, leases, n, swept, Refreshed(s, op.tsMs), chosen);
    ItemsAreChosen(t, n, op.max, op.visibilityMs, op.tsMs, leases);
    hide PollView, GroupEntry, Admits;
    ChosenFacts(swept.messages, s, op.max, op.tsMs);
    var candidates := Candidates(swept.messages, Refreshed(s, op.tsMs));
    ItemsAtSize(t.messages, FreeAt(t, n, op.tsMs));
    ByOffsetKeyed(candidates);
    DistinctSize(candidates);
    KeptMessages(swept.messages, t.messages, swept.groups);
    forall i | 0 <= i < |chosen| ensures chosen[i].priority == swept.messages[chosen[i].offset].priority {
      assert chosen[i] in chosen;
    }
  }

  lemma KeptMessages(after: map<nat, Message>, before: map<nat, Message>, groups: map<Name, GroupState>)
    requires ConsumedDropped(after, before, groups)
    ensures forall p | p in after :: p in before && after[p] == before[p]
  {
  }

  /** The answer has as many messages as were asked for and are free, by priority and then by offset, each as it is stored and
      under lease ids that continue the queue's. */
  lemma AnswerIs(q: QueueState, r: Request)
    requires QueueInv(q) && Headroom(q) && PollOf(q, r)
    ensures var t, response := q.topics[r.topic], Apply(q, r).1;
            && response.Polled? && |response.items| == Min(r.max, |FreeAt(t, r.group, r.tsMs)|) && InOrder(response.items)
            && forall i | 0 <= i < |response.items| :: IsMessage(response.items[i], t, q.nextLeaseId + i)
  {
    hide QueueInv, Headroom, Apply, PollTopic, FreeAt, TopicInv, KeepsGroup, Active, InOrder, IsMessage;
    PollTopicOf(q, r);
    TopicAnswerIs(q.topics[r.topic], Lend(r.group, r.max, r.visibilityMs, r.tsMs), q.nextLeaseId, r.group);
  }

  // ---------------------------------------------------------------- and again from the deadline on

  /** A poll for at least as many messages as are free takes them all. */
  lemma AllAreTaken(t: TopicState, op: Op, leases: nat, n: Name, o: nat)
    requires TopicInv(t, leases) && leases <= MAX_COUNTER && n in t.groups && IsPollOf(op, n) && KeepsGroup(t, op, n)
    requires |FreeAt(t, n, op.tsMs)| <= op.max && o in FreeAt(t, n, op.tsMs)
    ensures HasItem(PollTopic(t, n, op.max, op.visibilityMs, op.tsMs, leases).items, o)
  {
    hide TopicInv, Sweep, Refreshed, KeepsGroup, Stamped, Candidates, PollTopic, FreeAt, HasItem, ReferenceSelection, Admits,
      GroupEntry, ByOffset, PollView;
    var free := FreeAt(t, n, op.tsMs);
    var swept := Sweep(t, op.tsMs);
    var s := Stamped(t.groups[n], op.tsMs);
    var candidates := Candidates(swept.messages, Refreshed(s, op.tsMs));
    CandidatesAreFree(t, op, leases, n);
    ViewOf(t, op, leases, n);
    DeliveredIffChosen(t, n, op.max, op.visibilityMs, op.tsMs, leases, o);
    ChosenIsSelection(swept.messages, s, op.max, op.tsMs);
    hide Chosen;
    SelectionOffsets(candidates, t.messages, free, op.max, s.pollCount, o);
    AllSelected(candidates, t.messages, free, op.max, s.pollCount, Item(t.messages[o].priority, o));
  }

  lemma AllSelected(candidates: seq<Item>, messages: map<nat, Message>, free: set<nat>, max: nat, pollCount: nat, x: Item)
    requires ByOffset(candidates) && free <= messages.Keys && Elements(candidates) == ItemsAt(messages, free)
    requires |free| <= max && x in candidates
    ensures x in ReferenceSelection(candidates, max, pollCount)
  {
    hide ReferenceSelection;
    var r := ReferenceSelection(candidates, max, pollCount);
    SelectionFacts(candidates, max, pollCount);
    ItemsAtSize(messages, free);
    ByOffsetKeyed(candidates);
    DistinctSize(candidates);
    DistinctSize(r);
    if x !in r {
      SubsetSize(Elements(r), Elements(candidates) - {x});
    }
  }

  lemma DueIsFree(t: TopicState, leases: nat, n: Name, l: nat, o: nat, deadline: nat, tsMs: nat)
    requires TopicInv(t, leases) && n in t.groups && !IsDone(t.groups[n], o) && deadline <= tsMs
    requires l in t.groups[n].inFlight && t.groups[n].inFlight[l] == Lease(o, deadline)
    ensures o in FreeAt(t, n, tsMs)
  {
    GroupOf(t, leases, n);
    assert Retains(t.messages, Base(t), t.nextOffset);
  }

  lemma HolderIsActive(g: GroupState, o: nat, l: nat, deadline: nat, tsMs: nat)
    requires GroupHolds(g, o, l, deadline) && tsMs <= deadline + 561_600_000
    ensures Active(g, tsMs)
  {
  }

  lemma FreeWithin(t: TopicState, n: Name, tsMs: nat)
    requires n in t.groups
    ensures |FreeAt(t, n, tsMs)| <= |t.messages|
  {
    SubsetSize(FreeAt(t, n, tsMs), t.messages.Keys);
    assert |t.messages| == |t.messages.Keys|;
  }

  lemma HolderPolls(q: QueueState, again: Request, o: nat, l: nat, deadline: nat)
    requires (again.Poll? || again.PollAuto?) && ConsumerOk(again.topic, again.group) && again.tsMs <= deadline + 561_600_000
    requires Holds(q, again.topic, again.group, o, l, deadline) && !DoneIn(q, again.topic, again.group, o)
    ensures PollOf(q, again)
    ensures var g := q.topics[again.topic].groups[again.group];
            !IsDone(g, o) && l in g.inFlight && g.inFlight[l] == Lease(o, deadline)
  {
    hide Active;
    HolderIsActive(q.topics[again.topic].groups[again.group], o, l, deadline, again.tsMs);
  }

  /** A holder whose lease is due is answered the message by a poll that asks for enough. */
  lemma HolderIsServed(q: QueueState, again: Request, o: nat, l: nat, deadline: nat)
    requires QueueInv(q) && Headroom(q) && (again.Poll? || again.PollAuto?) && ConsumerOk(again.topic, again.group)
    requires Holds(q, again.topic, again.group, o, l, deadline) && !DoneIn(q, again.topic, again.group, o)
    requires deadline <= again.tsMs <= deadline + 561_600_000 && again.max >= |q.topics[again.topic].messages|
    ensures Answers(q, again, again.topic, again.group, o)
  {
    hide QueueInv, Headroom, Apply, PollTopic, FreeAt, HasItem, TopicInv, KeepsGroup, Active, PollOf, ConsumerOk, GroupHolds;
    var t := q.topics[again.topic];
    HolderPolls(q, again, o, l, deadline);
    PollTopicOf(q, again);
    DueIsFree(t, q.nextLeaseId, again.group, l, o, deadline, again.tsMs);
    FreeWithin(t, again.group, again.tsMs);
    AllAreTaken(t, Lend(again.group, again.max, again.visibilityMs, again.tsMs), q.nextLeaseId, again.group, o);
  }

  /** Redelivery: a message handed out by a poll and never acknowledged is open to its group again from the deadline on, which
      is the poll's clock plus the visibility it asked for, at most twelve hours. Whatever happens in between, as long as
      nothing frees or finishes it earlier, a poll at the deadline or within six and a half days after it that asks for
      enough is answered the message. */
  lemma RedeliveredFromDeadline(q: QueueState, r: Request, i: nat, later: seq<Request>, again: Request)
    requires QueueInv(q) && BelowCeiling(q, [r] + later)
    requires (r.Poll? || r.PollAuto?) && Apply(q, r).1.Polled? && i < |Apply(q, r).1.items|
    requires var item := Apply(q, r).1.items[i];
             var deadline := SatAdd(r.tsMs, Min(r.visibilityMs, 43_200_000));
             var end := Run(Apply(q, r).0, later);
             && (forall x | x in later :: !RequestMayFree(x, r.topic, r.group, item.leaseId, deadline))
             && !DoneIn(end, r.topic, r.group, item.offset)
             && (again.Poll? || again.PollAuto?) && again.topic == r.topic && again.group == r.group
             && deadline <= again.tsMs <= deadline + 561_600_000
             && (r.topic in end.topics ==> again.max >= |end.topics[r.topic].messages|)
    ensures Answers(Run(Apply(q, r).0, later), again, r.topic, r.group, Apply(q, r).1.items[i].offset)
  {
    hide QueueInv, Apply, RequestMayFree, CountersBelow, GroupHolds, DoneIn, Answers, ConsumerOk;
    assert ([r] + later)[1..] == later;
    var next := Apply(q, r).0;
    assert BelowCeiling(next, later);
    CountersGiveHeadroom(q);
    CountersGiveHeadroom(next);
    var item := Apply(q, r).1.items[i];
    var deadline := SatAdd(r.tsMs, Min(r.visibilityMs, 43_200_000));
    assert DeadlineOf(r.tsMs, r.visibilityMs) == deadline;
    AnswerHolds(q, r, i);
    ApplyKeeps(q, r);
    HoldsOverRequests(next, later, r.topic, r.group, item.offset, item.leaseId, deadline);
    RunKeeps(next, later);
    CountersGiveHeadroom(Run(next, later));
    AcceptedPoll(q, r);
    HolderIsServed(Run(next, later), again, item.offset, item.leaseId, deadline);
  }

  lemma AcceptedPoll(q: QueueState, r: Request)
    requires (r.Poll? || r.PollAuto?) && Apply(q, r).1.Polled?
    ensures ConsumerOk(r.topic, r.group)
  {
    hide Items, Step, AckAll;
  }
}
