/** Who gets which message when: leases are exclusive, done is forever, nobody starves. */
module Delivery {
  import opened Collections
  import opened Model
  import opened Groups
  import opened Selection
  import opened Topics
  import opened TopicFacts
  import opened Queue
  import opened Invariant
  import opened Progress
  import opened Runs

  // ---------------------------------------------------------------- what a poll hands out

  predicate HasItem(items: seq<Delivered>, offset: nat) {
    exists i :: 0 <= i < |items| && items[i].offset == offset
  }

  /** The operation hands the offset to the group. */
  predicate Delivers(q: QueueState, call: Call, topic: Name, group: Name, offset: nat) {
    && call.topic == topic && call.op.Lend? && call.op.group == group
    && HasItem(Items(q, topic, group, call.op.max, call.op.visibilityMs, call.op.tsMs), offset)
  }

  /** What a poll hands out is its choice, under consecutive leases. */
  lemma ItemsAreChosen(t: TopicState, group: Name, max: u32, visibilityMs: nat, tsMs: nat, nextLease: nat)
    requires TopicInv(t, nextLease) && nextLease <= MAX_COUNTER && Admits(Sweep(t, tsMs), group)
    ensures var swept := Sweep(t, tsMs);
            var chosen := Chosen(swept.messages, GroupEntry(swept, group, Some(tsMs)), max, tsMs);
            var items := PollTopic(t, group, max, visibilityMs, tsMs, nextLease).items;
            && |items| == |chosen|
            && forall i | 0 <= i < |chosen| ::
                 && chosen[i].offset in swept.messages
                 && items[i] == Delivery(nextLease + i, chosen[i].offset, swept.messages[chosen[i].offset])
  {
    hide TopicInv, Sweep, Chosen, Refreshed, IssueLeases, Admits;
    SweepFacts(t, tsMs, nextLease);
    var swept := Sweep(t, tsMs);
    PollAdmitted(swept, group, max, visibilityMs, tsMs, nextLease);
    var chosen := Chosen(swept.messages, GroupEntry(swept, group, Some(tsMs)), max, tsMs);
    forall i | 0 <= i < |chosen|
      ensures Deliveries(swept.messages, chosen, nextLease)[i] ==
              Delivery(nextLease + i, chosen[i].offset, swept.messages[chosen[i].offset])
    {
      DeliveriesFacts(swept.messages, chosen, nextLease, i);
    }
  }

  lemma DeliveredIffChosen(t: TopicState, group: Name, max: u32, visibilityMs: nat, tsMs: nat, nextLease: nat, o: nat)
    requires TopicInv(t, nextLease) && nextLease <= MAX_COUNTER && Admits(Sweep(t, tsMs), group)
    ensures var swept := Sweep(t, tsMs);
            HasItem(PollTopic(t, group, max, visibilityMs, tsMs, nextLease).items, o) <==>
            HasOffset(Chosen(swept.messages, GroupEntry(swept, group, Some(tsMs)), max, tsMs), o)
  {
    hide TopicInv, Sweep, Chosen, PollTopic, Admits, GroupEntry;
    ItemsAreChosen(t, group, max, visibilityMs, tsMs, nextLease);
    var swept := Sweep(t, tsMs);
    var chosen := Chosen(swept.messages, GroupEntry(swept, group, Some(tsMs)), max, tsMs);
    var items := PollTopic(t, group, max, visibilityMs, tsMs, nextLease).items;
    if HasItem(items, o) {
      var i :| 0 <= i < |items| && items[i].offset == o;
      assert chosen[i].offset == o;
    }
    if HasOffset(chosen, o) {
      var i :| 0 <= i < |chosen| && chosen[i].offset == o;
      assert items[i].offset == o;
    }
  }

  /** A living group is only handed offsets that are neither done nor under an unexpired lease. */
  lemma DeliveredWasFree(t: TopicState, op: Op, leases: nat, n: Name, o: nat)
    requires TopicInv(t, leases) && leases <= MAX_COUNTER
    requires op.Lend? && op.group == n && n in t.groups && KeepsGroup(t, op, n)
    requires HasItem(PollTopic(t, n, op.max, op.visibilityMs, op.tsMs, leases).items, o)
    ensures var g := t.groups[n];
            && o in t.messages && !IsDone(g, o)
            && (o in g.leasedOffsets ==> g.leasedOffsets[o] <= op.tsMs)
  {
    var g := t.groups[n];
    assert GroupInv(g, Base(t), t.nextOffset, leases);
    hide TopicInv, GroupInv, Sweep, Chosen, PollTopic, Survives, Refreshed, Stamped, Base;
    var swept := Sweep(t, op.tsMs);
    SweptGroup(t, op.tsMs, leases, n);
    SweepFacts(t, op.tsMs, leases);
    DeliveredIffChosen(t, n, op.max, op.visibilityMs, op.tsMs, leases, o);
    var entry := GroupEntry(swept, n, Some(op.tsMs));
    ChosenFacts(swept.messages, entry, op.max, op.tsMs);
    var chosen := Chosen(swept.messages, entry, op.max, op.tsMs);
    var i :| 0 <= i < |chosen| && chosen[i].offset == o;
    assert chosen[i] in chosen;
    StampedKeeps(g, op.tsMs, Base(t), t.nextOffset, leases);
    RefreshedFacts(entry, op.tsMs, Base(t), t.nextOffset, leases);
    StampedView(g, op.tsMs);
  }

  lemma StampedView(g: GroupState, nowMs: nat)
    ensures Stamped(g, nowMs) == g.(lastActiveMs := Stamped(g, nowMs).lastActiveMs)
    ensures forall o: nat :: IsDone(Stamped(g, nowMs), o) <==> IsDone(g, o)
  {
  }

  // ---------------------------------------------------------------- lease exclusivity

  /** The group still holds lease `l` on the offset until `deadline`, or is done with it. */
  ghost predicate GroupHolds(g: GroupState, o: nat, l: nat, deadline: nat) {
    && ((l in g.inFlight && g.inFlight[l] == Lease(o, deadline)) || IsDone(g, o))
    && deadline <= g.lastActiveMs + MAX_VISIBILITY_MS
  }

  ghost predicate Holds(q: QueueState, topic: Name, n: Name, o: nat, l: nat, deadline: nat) {
    topic in q.topics && n in q.topics[topic].groups && GroupHolds(q.topics[topic].groups[n], o, l, deadline)
  }

  /** The operation may give the offset back: it deletes the topic, gives lease `l` back, or carries a clock at
      or past the deadline to the topic. */
  predicate MayFree(call: Call, topic: Name, n: Name, l: nat, deadline: nat) {
    && call.topic == topic
    && (|| call.op.Remove?
        || (call.op.Release? && call.op.group == n && call.op.leaseId == l)
        || (ClockOf(call.op).Some? && ClockOf(call.op).value >= deadline))
  }

  /** A holder lives through every sweep before the deadline. */
  lemma HolderSurvives(g: GroupState, o: nat, l: nat, deadline: nat, nowMs: nat)
    requires GroupHolds(g, o, l, deadline) && nowMs < deadline
    ensures Survives(g, nowMs)
  {
  }

  lemma MovedHolds(h: GroupState, g: GroupState, t: TopicState, op: Op, n: Name, base: nat, o: nat, l: nat, deadline: nat)
    requires Moved(h, g, t, op, n, base) && GroupHolds(g, o, l, deadline)
    requires !(op.Release? && op.group == n && op.leaseId == l)
    requires ClockOf(op).Some? ==> ClockOf(op).value < deadline
    ensures GroupHolds(h, o, l, deadline)
  {
  }

  lemma TopicHolds(t: TopicState, op: Op, leases: nat, n: Name, o: nat, l: nat, deadline: nat)
    requires TopicInv(t, leases) && leases <= MAX_COUNTER && t.nextOffset <= MAX_COUNTER
    requires n in t.groups && GroupHolds(t.groups[n], o, l, deadline)
    requires !op.Remove? && !(op.Release? && op.group == n && op.leaseId == l)
    requires ClockOf(op).Some? ==> ClockOf(op).value < deadline
    ensures KeepsGroup(t, op, n)
    ensures n in TopicStep(t, op, leases).0.groups && GroupHolds(TopicStep(t, op, leases).0.groups[n], o, l, deadline)
  {
    hide TopicInv, TopicStep, Survives, GroupHolds, Moved;
    if ClockOf(op).Some? {
      HolderSurvives(t.groups[n], o, l, deadline, ClockOf(op).value);
    }
    GroupMoves(t, op, leases, n);
    var r := TopicStep(t, op, leases).0;
    MovedHolds(r.groups[n], t.groups[n], t, op, n, Base(r), o, l, deadline);
  }

  /** A holder is not handed the offset again before the deadline. */
  lemma HolderNotServed(t: TopicState, op: Op, leases: nat, n: Name, o: nat, l: nat, deadline: nat)
    requires TopicInv(t, leases) && leases <= MAX_COUNTER
    requires n in t.groups && GroupHolds(t.groups[n], o, l, deadline)
    requires op.Lend? && op.group == n && op.tsMs < deadline
    ensures !HasItem(PollTopic(t, n, op.max, op.visibilityMs, op.tsMs, leases).items, o)
  {
    HolderSurvives(t.groups[n], o, l, deadline, op.tsMs);
    assert GroupInv(t.groups[n], Base(t), t.nextOffset, leases);
    hide TopicInv, PollTopic, Survives, Base;
    if HasItem(PollTopic(t, n, op.max, op.visibilityMs, op.tsMs, leases).items, o) {
      DeliveredWasFree(t, op, leases, n, o);
      assert false;
    }
  }

  lemma HoldsStep(q: QueueState, call: Call, topic: Name, n: Name, o: nat, l: nat, deadline: nat)
    requires QueueInv(q) && Headroom(q)
    requires Holds(q, topic, n, o, l, deadline) && !MayFree(call, topic, n, l, deadline)
    ensures Holds(Step(q, call), topic, n, o, l, deadline)
    ensures !Delivers(q, call, topic, n, o)
  {
    hide TopicInv, TopicStep, KeepsGroup, PollTopic, Creates, HasItem, GroupHolds;
    if call.topic == topic {
      var t := q.topics[topic];
      TopicHolds(t, call.op, q.nextLeaseId, n, o, l, deadline);
      if call.op.Lend? && call.op.group == n {
        HolderNotServed(t, call.op, q.nextLeaseId, n, o, l, deadline);
      }
    }
  }

  /** No operation of the sequence hands the offset to the group. */
  ghost predicate NeverDelivered(q: QueueState, calls: seq<Call>, topic: Name, n: Name, o: nat)
    decreases |calls|
  {
    calls != [] ==> !Delivers(q, calls[0], topic, n, o) && NeverDelivered(Step(q, calls[0]), calls[1..], topic, n, o)
  }

  lemma {:induction false} HoldsOverRuns(q: QueueState, calls: seq<Call>, topic: Name, n: Name, o: nat, l: nat, deadline: nat)
    requires QueueInv(q) && Fits(q, calls) && Holds(q, topic, n, o, l, deadline)
    requires forall c | c in calls :: !MayFree(c, topic, n, l, deadline)
    ensures NeverDelivered(q, calls, topic, n, o)
    ensures Holds(Steps(q, calls), topic, n, o, l, deadline)
    decreases |calls|
  {
    if calls != [] {
      hide QueueInv, Holds, MayFree, Step, Delivers, Headroom;
      assert calls[0] in calls;
      StepKeeps(q, calls[0]);
      HoldsStep(q, calls[0], topic, n, o, l, deadline);
      HoldsOverRuns(Step(q, calls[0]), calls[1..], topic, n, o, l, deadline);
    }
  }

  /** Handing a message out puts it in flight under its lease. */
  lemma PollLends(t: TopicState, n: Name, max: u32, visibilityMs: nat, tsMs: nat, leases: nat, i: nat)
    requires TopicInv(t, leases) && leases <= MAX_COUNTER
    requires i < |PollTopic(t, n, max, visibilityMs, tsMs, leases).items|
    ensures var r := PollTopic(t, n, max, visibilityMs, tsMs, leases);
            && n in r.topic.groups
            && r.items[i].leaseId in r.topic.groups[n].inFlight
            && r.topic.groups[n].inFlight[r.items[i].leaseId] == Lease(r.items[i].offset, DeadlineOf(tsMs, visibilityMs))
            && r.topic.groups[n].lastActiveMs >= tsMs
  {
    hide TopicInv, Chosen, Refreshed, Sweep, Deliveries, Issued, GroupInv, IssueLeases, Admits, Base;
    var swept := Sweep(t, tsMs);
    SweepFacts(t, tsMs, leases);
    ItemsAreChosen(t, n, max, visibilityMs, tsMs, leases);
    PolledFacts(swept, n, max, visibilityMs, tsMs, leases);
    var entry := GroupEntry(swept, n, Some(tsMs));
    var h := TopicFacts.Polled(swept, n, max, visibilityMs, tsMs, leases);
    IssuedLease(h, Refreshed(entry, tsMs), Chosen(swept.messages, entry, max, tsMs), leases, DeadlineOf(tsMs, visibilityMs), i);
    RefreshedActive(entry, tsMs);
  }

  lemma DeliveryHolds(q: QueueState, call: Call, i: nat)
    requires QueueInv(q) && Headroom(q) && call.op.Lend?
    requires i < |Items(q, call.topic, call.op.group, call.op.max, call.op.visibilityMs, call.op.tsMs)|
    ensures var item := Items(q, call.topic, call.op.group, call.op.max, call.op.visibilityMs, call.op.tsMs)[i];
            Holds(Step(q, call), call.topic, call.op.group, item.offset, item.leaseId,
                  DeadlineOf(call.op.tsMs, call.op.visibilityMs))
  {
    hide TopicInv, PollTopic;
    PollLends(q.topics[call.topic], call.op.group, call.op.max, call.op.visibilityMs, call.op.tsMs, q.nextLeaseId, i);
  }

  lemma IssuedLease(h: GroupState, r: GroupState, chosen: seq<Item>, leaseId: nat, deadlineMs: nat, i: nat)
    requires Issued(h, r, chosen, leaseId, deadlineMs) && i < |chosen|
    ensures leaseId + i in h.inFlight && h.inFlight[leaseId + i] == Lease(chosen[i].offset, deadlineMs)
    ensures h.lastActiveMs == r.lastActiveMs
  {
  }

  lemma RefreshedActive(g: GroupState, tsMs: nat)
    ensures Refreshed(g, tsMs).lastActiveMs >= tsMs
  {
  }

  /** The request answers a poll of the group with the offset among its messages. */
  predicate Answers(q: QueueState, r: Request, topic: Name, group: Name, offset: nat) {
    && (r.Poll? || r.PollAuto?) && r.topic == topic && r.group == group
    && Apply(q, r).1.Polled? && HasItem(Apply(q, r).1.items, offset)
  }

  /** The request may give the offset back: it deletes the topic, gives lease `l` back, or is a poll or
      timestamped commit on the topic with a clock at or past the deadline. */
  predicate RequestMayFree(r: Request, topic: Name, group: Name, l: nat, deadline: nat) {
    match r
    case DeleteTopic(name) => name == topic
    case Nack(name, other, leaseId) => name == topic && other == group && leaseId == l
    case NackMany(name, other, leaseIds) => name == topic && other == group && l in leaseIds
    case Poll(name, _, _, _, tsMs) => name == topic && tsMs >= deadline
    case PollAuto(name, _, _, _, tsMs) => name == topic && tsMs >= deadline
    case CommitOffsetAt(name, _, _, tsMs) => name == topic && tsMs >= deadline
    case _ => false
  }

  lemma FreeingCalls(q: QueueState, r: Request, topic: Name, n: Name, l: nat, deadline: nat)
    requires !RequestMayFree(r, topic, n, l, deadline)
    ensures forall c | c in Script(q, r) :: !MayFree(c, topic, n, l, deadline)
  {
    hide Script;
    forall c | c in Script(q, r) ensures !MayFree(c, topic, n, l, deadline) {
      ScriptCallOf(q, r, c);
    }
  }

  lemma AnswerIsDelivery(q: QueueState, r: Request, topic: Name, n: Name, o: nat)
    requires Answers(q, r, topic, n, o)
    ensures Script(q, r) != [] && Delivers(q, Script(q, r)[0], topic, n, o)
  {
    hide Items, HasItem;
  }

  lemma HoldsRequest(q: QueueState, r: Request, topic: Name, n: Name, o: nat, l: nat, deadline: nat)
    requires QueueInv(q) && Headroom(q) && Headroom(Apply(q, r).0)
    requires Holds(q, topic, n, o, l, deadline) && !RequestMayFree(r, topic, n, l, deadline)
    ensures Holds(Apply(q, r).0, topic, n, o, l, deadline)
    ensures !Answers(q, r, topic, n, o)
  {
    hide QueueInv, Apply, Holds, MayFree, RequestMayFree, Script, Headroom, Delivers, Answers, Step;
    ScriptFits(q, r);
    ScriptIsApply(q, r);
    FreeingCalls(q, r, topic, n, l, deadline);
    HoldsOverRuns(q, Script(q, r), topic, n, o, l, deadline);
    if Answers(q, r, topic, n, o) {
      AnswerIsDelivery(q, r, topic, n, o);
    }
  }

  /** No request of the run answers a poll of the group with the offset. */
  ghost predicate NeverAnswered(q: QueueState, requests: seq<Request>, topic: Name, n: Name, o: nat)
    decreases |requests|
  {
    requests != [] ==>
      && !Answers(q, requests[0], topic, n, o)
      && NeverAnswered(Apply(q, requests[0]).0, requests[1..], topic, n, o)
  }

  lemma {:induction false} HoldsOverRequests(q: QueueState, requests: seq<Request>, topic: Name, n: Name, o: nat, l: nat, deadline: nat)
    requires QueueInv(q) && BelowCeiling(q, requests) && Holds(q, topic, n, o, l, deadline)
    requires forall r | r in requests :: !RequestMayFree(r, topic, n, l, deadline)
    ensures NeverAnswered(q, requests, topic, n, o)
    ensures Holds(Run(q, requests), topic, n, o, l, deadline)
    decreases |requests|
  {
    if requests != [] {
      hide QueueInv, Apply, Holds, RequestMayFree, Answers, CountersBelow;
      var next := Apply(q, requests[0]).0;
      assert requests[0] in requests;
      assert BelowCeiling(next, requests[1..]);
      CountersGiveHeadroom(q);
      CountersGiveHeadroom(next);
      ApplyKeeps(q, requests[0]);
      HoldsRequest(q, requests[0], topic, n, o, l, deadline);
      HoldsOverRequests(next, requests[1..], topic, n, o, l, deadline);
    }
  }

  /** Every answer makes its group hold what it was handed, under an auto-acknowledging poll too. */
  lemma AnswerHolds(q: QueueState, r: Request, i: nat)
    requires QueueInv(q) && Headroom(q) && Headroom(Apply(q, r).0)
    requires (r.Poll? || r.PollAuto?) && Apply(q, r).1.Polled? && i < |Apply(q, r).1.items|
    ensures var item := Apply(q, r).1.items[i];
            Holds(Apply(q, r).0, r.topic, r.group, item.offset, item.leaseId, DeadlineOf(r.tsMs, r.visibilityMs))
  {
    var lend := Call(r.topic, Lend(r.group, r.max, r.visibilityMs, r.tsMs));
    var script := Script(q, r);
    PollScript(q, r);
    hide QueueInv, Apply, Holds, MayFree, Items, Step, Script, Headroom;
    var item := Apply(q, r).1.items[i];
    DeliveryHolds(q, lend, i);
    StepKeeps(q, lend);
    ScriptFits(q, r);
    ScriptIsApply(q, r);
    var deadline := DeadlineOf(r.tsMs, r.visibilityMs);
    forall c | c in script[1..] ensures !MayFree(c, r.topic, r.group, item.leaseId, deadline) {
      SettlingNeverFrees(c, r.topic, r.group, item.leaseId, deadline);
    }
    HoldsOverRuns(Step(q, lend), script[1..], r.topic, r.group, item.offset, item.leaseId, deadline);
  }

  /** A poll request lends first, and then at most settles and reclaims. */
  lemma PollScript(q: QueueState, r: Request)
    requires (r.Poll? || r.PollAuto?) && Apply(q, r).1.Polled?
    ensures Script(q, r) != [] && Script(q, r)[0] == Call(r.topic, Lend(r.group, r.max, r.visibilityMs, r.tsMs))
    ensures forall c | c in Script(q, r)[1..] :: c.op.Settle? || c.op.DropDone?
    ensures Apply(q, r).1.items == Items(q, r.topic, r.group, r.max, r.visibilityMs, r.tsMs)
  {
    hide Items, Step, LeaseIds, Settles;
    if r.PollAuto? {
      var ids := LeaseIds(Items(q, r.topic, r.group, r.max, r.visibilityMs, r.tsMs));
      SettlesCalls(r.topic, r.group, ids);
      assert Script(q, r)[1..] == Settles(r.topic, r.group, ids) + [Call(r.topic, DropDone)];
    }
  }

  lemma SettlingNeverFrees(c: Call, topic: Name, n: Name, l: nat, deadline: nat)
    requires c.op.Settle? || c.op.DropDone?
    ensures !MayFree(c, topic, n, l, deadline)
  {
  }

  /** Lease exclusivity over runs: once a poll hands an offset to a group, no later answer hands it to that group
      again, until its lease is given back, a poll or timestamped commit on the topic carries a clock at or past
      its deadline, or the topic is deleted. The deadline is the poll's clock plus the visibility it asks for, at most
      twelve hours. */
  lemma LeaseIsExclusive(q: QueueState, r: Request, i: nat, later: seq<Request>)
    requires QueueInv(q) && BelowCeiling(q, [r] + later)
    requires (r.Poll? || r.PollAuto?) && Apply(q, r).1.Polled? && i < |Apply(q, r).1.items|
    requires var item := Apply(q, r).1.items[i];
             forall x | x in later ::
               !RequestMayFree(x, r.topic, r.group, item.leaseId, SatAdd(r.tsMs, Min(r.visibilityMs, 43_200_000)))
    ensures NeverAnswered(Apply(q, r).0, later, r.topic, r.group, Apply(q, r).1.items[i].offset)
  {
    hide QueueInv, Apply, RequestMayFree, Holds, CountersBelow;
    assert ([r] + later)[1..] == later;
    var next := Apply(q, r).0;
    assert BelowCeiling(next, later);
    CountersGiveHeadroom(q);
    CountersGiveHeadroom(next);
    var item := Apply(q, r).1.items[i];
    AnswerHolds(q, r, i);
    ApplyKeeps(q, r);
    HoldsOverRequests(next, later, r.topic, r.group, item.offset, item.leaseId, DeadlineOf(r.tsMs, r.visibilityMs));
  }

  // ---------------------------------------------------------------- done is forever, and nothing is lost silently

  /** The group's record lives through the operation. */
  predicate KeepsRecord(q: QueueState, call: Call, topic: Name, n: Name) {
    && topic in q.topics && n in q.topics[topic].groups
    && (call.topic == topic ==> !call.op.Remove? && KeepsGroup(q.topics[topic], call.op, n))
  }

  ghost predicate Lives(q: QueueState, calls: seq<Call>, topic: Name, n: Name)
    decreases |calls|
  {
    && topic in q.topics && n in q.topics[topic].groups
    && (calls != [] ==> KeepsRecord(q, calls[0], topic, n) && Lives(Step(q, calls[0]), calls[1..], topic, n))
  }

  predicate DoneIn(q: QueueState, topic: Name, n: Name, o: nat) {
    topic in q.topics && n in q.topics[topic].groups && IsDone(q.topics[topic].groups[n], o)
  }

  /** The operation finishes the offset for the group: it acknowledges its lease, commits above it, or is a
      produce whose retention leaves nothing at or below it. */
  ghost predicate FinishedBy(q: QueueState, call: Call, topic: Name, n: Name, o: nat)
    requires KeepsRecord(q, call, topic, n)
  {
    && call.topic == topic
    && var t := q.topics[topic];
    Finishes(t, t.groups[n], call.op, n, Base(TopicStep(t, call.op, q.nextLeaseId).0), o)
  }

  /** One operation: done stays done, and what becomes done was finished by the operation. */
  lemma DoneStep(q: QueueState, call: Call, topic: Name, n: Name, o: nat)
    requires QueueInv(q) && Headroom(q) && KeepsRecord(q, call, topic, n)
    ensures topic in Step(q, call).topics && n in Step(q, call).topics[topic].groups
    ensures DoneIn(Step(q, call), topic, n, o) <==> DoneIn(q, topic, n, o) || FinishedBy(q, call, topic, n, o)
  {
    hide TopicInv, TopicStep, KeepsGroup, Creates, Moved, Finishes, IsDone, Base;
    if call.topic == topic {
      var t := q.topics[topic];
      GroupMoves(t, call.op, q.nextLeaseId, n);
      MovedDone(TopicStep(t, call.op, q.nextLeaseId).0.groups[n], t.groups[n], t, call.op, n,
                Base(TopicStep(t, call.op, q.nextLeaseId).0), o);
    }
  }

  lemma MovedDone(h: GroupState, g: GroupState, t: TopicState, op: Op, n: Name, base: nat, o: nat)
    requires Moved(h, g, t, op, n, base)
    ensures IsDone(h, o) <==> IsDone(g, o) || Finishes(t, g, op, n, base, o)
  {
  }

  /** Some operation of the run finishes the offset for the group. */
  ghost predicate FinishedDuring(q: QueueState, calls: seq<Call>, topic: Name, n: Name, o: nat)
    requires Lives(q, calls, topic, n)
    decreases |calls|
  {
    calls != [] &&
    (FinishedBy(q, calls[0], topic, n, o) || FinishedDuring(Step(q, calls[0]), calls[1..], topic, n, o))
  }

  /** No silent loss: while a group's record lives, an offset is done at the end of a run exactly when it was done
      at the start or some operation of the run finished it. */
  lemma {:induction false} NoSilentLoss(q: QueueState, calls: seq<Call>, topic: Name, n: Name, o: nat)
    requires QueueInv(q) && Fits(q, calls) && Lives(q, calls, topic, n)
    ensures DoneIn(Steps(q, calls), topic, n, o) <==>
            DoneIn(q, topic, n, o) || FinishedDuring(q, calls, topic, n, o)
    decreases |calls|
  {
    if calls != [] {
      hide QueueInv, Headroom, Step, DoneIn, KeepsRecord, FinishedBy;
      StepKeeps(q, calls[0]);
      DoneStep(q, calls[0], topic, n, o);
      NoSilentLoss(Step(q, calls[0]), calls[1..], topic, n, o);
    }
  }

  lemma DoneNotServed(q: QueueState, call: Call, topic: Name, n: Name, o: nat)
    requires QueueInv(q) && Headroom(q) && KeepsRecord(q, call, topic, n) && DoneIn(q, topic, n, o)
    ensures !Delivers(q, call, topic, n, o)
  {
    hide TopicInv, PollTopic, KeepsGroup;
    if Delivers(q, call, topic, n, o) {
      DeliveredWasFree(q.topics[topic], call.op, q.nextLeaseId, n, o);
    }
  }

  /** Once done, never delivered again while the group's record lives. */
  lemma {:induction false} DoneIsForever(q: QueueState, calls: seq<Call>, topic: Name, n: Name, o: nat)
    requires QueueInv(q) && Fits(q, calls) && Lives(q, calls, topic, n) && DoneIn(q, topic, n, o)
    ensures NeverDelivered(q, calls, topic, n, o)
    decreases |calls|
  {
    if calls != [] {
      hide QueueInv, Headroom, Step, DoneIn, KeepsRecord, FinishedBy, Delivers;
      StepKeeps(q, calls[0]);
      DoneStep(q, calls[0], topic, n, o);
      DoneNotServed(q, calls[0], topic, n, o);
      DoneIsForever(Step(q, calls[0]), calls[1..], topic, n, o);
    }
  }

  /** What the operations of a run never hand out, its answers never contain. */
  lemma {:induction false} UndeliveredIsUnanswered(q: QueueState, requests: seq<Request>, topic: Name, n: Name, o: nat)
    requires NeverDelivered(q, RunCalls(q, requests), topic, n, o)
    ensures NeverAnswered(q, requests, topic, n, o)
    decreases |requests|
  {
    if requests != [] {
      hide Apply, Script, Step, Delivers, Answers;
      var script := Script(q, requests[0]);
      var rest := RunCalls(Apply(q, requests[0]).0, requests[1..]);
      ScriptIsApply(q, requests[0]);
      NeverDeliveredSplit(q, script, rest, topic, n, o);
      if Answers(q, requests[0], topic, n, o) {
        AnswerIsDelivery(q, requests[0], topic, n, o);
      }
      UndeliveredIsUnanswered(Apply(q, requests[0]).0, requests[1..], topic, n, o);
    }
  }

  lemma {:induction false} NeverDeliveredSplit(q: QueueState, a: seq<Call>, b: seq<Call>, topic: Name, n: Name, o: nat)
    requires NeverDelivered(q, a + b, topic, n, o)
    ensures NeverDelivered(q, a, topic, n, o) && NeverDelivered(Steps(q, a), b, topic, n, o)
    decreases |a|
  {
    if a == [] {
      assert a + b == b;
    } else {
      assert (a + b)[0] == a[0] && (a + b)[1..] == a[1..] + b;
      NeverDeliveredSplit(Step(q, a[0]), a[1..], b, topic, n, o);
    }
  }

  /** A message leaves a topic only when every remaining group is done with it, and no group that lives through a
      poll, an acknowledgement or a reclaim is made done by losing it. */
  lemma OnlyDoneMessagesLeave(t: TopicState, op: Op, leases: nat, o: nat)
    requires TopicInv(t, leases) && leases <= MAX_COUNTER && t.nextOffset <= MAX_COUNTER && !op.Remove?
    requires o in t.messages && o !in TopicStep(t, op, leases).0.messages
    ensures forall n | n in TopicStep(t, op, leases).0.groups :: IsDone(TopicStep(t, op, leases).0.groups[n], o)
    ensures forall n | n in t.groups && KeepsGroup(t, op, n) && !op.StoreItem? && !(op.Advance? && op.group == n) ::
              IsDone(t.groups[n], o)
  {
    var r := TopicStep(t, op, leases).0;
    assert o < t.nextOffset;
    assert t.nextOffset <= r.nextOffset by { NextOffsetKept(t, op, leases); }
    hide TopicStep, KeepsGroup, Moved;
    TopicStepKeeps(t, op, leases);
    DroppedIsDone(r, TopicStep(t, op, leases).1, o);
    forall n | n in t.groups && KeepsGroup(t, op, n) && !op.StoreItem? && !(op.Advance? && op.group == n)
      ensures IsDone(t.groups[n], o)
    {
      LeavingWasDone(t, op, leases, n, o);
    }
  }

  lemma DroppedIsDone(r: TopicState, leases: nat, o: nat)
    requires TopicInv(r, leases) && o < r.nextOffset && o !in r.messages
    ensures forall n | n in r.groups :: IsDone(r.groups[n], o)
  {
    assert o < Base(r);
    forall n | n in r.groups ensures IsDone(r.groups[n], o) {
      assert GroupInv(r.groups[n], Base(r), r.nextOffset, leases);
    }
  }

  lemma LeavingWasDone(t: TopicState, op: Op, leases: nat, n: Name, o: nat)
    requires TopicInv(t, leases) && leases <= MAX_COUNTER && t.nextOffset <= MAX_COUNTER && !op.Remove?
    requires n in t.groups && KeepsGroup(t, op, n) && !op.StoreItem? && !(op.Advance? && op.group == n)
    requires o in t.messages && o !in TopicStep(t, op, leases).0.messages
    requires n in TopicStep(t, op, leases).0.groups ==> IsDone(TopicStep(t, op, leases).0.groups[n], o)
    ensures IsDone(t.groups[n], o)
  {
    assert !op.Settle?;
    hide TopicInv, TopicStep, KeepsGroup, Moved;
    GroupMoves(t, op, leases, n);
    var r := TopicStep(t, op, leases).0;
    MovedDone(r.groups[n], t.groups[n], t, op, n, Base(r), o);
  }

  lemma NextOffsetKept(t: TopicState, op: Op, leases: nat)
    requires TopicInv(t, leases) && leases <= MAX_COUNTER && t.nextOffset <= MAX_COUNTER && !op.Remove?
    ensures t.nextOffset <= TopicStep(t, op, leases).0.nextOffset
  {
    hide TopicInv, ProduceTo, PollTopic, CommitTopic, AckLease, Unlease;
    match op
    case StoreItem(item) => ProduceKeeps(t, item, leases);
    case Lend(group, max, visibilityMs, tsMs) => PollKeeps(t, group, max, visibilityMs, tsMs, leases);
    case Advance(group, offset, nowMs) => CommitKeeps(t, group, offset, nowMs, leases);
    case DropDone => ReclaimKeeps(t, leases);
    case _ =>
  }
}
