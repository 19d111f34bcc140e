/** Anti-starvation: the reserved share of every fourth poll delivers the oldest waiting message, whatever keeps
    arriving above it. */
module Fairness {
  import opened Collections
  import opened Model
  import opened Groups
  import opened Selection
  import opened Topics
  import opened TopicFacts
  import opened Queue
  import opened Invariant
  import opened Progress
  import opened Delivery

  /** The message is retained and the group could be handed it. */
  predicate Waits(t: TopicState, n: Name, o: nat) {
    n in t.groups && o in t.messages && IsOpen(t.groups[n], o)
  }

  /** The deliverable messages below it. */
  function Below(t: TopicState, n: Name, o: nat): set<nat>
    requires n in t.groups
  {
    set p | p in t.messages && p < o && IsOpen(t.groups[n], p)
  }

  /** The operation leaves the message and the group's record in place: the topic stays, no sweep finds the group idle, and
      retention and the group's own commits stay at or below the message. */
  predicate Undisturbing(t: TopicState, op: Op, leases: nat, n: Name, o: nat)
    requires n in t.groups
  {
    && !op.Remove? && KeepsGroup(t, op, n)
    && (op.StoreItem? ==> Base(TopicStep(t, op, leases).0) <= o)
    && (op.Advance? && op.group == n ==> op.offset <= o)
  }

  /** The offsets below the message whose leases the operation returns: nacked, or past their deadline at a poll. */
  function Back(t: TopicState, op: Op, n: Name, o: nat): set<nat>
    requires n in t.groups
  {
    set l | l in t.groups[n].inFlight && t.groups[n].inFlight[l].offset < o && Returns(t.groups[n], op, n, l)
      :: t.groups[n].inFlight[l].offset
  }

  /** The places a poll of the group keeps for the earliest messages: a quarter of what it asks for, and one more on every
      fourth poll if it asks for anything. */
  function Reserved(t: TopicState, op: Op, n: Name): nat
    requires n in t.groups
  {
    if IsPollOf(op, n) then op.max - PrioritySlots(op.max, t.groups[n].pollCount) else 0
  }

  predicate IsPollOf(op: Op, n: Name) { op.Lend? && op.group == n }

  // ---------------------------------------------------------------- one operation

  /** Messages below the waiting one only become fewer. */
  lemma MessagesBelow(t: TopicState, op: Op, leases: nat, o: nat)
    requires TopicInv(t, leases) && leases <= MAX_COUNTER && t.nextOffset <= MAX_COUNTER && !op.Remove?
    requires o in t.messages
    ensures var r := TopicStep(t, op, leases).0;
            && (forall p | p in r.messages && p < o :: p in t.messages)
            && (o in r.messages || o < Base(r))
  {
    var r := TopicStep(t, op, leases).0;
    assert Retains(t.messages, Base(t), t.nextOffset);
    hide TopicStep, TopicInv;
    NextOffsetKept(t, op, leases);
    TopicStepKeeps(t, op, leases);
    BaseGrows(t, op, leases);
    RetainsOf(r, TopicStep(t, op, leases).1);
  }

  lemma RetainsOf(t: TopicState, leases: nat)
    requires TopicInv(t, leases)
    ensures Retains(t.messages, Base(t), t.nextOffset)
  {
  }

  /** What is deliverable below the message after any operation was so before, or came back by it. */
  lemma BelowGrows(t: TopicState, op: Op, n: Name, o: nat, h: GroupState, base: nat, p: nat)
    requires n in t.groups && Moved(h, t.groups[n], t, op, n, base) && p < o && IsOpen(h, p)
    ensures IsOpen(t.groups[n], p) || p in Back(t, op, n, o)
  {
    if !IsOpen(t.groups[n], p) {
      var l :| l in t.groups[n].inFlight && t.groups[n].inFlight[l].offset == p && Returns(t.groups[n], op, n, l);
    }
  }

  lemma BothSizes(a: set<nat>, b: set<nat>)
    ensures |a + b| <= |a| + |b|
  {
    assert a + b == a + (b - a);
    SubsetSize(b - a, b);
  }

  /** Any operation but a poll of the group: the message keeps waiting, behind no more messages than before and came back. */
  lemma OtherStep(t: TopicState, op: Op, leases: nat, n: Name, o: nat)
    requires TopicInv(t, leases) && leases <= MAX_COUNTER && t.nextOffset <= MAX_COUNTER
    requires Waits(t, n, o) && Undisturbing(t, op, leases, n, o) && !IsPollOf(op, n)
    ensures var r := TopicStep(t, op, leases).0;
            Waits(r, n, o) && |Below(r, n, o)| <= |Below(t, n, o)| + |Back(t, op, n, o)|
  {
    var r := TopicStep(t, op, leases).0;
    var g := t.groups[n];
    assert GroupInv(g, Base(t), t.nextOffset, leases);
    hide TopicStep, TopicInv, KeepsGroup, Back;
    GroupMoves(t, op, leases, n);
    var h := r.groups[n];
    MessagesBelow(t, op, leases, o);
    assert !Finishes(t, g, op, n, Base(r), o);
    assert !IsDone(h, o);
    assert o in r.messages by {
      if o !in r.messages {
        OnlyDoneMessagesLeave(t, op, leases, o);
      }
    }
    assert IsOpen(h, o);
    forall p | p in Below(r, n, o) ensures p in Below(t, n, o) + Back(t, op, n, o) {
      BelowGrows(t, op, n, o, h, Base(r), p);
    }
    SubsetSize(Below(r, n, o), Below(t, n, o) + Back(t, op, n, o));
    BothSizes(Below(t, n, o), Back(t, op, n, o));
  }

  /** What a poll of the group works on: the swept topic, the refreshed record and the choice. */
  ghost predicate PollView(t: TopicState, op: Op, leases: nat, n: Name, swept: TopicState, ref: GroupState, chosen: seq<Item>) {
    && op.Lend? && op.group == n && n in t.groups
    && swept == Sweep(t, op.tsMs)
    && ref == Refreshed(Stamped(t.groups[n], op.tsMs), op.tsMs)
    && chosen == Chosen(swept.messages, Stamped(t.groups[n], op.tsMs), op.max, op.tsMs)
  }

  /** The poll leaves open exactly what was open in the refreshed record and not chosen. */
  lemma PollLeavesOpen(t: TopicState, op: Op, leases: nat, n: Name, swept: TopicState, ref: GroupState, chosen: seq<Item>)
    requires TopicInv(t, leases) && leases <= MAX_COUNTER
    requires PollView(t, op, leases, n, swept, ref, chosen) && KeepsGroup(t, op, n)
    ensures var r := TopicStep(t, op, leases).0;
            && n in r.groups && r.messages == swept.messages
            && (forall p: nat :: IsOpen(r.groups[n], p) <==> IsOpen(ref, p) && !HasOffset(chosen, p))
            && (forall p: nat :: IsDone(ref, p) <==> IsDone(t.groups[n], p))
            && (forall p :: p in ref.leasedOffsets <==> p in t.groups[n].leasedOffsets && t.groups[n].leasedOffsets[p] > op.tsMs)
            && ConsumedDropped(swept.messages, t.messages, swept.groups)
            && n in swept.groups && swept.groups[n] == Stamped(t.groups[n], op.tsMs)
  {
    var g := t.groups[n];
    assert GroupInv(g, Base(t), t.nextOffset, leases);
    hide TopicInv, GroupInv, Sweep, Chosen, Refreshed, Stamped, Survives, Base, ConsumedDropped, IssueLeases, Deliveries, Issued;
    SweptGroup(t, op.tsMs, leases, n);
    SweepFacts(t, op.tsMs, leases);
    StampedKeeps(g, op.tsMs, Base(t), t.nextOffset, leases);
    StampedView(g, op.tsMs);
    var s := Stamped(g, op.tsMs);
    RefreshedFacts(s, op.tsMs, Base(t), t.nextOffset, leases);
    PolledFacts(swept, n, op.max, op.visibilityMs, op.tsMs, leases);
    var h := TopicFacts.Polled(swept, n, op.max, op.visibilityMs, op.tsMs, leases);
    IssuedOpen(h, ref, chosen, leases, DeadlineOf(op.tsMs, op.visibilityMs));
  }

  lemma IssuedOpen(h: GroupState, ref: GroupState, chosen: seq<Item>, leaseId: nat, deadlineMs: nat)
    requires Issued(h, ref, chosen, leaseId, deadlineMs)
    ensures forall p: nat :: IsOpen(h, p) <==> IsOpen(ref, p) && !HasOffset(chosen, p)
  {
  }

  /** The messages below the waiting one that the poll's selection sees. */
  function Seen(messages: map<nat, Message>, ref: GroupState, o: nat): set<nat> {
    set p | p in messages && p < o && IsOpen(ref, p)
  }

  /** A poll that passes the message over leaves it waiting, and its reserved places are taken from below it. */
  lemma PassedOver(t: TopicState, op: Op, leases: nat, n: Name, o: nat)
    requires TopicInv(t, leases) && leases <= MAX_COUNTER
    requires Waits(t, n, o) && KeepsGroup(t, op, n) && IsPollOf(op, n)
    requires !HasItem(PollTopic(t, n, op.max, op.visibilityMs, op.tsMs, leases).items, o)
    ensures var r := TopicStep(t, op, leases).0;
            Waits(r, n, o) && |Below(r, n, o)| + Reserved(t, op, n) <= |Below(t, n, o)| + |Back(t, op, n, o)|
  {
    hide TopicInv, TopicStep, Sweep, Chosen, Refreshed, Survives, PollTopic, ConsumedDropped, KeepsGroup, HasItem, Back;
    var r := TopicStep(t, op, leases).0;
    var swept := Sweep(t, op.tsMs);
    var s := Stamped(t.groups[n], op.tsMs);
    var ref := Refreshed(s, op.tsMs);
    var chosen := Chosen(swept.messages, s, op.max, op.tsMs);
    PollLeavesOpen(t, op, leases, n, swept, ref, chosen);
    DeliveredIffChosen(t, n, op.max, op.visibilityMs, op.tsMs, leases, o);
    assert GroupEntry(swept, n, Some(op.tsMs)) == s;
    StillThere(swept.messages, t.messages, swept.groups, n, o, t.groups[n], op.tsMs);
    assert IsOpen(ref, o);
    var early := EarlyChosen(swept.messages, s, op, o);
    var seen := Seen(swept.messages, ref, o);
    assert Below(r, n, o) <= seen - early;
    assert early <= seen;
    SubsetSize(Below(r, n, o), seen - early);
    assert |seen - early| == |seen| - |early|;
    forall p | p in seen ensures p in Below(t, n, o) + Back(t, op, n, o) {
      SeenWasBelow(t, op, leases, n, o, ref, swept, p);
    }
    SubsetSize(seen, Below(t, n, o) + Back(t, op, n, o));
    BothSizes(Below(t, n, o), Back(t, op, n, o));
  }

  lemma EarlyChosen(messages: map<nat, Message>, s: GroupState, op: Op, o: nat) returns (early: set<nat>)
    requires op.Lend? && o in messages && IsOpen(Refreshed(s, op.tsMs), o)
    requires !HasOffset(Chosen(messages, s, op.max, op.tsMs), o)
    ensures |early| == op.max - PrioritySlots(op.max, s.pollCount)
    ensures early <= Seen(messages, Refreshed(s, op.tsMs), o)
    ensures forall p | p in early :: HasOffset(Chosen(messages, s, op.max, op.tsMs), p)
  {
    hide Chosen, Refreshed, ReferenceSelection, Candidates, IsOpen;
    var ref := Refreshed(s, op.tsMs);
    var chosen := Chosen(messages, s, op.max, op.tsMs);
    var candidates := Candidates(messages, ref);
    ChosenIsSelection(messages, s, op.max, op.tsMs);
    CandidatesFacts(messages, ref);
    var x := Item(messages[o].priority, o);
    assert x in candidates;
    assert x !in chosen;
    early := ReservedPlacesGoToEarliest(candidates, op.max, s.pollCount, x);
    ChosenFacts(messages, s, op.max, op.tsMs);
    forall p | p in early ensures p in Seen(messages, ref, o) {
      var y :| y in chosen && y.offset == p;
    }
  }

  lemma StillThere(after: map<nat, Message>, before: map<nat, Message>, groups: map<Name, GroupState>, n: Name, o: nat, g: GroupState, tsMs: nat)
    requires ConsumedDropped(after, before, groups) && n in groups && groups[n] == Stamped(g, tsMs)
    requires o in before && IsOpen(g, o)
    ensures o in after
  {
  }

  lemma ChosenIsSelection(messages: map<nat, Message>, entry: GroupState, max: nat, tsMs: nat)
    ensures Chosen(messages, entry, max, tsMs)
         == ReferenceSelection(Candidates(messages, Refreshed(entry, tsMs)), max, entry.pollCount)
  {
    hide Candidates, ReferenceSelection, Refreshed;
  }

  function ItemsAt(messages: map<nat, Message>, offsets: set<nat>): set<Item> {
    set p | p in offsets && p in messages :: Item(messages[p].priority, p)
  }

  lemma {:induction false} ItemsAtSize(messages: map<nat, Message>, offsets: set<nat>)
    requires offsets <= messages.Keys
    ensures |ItemsAt(messages, offsets)| == |offsets|
    decreases |offsets|
  {
    if offsets == {} {
      assert ItemsAt(messages, offsets) == {};
    } else {
      var p :| p in offsets;
      var rest := offsets - {p};
      ItemsAtSize(messages, rest);
      var x := Item(messages[p].priority, p);
      assert ItemsAt(messages, offsets) == ItemsAt(messages, rest) + {x};
      assert x !in ItemsAt(messages, rest);
    }
  }

  /** What was deliverable before a poll is a candidate of its selection. */
  lemma StillOpen(t: TopicState, op: Op, leases: nat, n: Name, swept: TopicState, ref: GroupState, chosen: seq<Item>, p: nat)
    requires TopicInv(t, leases) && leases <= MAX_COUNTER
    requires PollView(t, op, leases, n, swept, ref, chosen) && KeepsGroup(t, op, n)
    requires p in t.messages && IsOpen(t.groups[n], p)
    ensures p in swept.messages && swept.messages[p] == t.messages[p] && IsOpen(ref, p)
  {
    hide TopicInv, TopicStep, KeepsGroup, Stamped, Sweep, Refreshed, Chosen;
    PollLeavesOpen(t, op, leases, n, swept, ref, chosen);
    StillThere(swept.messages, t.messages, swept.groups, n, p, t.groups[n], op.tsMs);
  }

  /** What a poll of a living group works on. */
  lemma ViewOf(t: TopicState, op: Op, leases: nat, n: Name)
    requires TopicInv(t, leases) && leases <= MAX_COUNTER && n in t.groups && IsPollOf(op, n) && KeepsGroup(t, op, n)
    ensures var swept := Sweep(t, op.tsMs);
            var s := Stamped(t.groups[n], op.tsMs);
            && PollView(t, op, leases, n, swept, Refreshed(s, op.tsMs), Chosen(swept.messages, s, op.max, op.tsMs))
            && GroupEntry(swept, n, Some(op.tsMs)) == s && Admits(swept, n)
  {
    hide TopicInv, TopicStep, Sweep, Chosen, Refreshed, KeepsGroup, Stamped;
    var swept := Sweep(t, op.tsMs);
    var s := Stamped(t.groups[n], op.tsMs);
    PollLeavesOpen(t, op, leases, n, swept, Refreshed(s, op.tsMs), Chosen(swept.messages, s, op.max, op.tsMs));
  }

  /** What the selection sees below the message was deliverable before the poll, or came back at it. */
  lemma SeenWasBelow(t: TopicState, op: Op, leases: nat, n: Name, o: nat, ref: GroupState, swept: TopicState, p: nat)
    requires TopicInv(t, leases) && n in t.groups && IsPollOf(op, n)
    requires p < o && p in swept.messages && IsOpen(ref, p)
    requires forall p: nat :: IsDone(ref, p) <==> IsDone(t.groups[n], p)
    requires forall p :: p in ref.leasedOffsets <==> p in t.groups[n].leasedOffsets && t.groups[n].leasedOffsets[p] > op.tsMs
    requires ConsumedDropped(swept.messages, t.messages, swept.groups)
    ensures p in Below(t, n, o) + Back(t, op, n, o)
  {
    var g := t.groups[n];
    assert GroupInv(g, Base(t), t.nextOffset, leases);
    if p in g.leasedOffsets {
      var l :| l in g.inFlight && g.inFlight[l].offset == p;
      assert Returns(g, op, n, l);
    }
  }

  lemma WaitingGroup(t: TopicState, n: Name, o: nat)
    requires Waits(t, n, o)
    ensures n in t.groups
  {
  }

  // ---------------------------------------------------------------- whole runs

  predicate WaitsIn(q: QueueState, topic: Name, n: Name, o: nat) {
    topic in q.topics && Waits(q.topics[topic], n, o)
  }

  /** Until the message is delivered, every operation on its topic is undisturbing. */
  ghost predicate Undisturbed(q: QueueState, calls: seq<Call>, topic: Name, n: Name, o: nat)
    decreases |calls|
  {
    && WaitsIn(q, topic, n, o)
    && (calls != [] && !Delivers(q, calls[0], topic, n, o) ==>
          && (calls[0].topic == topic ==> Undisturbing(q.topics[topic], calls[0].op, q.nextLeaseId, n, o))
          && Undisturbed(Step(q, calls[0]), calls[1..], topic, n, o))
  }

  predicate Serves(q: QueueState, call: Call, topic: Name, n: Name) {
    call.topic == topic && topic in q.topics && n in q.topics[topic].groups
  }

  /** The reserved places of all polls of the group in the run. */
  ghost function ReservedIn(q: QueueState, calls: seq<Call>, topic: Name, n: Name): nat
    decreases |calls|
  {
    if calls == [] then 0
    else (if Serves(q, calls[0], topic, n) then Reserved(q.topics[topic], calls[0].op, n) else 0)
         + ReservedIn(Step(q, calls[0]), calls[1..], topic, n)
  }

  /** How many offsets below the message come back to the group in the run. */
  ghost function BackIn(q: QueueState, calls: seq<Call>, topic: Name, n: Name, o: nat): nat
    decreases |calls|
  {
    if calls == [] then 0
    else (if Serves(q, calls[0], topic, n) then |Back(q.topics[topic], calls[0].op, n, o)| else 0)
         + BackIn(Step(q, calls[0]), calls[1..], topic, n, o)
  }

  /** One undisturbing operation that does not deliver the message. */
  lemma TopicWaits(t: TopicState, op: Op, leases: nat, n: Name, o: nat)
    requires TopicInv(t, leases) && leases <= MAX_COUNTER && t.nextOffset <= MAX_COUNTER
    requires Waits(t, n, o) && Undisturbing(t, op, leases, n, o)
    requires IsPollOf(op, n) ==> !HasItem(PollTopic(t, n, op.max, op.visibilityMs, op.tsMs, leases).items, o)
    ensures !op.Remove?
    ensures var r := TopicStep(t, op, leases).0;
            Waits(r, n, o) && |Below(r, n, o)| + Reserved(t, op, n) <= |Below(t, n, o)| + |Back(t, op, n, o)|
  {
    assert KeepsGroup(t, op, n) && !op.Remove?;
    hide TopicInv, TopicStep, PollTopic, Undisturbing, HasItem, KeepsGroup, Back, Below;
    if IsPollOf(op, n) {
      PassedOver(t, op, leases, n, o);
    } else {
      OtherStep(t, op, leases, n, o);
    }
  }

  lemma WaitingStep(q: QueueState, call: Call, topic: Name, n: Name, o: nat)
    requires QueueInv(q) && Headroom(q) && WaitsIn(q, topic, n, o)
    requires call.topic == topic ==> Undisturbing(q.topics[topic], call.op, q.nextLeaseId, n, o)
    requires !Delivers(q, call, topic, n, o)
    ensures WaitsIn(Step(q, call), topic, n, o)
    ensures |Below(Step(q, call).topics[topic], n, o)| +
            (if Serves(q, call, topic, n) then Reserved(q.topics[topic], call.op, n) else 0)
         <= |Below(q.topics[topic], n, o)| + (if Serves(q, call, topic, n) then |Back(q.topics[topic], call.op, n, o)| else 0)
  {
    hide TopicInv, TopicStep, PollTopic, Undisturbing, Below, Back, Reserved, HasItem, KeepsGroup, Creates, Waits;
    WaitingGroup(q.topics[topic], n, o);
    if call.topic == topic {
      TopicWaits(q.topics[topic], call.op, q.nextLeaseId, n, o);
      WaitingGroup(Step(q, call).topics[topic], n, o);
    }
  }

  lemma {:induction false} WaitingRun(q: QueueState, calls: seq<Call>, topic: Name, n: Name, o: nat)
    requires QueueInv(q) && Fits(q, calls) && Undisturbed(q, calls, topic, n, o)
    requires NeverDelivered(q, calls, topic, n, o)
    ensures ReservedIn(q, calls, topic, n) <= |Below(q.topics[topic], n, o)| + BackIn(q, calls, topic, n, o)
    decreases |calls|
  {
    if calls != [] {
      assert WaitsIn(q, topic, n, o) && !Delivers(q, calls[0], topic, n, o);
      hide QueueInv, Step, Delivers, Headroom, Undisturbing, Waits, Below, Back, Reserved, Serves;
      StepKeeps(q, calls[0]);
      WaitingStep(q, calls[0], topic, n, o);
      WaitingRun(Step(q, calls[0]), calls[1..], topic, n, o);
    }
  }

  /** Nobody starves: a deliverable message is delivered before the reserved places of its group's polls outnumber the
      deliverable messages below it and those that come back below it, however many of higher priority keep arriving. Polls
      that ask for nothing reserve nothing and cost nothing. */
  lemma NobodyStarves(q: QueueState, calls: seq<Call>, topic: Name, n: Name, o: nat)
    requires QueueInv(q) && Fits(q, calls) && Undisturbed(q, calls, topic, n, o)
    requires ReservedIn(q, calls, topic, n) > |Below(q.topics[topic], n, o)| + BackIn(q, calls, topic, n, o)
    ensures !NeverDelivered(q, calls, topic, n, o)
  {
    hide QueueInv, Fits, Undisturbed, NeverDelivered, ReservedIn, BackIn;
    if NeverDelivered(q, calls, topic, n, o) {
      WaitingRun(q, calls, topic, n, o);
    }
  }

  // ---------------------------------------------------------------- counting polls

  /** How many of the operations are polls of the group. */
  function PollsOf(calls: seq<Call>, topic: Name, n: Name): nat
    decreases |calls|
  {
    if calls == [] then 0
    else (if calls[0].topic == topic && IsPollOf(calls[0].op, n) then 1 else 0) + PollsOf(calls[1..], topic, n)
  }

  /** Every poll of the group asks for something. */
  predicate AllAsk(calls: seq<Call>, topic: Name, n: Name) {
    forall c | c in calls && c.topic == topic && IsPollOf(c.op, n) :: c.op.max >= 1
  }

  lemma CountMoved(h: GroupState, g: GroupState, t: TopicState, op: Op, n: Name, base: nat)
    requires Moved(h, g, t, op, n, base)
    ensures h.pollCount == if IsPollOf(op, n) then SatAdd(g.pollCount, 1) else g.pollCount
  {
  }

  lemma CountStep(q: QueueState, call: Call, topic: Name, n: Name)
    requires QueueInv(q) && Headroom(q) && KeepsRecord(q, call, topic, n)
    ensures topic in Step(q, call).topics && n in Step(q, call).topics[topic].groups
    ensures Step(q, call).topics[topic].groups[n].pollCount ==
            if call.topic == topic && IsPollOf(call.op, n) then SatAdd(q.topics[topic].groups[n].pollCount, 1)
            else q.topics[topic].groups[n].pollCount
  {
    hide TopicInv, TopicStep, KeepsGroup, Moved, Creates;
    if call.topic == topic {
      var t := q.topics[topic];
      GroupMoves(t, call.op, q.nextLeaseId, n);
      var r := TopicStep(t, call.op, q.nextLeaseId).0;
      CountMoved(r.groups[n], t.groups[n], t, call.op, n, Base(r));
    }
  }

  /** A group that lives through a run counts its polls. */
  lemma {:induction false} CountRun(q: QueueState, calls: seq<Call>, topic: Name, n: Name)
    requires QueueInv(q) && Fits(q, calls) && Lives(q, calls, topic, n) && q.topics[topic].groups[n].pollCount <= U64_MAX
    ensures topic in Steps(q, calls).topics && n in Steps(q, calls).topics[topic].groups
    ensures Steps(q, calls).topics[topic].groups[n].pollCount ==
            Min(U64_MAX, q.topics[topic].groups[n].pollCount + PollsOf(calls, topic, n))
    decreases |calls|
  {
    hide QueueInv, Headroom, KeepsRecord, Step;
    if calls != [] {
      StepKeeps(q, calls[0]);
      CountStep(q, calls[0], topic, n);
      CountRun(Step(q, calls[0]), calls[1..], topic, n);
    }
  }

  lemma BonusIsReserved(t: TopicState, op: Op, n: Name)
    requires n in t.groups && IsPollOf(op, n) && op.max >= 1 && (t.groups[n].pollCount + 1) % RESERVED_DEN == 0
    ensures Reserved(t, op, n) >= 1
  {
  }

  /** Of polls that ask for something, at least every fourth reserves a place. */
  lemma {:induction false} EveryFourthReserves(q: QueueState, calls: seq<Call>, topic: Name, n: Name)
    requires QueueInv(q) && Fits(q, calls) && Lives(q, calls, topic, n) && AllAsk(calls, topic, n)
    requires q.topics[topic].groups[n].pollCount + PollsOf(calls, topic, n) <= U64_MAX
    ensures PollsOf(calls, topic, n) + q.topics[topic].groups[n].pollCount % RESERVED_DEN
         <= RESERVED_DEN * ReservedIn(q, calls, topic, n) + RESERVED_DEN - 1
    decreases |calls|
  {
    hide QueueInv, Headroom, KeepsRecord, Step, Reserved, AllAsk, IsPollOf;
    var c := q.topics[topic].groups[n].pollCount;
    if calls == [] {
      assert c % RESERVED_DEN < RESERVED_DEN;
    } else {
      var rest, r := calls[1..], Step(q, calls[0]);
      AskFirst(calls, topic, n);
      StepKeeps(q, calls[0]);
      CountStep(q, calls[0], topic, n);
      if calls[0].topic == topic && IsPollOf(calls[0].op, n) {
        if (c + 1) % RESERVED_DEN == 0 {
          BonusIsReserved(q.topics[topic], calls[0].op, n);
        }
        EveryFourthReserves(r, rest, topic, n);
        NextInRound(c, PollsOf(rest, topic, n), ReservedIn(r, rest, topic, n), Reserved(q.topics[topic], calls[0].op, n));
      } else {
        EveryFourthReserves(r, rest, topic, n);
      }
    }
  }

  lemma AskFirst(calls: seq<Call>, topic: Name, n: Name)
    requires AllAsk(calls, topic, n) && calls != []
    ensures AllAsk(calls[1..], topic, n)
    ensures calls[0].topic == topic && IsPollOf(calls[0].op, n) ==> calls[0].op.Lend? && calls[0].op.max >= 1
  {
    assert calls[0] in calls;
  }

  lemma NextInRound(c: nat, polls: nat, reserved: nat, here: nat)
    requires polls + (c + 1) % RESERVED_DEN <= RESERVED_DEN * reserved + RESERVED_DEN - 1
    requires (c + 1) % RESERVED_DEN == 0 ==> here >= 1
    ensures 1 + polls + c % RESERVED_DEN <= RESERVED_DEN * (here + reserved) + RESERVED_DEN - 1
  {
  }

  lemma {:induction false} UndisturbedLives(q: QueueState, calls: seq<Call>, topic: Name, n: Name, o: nat)
    requires Undisturbed(q, calls, topic, n, o) && NeverDelivered(q, calls, topic, n, o)
    ensures Lives(q, calls, topic, n)
    decreases |calls|
  {
    hide Step, Delivers, TopicStep, Base;
    if calls != [] {
      UndisturbedLives(Step(q, calls[0]), calls[1..], topic, n, o);
    }
  }

  /** In particular, if every poll of the group asks for something, 4(k+1) polls are enough for a message with `k` below it,
      and four more for each that comes back below it. */
  lemma FourPollsEach(q: QueueState, calls: seq<Call>, topic: Name, n: Name, o: nat)
    requires QueueInv(q) && Fits(q, calls) && Undisturbed(q, calls, topic, n, o) && AllAsk(calls, topic, n)
    requires q.topics[topic].groups[n].pollCount + PollsOf(calls, topic, n) <= U64_MAX
    requires PollsOf(calls, topic, n) >=
             RESERVED_DEN * (|Below(q.topics[topic], n, o)| + BackIn(q, calls, topic, n, o) + 1)
    ensures !NeverDelivered(q, calls, topic, n, o)
  {
    hide QueueInv, Fits, NeverDelivered, ReservedIn, BackIn, Lives, AllAsk, PollsOf;
    if NeverDelivered(q, calls, topic, n, o) {
      UndisturbedLives(q, calls, topic, n, o);
      EveryFourthReserves(q, calls, topic, n);
      hide Undisturbed;
      NobodyStarves(q, calls, topic, n, o);
    }
  }
}
