/** Groups are independent of each other, and the read-only check agrees with the poll it stands for. */
module Consumers {
  import opened Collections
  import opened Model
  import opened Groups
  import opened Selection
  import opened Topics
  import opened TopicFacts
  import opened Queue
  import opened Invariant
  import opened Progress
  import opened Delivery

  // ---------------------------------------------------------------- fan-out independence

  /** The records differ at most in an activity stamp that was missing. */
  predicate SameRecord(g: GroupState, h: GroupState) {
    h == g.(lastActiveMs := h.lastActiveMs) && (h.lastActiveMs == g.lastActiveMs || g.lastActiveMs == 0)
  }

  /** The two topics look the same to group `n`: its record and every message it is not past. */
  ghost predicate SameView(t: TopicState, u: TopicState, n: Name) {
    && n in t.groups && n in u.groups && SameRecord(t.groups[n], u.groups[n])
    && t.nextOffset == u.nextOffset
    && forall o | o in t.messages && o in u.messages && o >= t.groups[n].watermark :: t.messages[o] == u.messages[o]
  }

  /** A consuming operation of another group, or a reclaim. */
  predicate Foreign(op: Op, n: Name) {
    op.DropDone? || ((op.Lend? || op.Settle? || op.Release? || op.Advance?) && op.group != n)
  }

  lemma ForeignKeepsMessages(t: TopicState, op: Op, leases: nat, n: Name)
    requires TopicInv(t, leases) && leases <= MAX_COUNTER && Foreign(op, n)
    ensures var r := TopicStep(t, op, leases).0;
            && r.nextOffset == t.nextOffset
            && forall o | o in r.messages :: o in t.messages && r.messages[o] == t.messages[o]
  {
    hide TopicInv, Sweep, Chosen, IssueLeases, Deliveries, Refreshed, AdvanceWatermark, AckLease, Unlease, DropConsumed;
    match op
    case Lend(group, max, visibilityMs, tsMs) => SweepFacts(t, tsMs, leases);
    case Advance(group, offset, nowMs) => if nowMs.Some? { SweepFacts(t, nowMs.value, leases); }
    case DropDone => DropConsumedFacts(t, leases); WithinGc(t, leases); ReclaimIsDropConsumed(t);
    case _ =>
  }

  lemma WithinGc(t: TopicState, leases: nat)
    requires TopicInv(t, leases)
    ensures |t.groups| <= GROUP_GC_THRESHOLD
  {
  }

  lemma ForeignResult(u: TopicState, op: Op, leases: nat, n: Name)
    requires n in u.groups && Foreign(op, n) && !op.Remove?
    ensures GroupResult(u, op, leases, n) == StampedAt(u.groups[n], ClockOf(op))
  {
    hide TopicStep, AdvanceWatermark;
  }

  lemma ForeignStep(t: TopicState, u: TopicState, op: Op, leases: nat, n: Name)
    requires TopicInv(u, leases) && leases <= MAX_COUNTER && u.nextOffset <= MAX_COUNTER
    requires SameView(t, u, n) && Foreign(op, n) && KeepsGroup(u, op, n)
    ensures SameView(t, TopicStep(u, op, leases).0, n)
  {
    hide TopicInv, TopicStep, KeepsGroup, GroupResult;
    GroupAfter(u, op, leases, n);
    ForeignResult(u, op, leases, n);
    ForeignKeepsMessages(u, op, leases, n);
  }

  /** The rest of the run is consumption by others that never expires the group. */
  ghost predicate ForeignRun(q: QueueState, calls: seq<Call>, topic: Name, n: Name)
    decreases |calls|
  {
    calls != [] ==>
      && (calls[0].topic == topic ==> Foreign(calls[0].op, n))
      && KeepsRecord(q, calls[0], topic, n)
      && ForeignRun(Step(q, calls[0]), calls[1..], topic, n)
  }

  lemma ForeignQueueStep(q: QueueState, t: TopicState, call: Call, topic: Name, n: Name)
    requires QueueInv(q) && Headroom(q) && KeepsRecord(q, call, topic, n)
    requires call.topic == topic ==> Foreign(call.op, n)
    requires topic in q.topics && SameView(t, q.topics[topic], n)
    ensures topic in Step(q, call).topics && SameView(t, Step(q, call).topics[topic], n)
  {
    hide SameView, TopicStep, KeepsGroup, Foreign, TopicInv, Creates;
    if call.topic == topic {
      ForeignStep(t, q.topics[topic], call.op, q.nextLeaseId, n);
    }
  }

  lemma {:induction false} ForeignRunKeepsView(q: QueueState, t: TopicState, calls: seq<Call>, topic: Name, n: Name)
    requires QueueInv(q) && Fits(q, calls) && ForeignRun(q, calls, topic, n)
    requires topic in q.topics && SameView(t, q.topics[topic], n)
    ensures topic in Steps(q, calls).topics && SameView(t, Steps(q, calls).topics[topic], n)
    decreases |calls|
  {
    if calls != [] {
      hide QueueInv, SameView, Step, KeepsRecord, Foreign, Headroom;
      StepKeeps(q, calls[0]);
      ForeignQueueStep(q, t, calls[0], topic, n);
      ForeignRunKeepsView(Step(q, calls[0]), t, calls[1..], topic, n);
    }
  }

  // ---------------------------------------------------------------- the same poll

  lemma NonEmpty(b: seq<Item>)
    ensures b != [] ==> Elements(b) != {}
  {
    if b != [] {
      assert b[0] in Elements(b);
    }
  }

  /** The first of a sequence by offset is its least, and the rest is everything else. */
  lemma ByOffsetTail(a: seq<Item>)
    requires ByOffset(a) && a != []
    ensures ByOffset(a[1..]) && Elements(a[1..]) == Elements(a) - {a[0]}
    ensures forall x | x in Elements(a) :: x == a[0] || a[0].offset < x.offset
  {
    assert a == [a[0]] + a[1..];
    forall x | x in a[1..] ensures a[0].offset < x.offset {
      var k :| 0 <= k < |a[1..]| && a[1..][k] == x;
      assert a[k + 1] == x;
    }
  }

  lemma {:induction false} ByOffsetUnique(a: seq<Item>, b: seq<Item>)
    requires ByOffset(a) && ByOffset(b) && Elements(a) == Elements(b)
    ensures a == b
  {
    if a == [] {
      NonEmpty(b);
    } else {
      assert a[0] in Elements(b) && b[0] in Elements(a);
      ByOffsetTail(a);
      ByOffsetTail(b);
      hide ByOffset, Elements;
      ByOffsetUnique(a[1..], b[1..]);
      assert a == [a[0]] + a[1..] && b == [b[0]] + b[1..];
    }
  }

  /** Groups that differ only in their activity stamp, over messages that agree from the watermark on, have the
      same candidates. */
  lemma SameCandidates(m: map<nat, Message>, g: GroupState, k: map<nat, Message>, h: GroupState)
    requires h == g.(lastActiveMs := h.lastActiveMs)
    requires forall o | o >= g.watermark :: o in m <==> o in k
    requires forall o | o >= g.watermark && o in m && o in k :: m[o] == k[o]
    ensures Candidates(m, g) == Candidates(k, h)
  {
    CandidatesFacts(m, g);
    CandidatesFacts(k, h);
    hide Candidates;
    forall x ensures x in Elements(Candidates(m, g)) <==> x in Elements(Candidates(k, h)) {
      assert IsOpen(g, x.offset) <==> IsOpen(h, x.offset);
      assert IsOpen(g, x.offset) ==> x.offset >= g.watermark;
    }
    ByOffsetUnique(Candidates(m, g), Candidates(k, h));
  }

  function Unleased(d: Delivered): Delivered { d.(leaseId := 0) }

  /** What was handed out, without the lease ids. */
  function Contents(items: seq<Delivered>): (r: seq<Delivered>)
    ensures |r| == |items| && forall i | 0 <= i < |r| :: r[i] == Unleased(items[i])
  {
    if items == [] then [] else [Unleased(items[0])] + Contents(items[1..])
  }

  /** After a sweep the group sees every message from its watermark on. */
  lemma SweptView(t: TopicState, leases: nat, n: Name, tsMs: nat)
    requires TopicInv(t, leases) && n in t.groups && Survives(t.groups[n], tsMs)
    ensures var swept := Sweep(t, tsMs);
            && n in swept.groups && swept.groups[n] == Stamped(t.groups[n], tsMs) && swept.nextOffset == t.nextOffset
            && (forall o | o >= t.groups[n].watermark :: o in swept.messages <==> o < t.nextOffset)
            && (forall o | o in swept.messages :: o in t.messages && swept.messages[o] == t.messages[o])
  {
    var swept := Sweep(t, tsMs);
    SweepFacts(t, tsMs, leases);
    assert GroupInv(swept.groups[n], Base(swept), swept.nextOffset, leases);
    assert Retains(swept.messages, Base(swept), swept.nextOffset);
  }

  lemma RefreshedTwin(s: GroupState, r: GroupState, tsMs: nat)
    requires r == s.(lastActiveMs := r.lastActiveMs)
    ensures Refreshed(r, tsMs) == Refreshed(s, tsMs).(lastActiveMs := Refreshed(r, tsMs).lastActiveMs)
    ensures Refreshed(s, tsMs).watermark == s.watermark
  {
    assert DueLeases(s, tsMs) == DueLeases(r, tsMs);
    assert Expire(r, tsMs).inFlight == Expire(s, tsMs).inFlight;
    assert Expire(r, tsMs).leasedOffsets == Expire(s, tsMs).leasedOffsets;
  }

  lemma SameChoice(t: TopicState, u: TopicState, n: Name, max: nat, tsMs: nat, k: nat, l: nat)
    requires TopicInv(t, k) && TopicInv(u, l) && SameView(t, u, n)
    requires Survives(t.groups[n], tsMs) && Survives(u.groups[n], tsMs)
    ensures var s, v := Sweep(t, tsMs), Sweep(u, tsMs);
            && n in s.groups && n in v.groups
            && Chosen(s.messages, s.groups[n], max, tsMs) == Chosen(v.messages, v.groups[n], max, tsMs)
            && forall x | x in Chosen(s.messages, s.groups[n], max, tsMs) ::
                 x.offset in s.messages && x.offset in v.messages && s.messages[x.offset] == v.messages[x.offset]
  {
    hide TopicInv, Sweep, Survives, Refreshed, Candidates;
    SweptView(t, k, n, tsMs);
    SweptView(u, l, n, tsMs);
    var s, v := Sweep(t, tsMs), Sweep(u, tsMs);
    RefreshedTwin(s.groups[n], v.groups[n], tsMs);
    SameCandidates(s.messages, Refreshed(s.groups[n], tsMs), v.messages, Refreshed(v.groups[n], tsMs));
    ChosenFacts(s.messages, s.groups[n], max, tsMs);
    forall x | x in Chosen(s.messages, s.groups[n], max, tsMs)
      ensures x.offset in v.messages && s.messages[x.offset] == v.messages[x.offset]
    {
      assert IsOpen(Refreshed(s.groups[n], tsMs), x.offset);
    }
  }

  /** Topics that look the same to a group answer its polls with the same messages in the same order. */
  lemma SamePoll(t: TopicState, u: TopicState, n: Name, max: u32, visibilityMs: nat, tsMs: nat, k: nat, l: nat)
    requires TopicInv(t, k) && TopicInv(u, l) && k <= MAX_COUNTER && l <= MAX_COUNTER && SameView(t, u, n)
    requires Survives(u.groups[n], tsMs)
    ensures Contents(PollTopic(t, n, max, visibilityMs, tsMs, k).items) ==
            Contents(PollTopic(u, n, max, visibilityMs, tsMs, l).items)
  {
    assert Survives(t.groups[n], tsMs);
    hide TopicInv, Sweep, Survives, Chosen, PollTopic, SameView;
    SameChoice(t, u, n, max, tsMs, k, l);
    ItemsAreChosen(t, n, max, visibilityMs, tsMs, k);
    ItemsAreChosen(u, n, max, visibilityMs, tsMs, l);
    var a := PollTopic(t, n, max, visibilityMs, tsMs, k).items;
    var b := PollTopic(u, n, max, visibilityMs, tsMs, l).items;
    var s := Sweep(t, tsMs);
    var chosen := Chosen(s.messages, s.groups[n], max, tsMs);
    hide Contents;
    forall i | 0 <= i < |chosen| ensures Unleased(a[i]) == Unleased(b[i]) {
      assert chosen[i] in chosen;
    }
  }

  /** Fan-out: whatever other groups consume, a group's next poll answers the same messages in the same order;
      only the lease ids differ. */
  lemma GroupsAreIndependent(q: QueueState, calls: seq<Call>, topic: Name, n: Name, max: u32, visibilityMs: u64, tsMs: u64)
    requires QueueInv(q) && Fits(q, calls) && Headroom(Steps(q, calls)) && ForeignRun(q, calls, topic, n)
    requires topic in q.topics && n in q.topics[topic].groups
    requires var after := Steps(q, calls);
             topic in after.topics && n in after.topics[topic].groups ==> Survives(after.topics[topic].groups[n], tsMs)
    ensures Contents(Items(q, topic, n, max, visibilityMs, tsMs)) ==
            Contents(Items(Steps(q, calls), topic, n, max, visibilityMs, tsMs))
  {
    hide Fits, ForeignRun, Survives, TopicInv, PollTopic;
    var after := Steps(q, calls);
    assert SameView(q.topics[topic], q.topics[topic], n);
    ForeignRunKeepsView(q, q.topics[topic], calls, topic, n);
    StepsKeep(q, calls);
    assert Headroom(q) by { FitsNow(q, calls); }
    SamePoll(q.topics[topic], after.topics[topic], n, max, visibilityMs, tsMs, q.nextLeaseId, after.nextLeaseId);
  }

  lemma FitsNow(q: QueueState, calls: seq<Call>)
    requires Fits(q, calls)
    ensures Headroom(q)
  {
  }

  // ---------------------------------------------------------------- the read-only fast check

  /** Some message from the watermark on is neither acknowledged nor under an unexpired lease. */
  predicate SomeFree(messages: map<nat, Message>, g: GroupState, nowMs: nat) {
    exists o :: o in messages && o >= g.watermark && o !in g.ackedAbove
                && (o in g.leasedOffsets ==> g.leasedOffsets[o] <= nowMs)
  }

  /** `Queue::has_deliverable`. */
  predicate HasDeliverable(q: QueueState, topic: Name, group: Name, nowMs: nat) {
    && topic in q.topics
    && var t := q.topics[topic];
    if group in t.groups then SomeFree(t.messages, t.groups[group], nowMs) else t.messages != map[]
  }

  /** A poll for at least one message answers one exactly when some message is open to the refreshed record. */
  lemma PollAnswersIff(t: TopicState, group: Name, max: u32, visibilityMs: nat, tsMs: nat, leases: nat)
    requires TopicInv(t, leases) && leases <= MAX_COUNTER && max >= 1
    ensures var swept := Sweep(t, tsMs);
            PollTopic(t, group, max, visibilityMs, tsMs, leases).items != [] <==>
            && Admits(swept, group)
            && exists o :: o in swept.messages && IsOpen(Refreshed(GroupEntry(swept, group, Some(tsMs)), tsMs), o)
  {
    var swept := Sweep(t, tsMs);
    if Admits(swept, group) {
      var entry := GroupEntry(swept, group, Some(tsMs));
      hide TopicInv, Sweep, Chosen, Refreshed, Candidates, Admits, GroupEntry, PollTopic;
      ItemsAreChosen(t, group, max, visibilityMs, tsMs, leases);
      ChosenFacts(swept.messages, entry, max, tsMs);
      CandidatesFacts(swept.messages, Refreshed(entry, tsMs));
      var candidates := Candidates(swept.messages, Refreshed(entry, tsMs));
      if candidates != [] {
        assert candidates[0] in candidates;
      }
      forall o | o in swept.messages && IsOpen(Refreshed(entry, tsMs), o) ensures candidates != [] {
        assert Item(swept.messages[o].priority, o).offset == o;
        assert Item(swept.messages[o].priority, o) in candidates;
      }
    }
  }

  lemma KnownGroupCheck(t: TopicState, group: Name, max: u32, visibilityMs: nat, nowMs: nat, leases: nat)
    requires TopicInv(t, leases) && leases <= MAX_COUNTER && max >= 1
    requires group in t.groups && Survives(t.groups[group], nowMs)
    ensures SomeFree(t.messages, t.groups[group], nowMs) <==>
            PollTopic(t, group, max, visibilityMs, nowMs, leases).items != []
  {
    var g := t.groups[group];
    GroupOf(t, leases, group);
    RetainedAbove(t, group, leases);
    hide TopicInv, GroupInv, Sweep, Refreshed, Survives, PollTopic, Base, SomeFree, Stamped, IsOpen;
    PollAnswersIff(t, group, max, visibilityMs, nowMs, leases);
    SweptView(t, leases, group, nowMs);
    StampedKeeps(g, nowMs, Base(t), t.nextOffset, leases);
    StampedView(g, nowMs);
    RefreshedFacts(Stamped(g, nowMs), nowMs, Base(t), t.nextOffset, leases);
    CheckIsOpen(t.messages, Sweep(t, nowMs).messages, g, Refreshed(Stamped(g, nowMs), nowMs), nowMs, t.nextOffset);
  }

  lemma RetainedAbove(t: TopicState, group: Name, leases: nat)
    requires TopicInv(t, leases) && group in t.groups
    ensures forall o | o >= t.groups[group].watermark :: o in t.messages <==> o < t.nextOffset
  {
    GroupOf(t, leases, group);
  }

  /** The check agrees with the poll for every group that is not idle-expired... */
  lemma FastCheckKnownGroup(q: QueueState, topic: Name, group: Name, max: u32, visibilityMs: u64, nowMs: u64)
    requires QueueInv(q) && Headroom(q) && max >= 1
    requires topic in q.topics && group in q.topics[topic].groups && Survives(q.topics[topic].groups[group], nowMs)
    ensures HasDeliverable(q, topic, group, nowMs) <==> Items(q, topic, group, max, visibilityMs, nowMs) != []
  {
    hide TopicInv, Survives, PollTopic, SomeFree;
    KnownGroupCheck(q.topics[topic], group, max, visibilityMs, nowMs, q.nextLeaseId);
  }

  lemma CheckIsOpen(messages: map<nat, Message>, swept: map<nat, Message>, g: GroupState, ref: GroupState, nowMs: nat, next: nat)
    requires forall o | o >= g.watermark :: (o in messages <==> o < next) && (o in swept <==> o < next)
    requires forall o: nat :: IsDone(ref, o) <==> IsDone(g, o)
    requires forall o :: o in ref.leasedOffsets <==> o in g.leasedOffsets && g.leasedOffsets[o] > nowMs
    ensures SomeFree(messages, g, nowMs) <==> exists o :: o in swept && IsOpen(ref, o)
  {
    forall o | o in messages && o >= g.watermark && o !in g.ackedAbove && (o in g.leasedOffsets ==> g.leasedOffsets[o] <= nowMs)
      ensures o in swept && IsOpen(ref, o)
    {
      assert !IsDone(g, o);
    }
    forall o | o in swept && IsOpen(ref, o)
      ensures o in messages && o >= g.watermark && o !in g.ackedAbove && (o in g.leasedOffsets ==> g.leasedOffsets[o] <= nowMs)
    {
      assert !IsDone(g, o);
    }
  }

  /** ...and for an unknown group below the cap, when the poll's sweep expires nobody. */
  lemma FastCheckNewGroup(q: QueueState, topic: Name, group: Name, max: u32, visibilityMs: u64, nowMs: u64)
    requires QueueInv(q) && Headroom(q) && max >= 1
    requires topic in q.topics && group !in q.topics[topic].groups
    requires |q.topics[topic].groups| < MAX_GROUPS_PER_TOPIC
    requires forall n | n in q.topics[topic].groups :: Survives(q.topics[topic].groups[n], nowMs)
    ensures HasDeliverable(q, topic, group, nowMs) <==> Items(q, topic, group, max, visibilityMs, nowMs) != []
  {
    var t := q.topics[topic];
    assert TopicInv(t, q.nextLeaseId);
    var swept := Sweep(t, nowMs);
    NobodySwept(t, nowMs);
    hide TopicInv, QueueInv, Sweep, Refreshed, Survives, PollTopic;
    PollAnswersIff(t, group, max, visibilityMs, nowMs, q.nextLeaseId);
    var entry := GroupEntry(swept, group, Some(nowMs));
    NewRecordOpen(swept, group, nowMs);
    if t.messages != map[] {
      var o :| o in t.messages;
      assert o in swept.messages && IsOpen(Refreshed(entry, nowMs), o);
    }
  }

  lemma NobodySwept(t: TopicState, nowMs: nat)
    requires forall n | n in t.groups :: Survives(t.groups[n], nowMs)
    ensures Sweep(t, nowMs).messages == t.messages && Sweep(t, nowMs).groups.Keys == t.groups.Keys
    ensures |Sweep(t, nowMs).groups| == |t.groups| && Sweep(t, nowMs).nextOffset == t.nextOffset
  {
    var swept := SweepIdleGroups(t, nowMs);
    assert swept.groups.Keys == t.groups.Keys;
    MapSize(swept.groups, t.groups);
    MapSize(t.groups, swept.groups);
  }

  lemma NewRecordOpen(t: TopicState, group: Name, nowMs: nat)
    requires group !in t.groups
    ensures forall o | o in t.messages :: IsOpen(Refreshed(GroupEntry(t, group, Some(nowMs)), nowMs), o)
  {
    var entry := GroupEntry(t, group, Some(nowMs));
    assert DueLeases(entry, nowMs) == {};
    assert Refreshed(entry, nowMs).leasedOffsets == map[];
    forall o | o in t.messages ensures Base(t) <= o {
      assert o in t.messages.Keys;
    }
  }
}
