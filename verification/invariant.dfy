/** What every run keeps: the inductive invariant, the snapshot validator and conservation. */
module Invariant {
  import opened Collections
  import opened Model
  import opened Groups
  import opened Topics
  import opened TopicFacts
  import opened Queue

  ghost predicate QueueInv(q: QueueState) {
    forall n | n in q.topics :: TopicInv(q.topics[n], q.nextLeaseId)
  }

  /** No counter is near the top of its range. */
  ghost predicate Headroom(q: QueueState) {
    && q.nextLeaseId <= MAX_COUNTER
    && forall n | n in q.topics :: q.topics[n].nextOffset <= MAX_COUNTER
  }

  lemma TopicOf(q: QueueState, topic: Name)
    requires QueueInv(q) && topic in q.topics
    ensures TopicInv(q.topics[topic], q.nextLeaseId)
  {
  }

  // ---------------------------------------------------------------- one operation

  lemma WiderTopicInv(t: TopicState, leases: nat, leases': nat)
    requires TopicInv(t, leases) && leases <= leases'
    ensures TopicInv(t, leases')
  {
    WiderGroupsInv(t.groups, Base(t), t.nextOffset, leases, t.nextOffset, leases');
  }

  lemma EmptyTopicKeeps(leases: nat)
    ensures TopicInv(EMPTY_TOPIC, leases)
  {
  }

  lemma SettingsKeep(t: TopicState, t': TopicState, leases: nat)
    requires TopicInv(t, leases)
    requires t' == t.(rateMilliPerSec := t'.rateMilliPerSec, burst := t'.burst,
                      retainMaxMessages := t'.retainMaxMessages, retainMaxAgeMs := t'.retainMaxAgeMs)
    ensures TopicInv(t', leases)
  {
  }

  lemma ReclaimKeeps(t: TopicState, leases: nat)
    requires TopicInv(t, leases)
    ensures TopicInv(Reclaim(t), leases)
    ensures Reclaim(t).groups == t.groups && Reclaim(t).nextOffset == t.nextOffset
  {
    DropConsumedFacts(t, leases);
    ReclaimIsDropConsumed(t);
  }

  /** Operations that move no counter. */
  predicate Settling(op: Op) { op.Settle? || op.Release? || op.DropDone? }

  lemma TopicStepKeeps(t: TopicState, op: Op, leases: nat)
    requires TopicInv(t, leases) && !op.Remove?
    requires Settling(op) || (leases <= MAX_COUNTER && t.nextOffset <= MAX_COUNTER)
    ensures TopicInv(TopicStep(t, op, leases).0, TopicStep(t, op, leases).1)
    ensures leases <= TopicStep(t, op, leases).1
  {
    hide TopicInv, ProduceTo, PollTopic, AckTopic, NackTopic, CommitTopic, Reclaim;
    match op
    case StoreItem(item) => ProduceKeeps(t, item, leases);
    case Lend(group, max, visibilityMs, tsMs) => PollKeeps(t, group, max, visibilityMs, tsMs, leases);
    case Settle(group, leaseId) => AckKeeps(t, group, leaseId, leases);
    case Release(group, leaseId) => NackKeeps(t, group, leaseId, leases);
    case Advance(group, offset, nowMs) => CommitKeeps(t, group, offset, nowMs, leases);
    case DropDone => ReclaimKeeps(t, leases);
    case Ensure =>
    case LimitRate(rate, burst) => SettingsKeep(t, t.(rateMilliPerSec := rate, burst := burst), leases);
    case LimitRetention(count, age) =>
      SettingsKeep(t, t.(retainMaxMessages := count, retainMaxAgeMs := age), leases);
  }

  lemma StepKeeps(q: QueueState, call: Call)
    requires QueueInv(q) && (Headroom(q) || Settling(call.op))
    ensures QueueInv(Step(q, call))
    ensures q.nextLeaseId <= Step(q, call).nextLeaseId
  {
    hide TopicInv, TopicStep, Creates;
    if !call.op.Remove? {
      EmptyTopicKeeps(q.nextLeaseId);
      TopicStepKeeps(TopicOr(q, call.topic), call.op, q.nextLeaseId);
      var leases := TopicStep(TopicOr(q, call.topic), call.op, q.nextLeaseId).1;
      forall n | n in q.topics ensures TopicInv(q.topics[n], leases) {
        WiderTopicInv(q.topics[n], q.nextLeaseId, leases);
      }
    }
  }

  /** Counters only grow, so headroom afterwards was headroom before. */
  lemma HeadroomBefore(q: QueueState, call: Call)
    requires !call.op.Remove? && Headroom(Step(q, call))
    ensures Headroom(q)
  {
    CountersGrow(TopicOr(q, call.topic), call.op, q.nextLeaseId);
    hide TopicStep, Creates;
    var r := Step(q, call);
    forall n | n in q.topics ensures q.topics[n].nextOffset <= MAX_COUNTER {
      assert n in r.topics;
    }
  }

  lemma CountersGrow(t: TopicState, op: Op, leases: nat)
    requires !op.Remove?
    ensures var r := TopicStep(t, op, leases);
            && (r.0.nextOffset <= MAX_COUNTER ==> t.nextOffset <= r.0.nextOffset)
            && (r.1 <= MAX_COUNTER ==> leases <= r.1)
  {
    hide DropConsumed, Chosen, Deliveries, IssueLeases, RaiseGroups, PruneDedup, DropOldest, PurgeCount, FirstOffset;
    match op
    case StoreItem(item) =>
    case Lend(group, max, visibilityMs, tsMs) =>
      assert Sweep(t, tsMs).nextOffset == t.nextOffset by { ReclaimKeepsNext(SweepIdleGroups(t, tsMs)); }
    case Advance(group, offset, nowMs) =>
      if nowMs.Some? { ReclaimKeepsNext(SweepIdleGroups(t, nowMs.value)); }
    case DropDone => ReclaimKeepsNext(t);
    case _ =>
  }

  lemma ReclaimKeepsNext(t: TopicState)
    ensures Reclaim(t).nextOffset == t.nextOffset
  {
  }

  // ---------------------------------------------------------------- one request

  ghost predicate Fits(q: QueueState, calls: seq<Call>)
    decreases |calls|
  {
    Headroom(q) && (calls != [] ==> Fits(Step(q, calls[0]), calls[1..]))
  }

  ghost predicate NoRemove(calls: seq<Call>) {
    forall c | c in calls :: !c.op.Remove?
  }

  lemma {:induction false} FitsBackward(q: QueueState, calls: seq<Call>)
    requires NoRemove(calls) && Headroom(Steps(q, calls))
    ensures Fits(q, calls)
    decreases |calls|
  {
    if calls != [] {
      FitsBackward(Step(q, calls[0]), calls[1..]);
      HeadroomBefore(q, calls[0]);
    }
  }

  lemma {:induction false} StoresCalls(items: seq<ProduceItem>)
    ensures forall c | c in Stores(items) :: c.op.StoreItem? && c.op.item in items && c.topic == c.op.item.topic
    decreases |items|
  {
    if items != [] {
      StoresCalls(items[1..]);
    }
  }

  lemma {:induction false} SettlesCalls(topic: Name, group: Name, leaseIds: seq<nat>)
    ensures forall c | c in Settles(topic, group, leaseIds) ::
      c.topic == topic && c.op.Settle? && c.op.group == group && c.op.leaseId in leaseIds
    decreases |leaseIds|
  {
    if leaseIds != [] {
      SettlesCalls(topic, group, leaseIds[1..]);
    }
  }

  lemma {:induction false} ReleasesCalls(topic: Name, group: Name, leaseIds: seq<nat>)
    ensures forall c | c in Releases(topic, group, leaseIds) ::
      c.topic == topic && c.op.Release? && c.op.group == group && c.op.leaseId in leaseIds
    decreases |leaseIds|
  {
    if leaseIds != [] {
      ReleasesCalls(topic, group, leaseIds[1..]);
    }
  }

  lemma ScriptNoRemove(q: QueueState, r: Request)
    requires !r.DeleteTopic?
    ensures NoRemove(Script(q, r))
  {
    hide Items, ProduceAllowed, ConsumerOk, NameOk, TopicAdmits;
    match r
    case ProduceMany(items) => StoresCalls(items);
    case AckMany(topic, group, leaseIds) => SettlesCalls(topic, group, leaseIds);
    case NackMany(topic, group, leaseIds) => ReleasesCalls(topic, group, leaseIds);
    case PollAuto(topic, group, max, visibilityMs, tsMs) =>
      SettlesCalls(topic, group, LeaseIds(Items(q, topic, group, max, visibilityMs, tsMs)));
    case _ =>
  }

  lemma DeleteFits(q: QueueState, topic: Name)
    requires Headroom(q) && Headroom(Apply(q, DeleteTopic(topic)).0)
    ensures Fits(q, Script(q, DeleteTopic(topic)))
  {
    var script := Script(q, DeleteTopic(topic));
    assert script[1..] == [];
    assert Fits(Step(q, script[0]), []);
  }

  lemma ScriptFits(q: QueueState, r: Request)
    requires Headroom(q) && Headroom(Apply(q, r).0)
    ensures Fits(q, Script(q, r))
  {
    hide Apply, Script, Headroom, NoRemove, Step;
    ScriptIsApply(q, r);
    if r.DeleteTopic? {
      DeleteFits(q, r.topic);
    } else {
      ScriptNoRemove(q, r);
      FitsBackward(q, Script(q, r));
    }
  }

  lemma {:induction false} StepsKeep(q: QueueState, calls: seq<Call>)
    requires QueueInv(q) && Fits(q, calls)
    ensures QueueInv(Steps(q, calls))
    ensures q.nextLeaseId <= Steps(q, calls).nextLeaseId
    decreases |calls|
  {
    hide QueueInv, Step;
    if calls != [] {
      StepKeeps(q, calls[0]);
      StepsKeep(Step(q, calls[0]), calls[1..]);
    }
  }

  /** Every request keeps the invariant. */
  lemma ApplyKeeps(q: QueueState, r: Request)
    requires QueueInv(q) && Headroom(q) && Headroom(Apply(q, r).0)
    ensures QueueInv(Apply(q, r).0)
    ensures q.nextLeaseId <= Apply(q, r).0.nextLeaseId
  {
    hide *;
    ScriptFits(q, r);
    StepsKeep(q, Script(q, r));
    ScriptIsApply(q, r);
  }

  // ---------------------------------------------------------------- whole runs

  ghost predicate TopicCountersBelow(t: TopicState) {
    && t.nextOffset <= MAX_COUNTER
    && forall g | g in t.groups :: t.groups[g].pollCount <= MAX_COUNTER
  }

  /** Every counter a snapshot can set is at most the ceiling. */
  ghost predicate CountersBelow(q: QueueState) {
    && q.nextLeaseId <= MAX_COUNTER
    && forall n | n in q.topics :: TopicCountersBelow(q.topics[n])
  }

  /** The counters stay below the ceiling in every state the run visits. */
  ghost predicate BelowCeiling(q: QueueState, requests: seq<Request>)
    decreases |requests|
  {
    CountersBelow(q) && (requests != [] ==> BelowCeiling(Apply(q, requests[0]).0, requests[1..]))
  }

  lemma {:induction false} RunKeeps(q: QueueState, requests: seq<Request>)
    requires QueueInv(q) && BelowCeiling(q, requests)
    ensures QueueInv(Run(q, requests)) && CountersBelow(Run(q, requests))
    ensures q.nextLeaseId <= Run(q, requests).nextLeaseId
    decreases |requests|
  {
    hide QueueInv, Apply;
    if requests != [] {
      ApplyKeeps(q, requests[0]);
      RunKeeps(Apply(q, requests[0]).0, requests[1..]);
    }
  }

  lemma EmptyQueueInv()
    ensures QueueInv(EMPTY_QUEUE) && CountersBelow(EMPTY_QUEUE)
  {
  }

  // ---------------------------------------------------------------- the snapshot validator

  function LeaseOffsets(leases: map<nat, Lease>): set<nat> {
    set l | l in leases :: leases[l].offset
  }

  predicate GroupValid(g: GroupState, next: nat, leases: nat) {
    && g.pollCount <= MAX_COUNTER
    && g.watermark <= next
    && (forall o | o in g.ackedAbove :: o < next)
    && (forall l | l in g.inFlight :: l < leases && g.inFlight[l].offset < next)
    && |LeaseOffsets(g.inFlight)| == |g.inFlight|
    && g.leasedOffsets.Keys == LeaseOffsets(g.inFlight)
    && (forall l | l in g.inFlight :: g.leasedOffsets[g.inFlight[l].offset] == g.inFlight[l].deadlineMs)
    && g.watermark !in g.ackedAbove
    && (forall o | o in g.ackedAbove :: g.watermark <= o)
    && (forall o | o in g.leasedOffsets :: g.watermark <= o)
  }

  predicate TopicValid(t: TopicState, leases: nat) {
    && t.nextOffset <= MAX_COUNTER
    && (forall o | o in t.messages :: t.messages[o].offset == o && o < t.nextOffset)
    && |t.dedup.entries| == |t.dedup.order|
    && |t.dedup.entries| <= DEDUP_CAPACITY
    && |Elements(t.dedup.order)| == |t.dedup.order|
    && (forall k | k in t.dedup.order :: k in t.dedup.entries)
    && (forall g | g in t.groups :: GroupValid(t.groups[g], t.nextOffset, leases))
  }

  /** `Queue::validate`. */
  predicate Validate(q: QueueState) {
    q.nextLeaseId <= MAX_COUNTER && forall n | n in q.topics :: TopicValid(q.topics[n], q.nextLeaseId)
  }

  /** The projection of the leases on their offsets loses none of them. */
  lemma {:induction false} ProjectionSize(m: map<nat, Lease>)
    requires forall l, k | l in m && k in m && m[l].offset == m[k].offset :: l == k
    ensures |LeaseOffsets(m)| == |m|
    decreases |m|
  {
    if m == map[] {
      assert LeaseOffsets(m) == {};
    } else {
      var k :| k in m;
      var rest := m - {k};
      assert rest.Keys == m.Keys - {k};
      assert |rest| == |rest.Keys| && |m| == |m.Keys|;
      ProjectionSize(rest);
      ProjectionSplit(m, k);
    }
  }

  lemma ProjectionSplit(m: map<nat, Lease>, k: nat)
    requires k in m
    ensures LeaseOffsets(m) == LeaseOffsets(m - {k}) + {m[k].offset}
    ensures (forall l | l in m && m[l].offset == m[k].offset :: l == k) ==> m[k].offset !in LeaseOffsets(m - {k})
  {
    forall o | o in LeaseOffsets(m) ensures o in LeaseOffsets(m - {k}) + {m[k].offset} {
      var l :| l in m && m[l].offset == o;
      assert l == k || l in m - {k};
    }
  }

  lemma MirroredProjection(g: GroupState)
    requires Mirrored(g)
    ensures g.leasedOffsets.Keys == LeaseOffsets(g.inFlight)
    ensures |LeaseOffsets(g.inFlight)| == |g.inFlight| == |g.leasedOffsets|
  {
    ProjectionSize(g.inFlight);
    assert |g.leasedOffsets| == |g.leasedOffsets.Keys|;
  }

  lemma GroupInvValid(g: GroupState, base: nat, next: nat, leases: nat)
    requires GroupInv(g, base, next, leases)
    ensures GroupValid(g, next, leases) <==> g.pollCount <= MAX_COUNTER
  {
    MirroredProjection(g);
  }

  lemma DedupSizes(d: Dedup, next: nat)
    requires DedupInv(d, next)
    ensures |d.entries| == |d.order| == |Elements(d.order)|
  {
    DistinctSize(d.order);
    assert Elements(d.order) == d.entries.Keys;
    assert |d.entries| == |d.entries.Keys|;
  }

  lemma TopicInvValid(t: TopicState, leases: nat)
    requires TopicInv(t, leases)
    ensures TopicValid(t, leases) <==> TopicCountersBelow(t)
  {
    DedupSizes(t.dedup, t.nextOffset);
    forall g | g in t.groups
      ensures GroupValid(t.groups[g], t.nextOffset, leases) <==> t.groups[g].pollCount <= MAX_COUNTER
    {
      GroupInvValid(t.groups[g], Base(t), t.nextOffset, leases);
    }
    hide GroupValid, GroupInv;
  }

  /** In a reachable state the validator looks at nothing but the counters. */
  lemma InvariantValidates(q: QueueState)
    requires QueueInv(q)
    ensures Validate(q) <==> CountersBelow(q)
  {
    forall n | n in q.topics ensures TopicValid(q.topics[n], q.nextLeaseId) <==> TopicCountersBelow(q.topics[n]) {
      TopicInvValid(q.topics[n], q.nextLeaseId);
    }
    hide TopicValid, TopicInv, TopicCountersBelow;
  }

  /** From the empty queue, every state of every run below the ceiling is one the validator accepts. */
  lemma EveryRunValidates(requests: seq<Request>)
    requires BelowCeiling(EMPTY_QUEUE, requests)
    ensures Validate(Run(EMPTY_QUEUE, requests))
  {
    EmptyQueueInv();
    RunKeeps(EMPTY_QUEUE, requests);
    InvariantValidates(Run(EMPTY_QUEUE, requests));
  }

  // ---------------------------------------------------------------- conservation

  /** Retained messages the group has neither finished nor leased. */
  function Undelivered(t: TopicState, g: GroupState): set<nat> {
    set o | o in t.messages && IsOpen(g, o)
  }

  lemma OffsetsPartition(messages: map<nat, Message>, g: GroupState, base: nat, next: nat, leases: nat, open: set<nat>,
                         above: set<nat>)
    requires Retains(messages, base, next) && GroupInv(g, base, next, leases)
    requires forall o :: o in open <==> o in messages && IsOpen(g, o)
    requires forall o :: o in above <==> g.watermark <= o < next
    ensures g.ackedAbove + g.leasedOffsets.Keys + open == above
    ensures g.ackedAbove !! g.leasedOffsets.Keys && g.ackedAbove + g.leasedOffsets.Keys !! open
    ensures forall l | l in g.inFlight :: g.inFlight[l].offset in messages
  {
  }

  /** Every offset from the watermark up is acknowledged, leased or still to be delivered, and only one of these. */
  lemma Conservation(t: TopicState, group: Name, leases: nat)
    requires TopicInv(t, leases) && group in t.groups
    ensures var g := t.groups[group];
            && Base(t) <= g.watermark <= t.nextOffset
            && t.nextOffset - g.watermark == |g.ackedAbove| + |g.inFlight| + |Undelivered(t, g)|
            && (forall l | l in g.inFlight :: g.inFlight[l].offset in t.messages)
  {
    var g := t.groups[group];
    assert GroupInv(g, Base(t), t.nextOffset, leases);
    OffsetsPartition(t.messages, g, Base(t), t.nextOffset, leases, Undelivered(t, g),
                     Range(g.watermark, t.nextOffset));
    MirroredProjection(g);
    var leased := g.leasedOffsets.Keys;
    hide GroupInv, TopicInv, Undelivered, Mirrored;
    assert |g.ackedAbove + leased| == |g.ackedAbove| + |leased|;
    assert |g.ackedAbove + leased + Undelivered(t, g)| == |g.ackedAbove + leased| + |Undelivered(t, g)|;
  }
}
