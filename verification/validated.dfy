/** Which validated states stay validated.

    A snapshot is installed when `Queue::validate` accepts it, whether or not a queue ever produced it. Of the strengthened
    invariant the validator lacks the interval of retained offsets, the order of the dedup table, the bound on groups and
    the separation of acknowledged from leased offsets. Only the last of these decides whether it keeps accepting. */
module Validated {
  import opened Collections
  import opened Model
  import opened Groups
  import opened Topics
  import opened TopicFacts
  import opened Queue
  import opened Invariant
  import opened Validator
  import opened Runs

  /** No offset is both acknowledged and leased in the group. */
  predicate ApartGroup(g: GroupState) { g.ackedAbove !! g.leasedOffsets.Keys }

  ghost predicate Apart(q: QueueState) {
    forall n, g | n in q.topics && g in q.topics[n].groups :: ApartGroup(q.topics[n].groups[g])
  }

  // ---------------------------------------------------------------- the part of the invariant that is kept

  ghost predicate MessagesSound(messages: map<nat, Message>, next: nat) {
    forall o | o in messages :: messages[o].offset == o && o < next
  }

  ghost predicate DedupSound(d: Dedup) {
    Distinct(d.order) && Elements(d.order) == d.entries.Keys
  }

  ghost predicate TopicSound(t: TopicState, leases: nat) {
    && MessagesSound(t.messages, t.nextOffset)
    && DedupSound(t.dedup) && |t.dedup.order| <= DEDUP_CAPACITY
    && GroupsInv(t.groups, 0, t.nextOffset, leases)
  }

  ghost predicate QueueSound(q: QueueState) {
    forall n | n in q.topics :: TopicSound(q.topics[n], q.nextLeaseId)
  }

  /** Validity with the two sets apart is the group's part of the invariant, retained offsets aside. */
  lemma GroupSoundIff(g: GroupState, next: nat, leases: nat)
    ensures GroupValid(g, next, leases) && ApartGroup(g) <==> GroupInv(g, 0, next, leases) && g.pollCount <= MAX_COUNTER
  {
    hide GroupValid;
    GroupValidMeans(g, next, leases);
    if GroupInv(g, 0, next, leases) {
      forall o | o in g.ackedAbove ensures o !in g.leasedOffsets {}
    }
    if GroupValid(g, next, leases) && ApartGroup(g) {
      forall o | o in g.leasedOffsets ensures g.watermark <= o < next && o !in g.ackedAbove {
        var l :| l in g.inFlight && g.inFlight[l].offset == o;
      }
    }
  }

  lemma TopicSoundIff(t: TopicState, leases: nat)
    ensures TopicValid(t, leases) && (forall g | g in t.groups :: ApartGroup(t.groups[g]))
       <==> TopicSound(t, leases) && TopicCountersBelow(t)
  {
    hide TopicValid, GroupValid, GroupInv, ApartGroup, Distinct;
    TopicValidMeans(t, leases);
    forall g | g in t.groups
      ensures GroupValid(t.groups[g], t.nextOffset, leases) && ApartGroup(t.groups[g]) <==>
              GroupInv(t.groups[g], 0, t.nextOffset, leases) && t.groups[g].pollCount <= MAX_COUNTER
    {
      GroupSoundIff(t.groups[g], t.nextOffset, leases);
    }
  }

  lemma SoundIff(q: QueueState)
    ensures Validate(q) && Apart(q) <==> QueueSound(q) && CountersBelow(q)
  {
    hide TopicValid, TopicSound, TopicCountersBelow, ApartGroup;
    forall n | n in q.topics
      ensures TopicValid(q.topics[n], q.nextLeaseId) && (forall g | g in q.topics[n].groups :: ApartGroup(q.topics[n].groups[g]))
         <==> TopicSound(q.topics[n], q.nextLeaseId) && TopicCountersBelow(q.topics[n])
    {
      TopicSoundIff(q.topics[n], q.nextLeaseId);
    }
  }

  // ---------------------------------------------------------------- every operation keeps it

  lemma WiderSound(t: TopicState, leases: nat, leases': nat)
    requires TopicSound(t, leases) && leases <= leases'
    ensures TopicSound(t, leases')
  {
    forall n | n in t.groups ensures GroupInv(t.groups[n], 0, t.nextOffset, leases') {
      assert GroupInv(t.groups[n], 0, t.nextOffset, leases);
    }
  }

  lemma DropFrontSound(d: Dedup)
    requires DedupSound(d) && d.order != []
    ensures DedupSound(DropFront(d))
  {
    assert d.order == [d.order[0]] + d.order[1..];
    assert d.order[0] !in d.order[1..];
    assert Elements(d.order) == {d.order[0]} + Elements(d.order[1..]);
  }

  lemma {:induction false} PruneSound(d: Dedup, boundary: nat)
    requires DedupSound(d)
    ensures DedupSound(PruneDedup(d, boundary)) && |PruneDedup(d, boundary).order| <= |d.order|
    decreases |d.order|
  {
    hide DedupSound;
    if d.order != [] && (d.order[0] in d.entries ==> d.entries[d.order[0]] < boundary) {
      DropFrontSound(d);
      PruneSound(DropFront(d), boundary);
    }
  }

  lemma {:induction false} EvictSound(d: Dedup)
    requires DedupSound(d)
    ensures DedupSound(EvictDedup(d)) && |EvictDedup(d).order| <= DEDUP_CAPACITY
    decreases |d.order|
  {
    hide DedupSound;
    if |d.order| > DEDUP_CAPACITY {
      DropFrontSound(d);
      EvictSound(DropFront(d));
    }
  }

  lemma RememberSound(d: Dedup, key: DedupKey, offset: nat)
    requires DedupSound(d) && key !in d.entries
    ensures DedupSound(RememberKey(d, key, offset)) && |RememberKey(d, key, offset).order| <= DEDUP_CAPACITY
  {
    var grown := Dedup(d.entries[key := offset], d.order + [key]);
    assert key !in Elements(d.order);
    assert Elements(grown.order) == Elements(d.order) + {key};
    EvictSound(grown);
  }

  lemma RaiseSound(groups: map<Name, GroupState>, next: nat, boundary: nat, leases: nat)
    requires GroupsInv(groups, 0, next, leases) && boundary <= next <= U64_MAX
    ensures GroupsInv(RaiseGroups(groups, boundary), 0, next, leases)
  {
    hide GroupInv, AdvanceWatermark;
    RaiseGroupsFacts(groups, 0, next, boundary, leases);
    forall n | n in groups ensures GroupInv(RaiseGroups(groups, boundary)[n], 0, next, leases) {
      LowerBase(RaiseGroups(groups, boundary)[n], boundary, next, leases);
    }
  }

  lemma LowerBase(g: GroupState, base: nat, next: nat, leases: nat)
    requires GroupInv(g, base, next, leases)
    ensures GroupInv(g, 0, next, leases)
  {
  }

  lemma BoundaryBelow(messages: map<nat, Message>, next: nat)
    requires MessagesSound(messages, next)
    ensures FirstOffset(messages, next) <= next
  {
  }

  lemma PurgeSound(t: TopicState, nowMs: nat, leases: nat)
    requires TopicSound(t, leases) && t.nextOffset <= U64_MAX
    ensures TopicSound(PurgeRetained(t, nowMs), leases)
  {
    hide GroupsInv, DedupSound, PruneDedup, RaiseGroups, PurgeCount, SortedKeys, FirstOffset;
    var n := PurgeCount(t, nowMs);
    if n > 0 {
      var messages := DropOldest(t.messages, n);
      var boundary := FirstOffset(messages, t.nextOffset);
      BoundaryBelow(messages, t.nextOffset);
      RaiseSound(t.groups, t.nextOffset, boundary, leases);
      PruneSound(t.dedup, boundary);
    }
  }

  lemma StoredSound(t: TopicState, item: ProduceItem, leases: nat)
    requires TopicSound(t, leases) && t.nextOffset < U64_MAX && !IsDuplicate(t, item)
    ensures TopicSound(Stored(t, item), leases) && Stored(t, item).nextOffset <= U64_MAX
  {
    hide DedupSound, RememberKey;
    if item.producerId != "" {
      RememberSound(t.dedup, (item.producerId, item.seqNo), t.nextOffset);
    }
    forall n | n in t.groups ensures GroupInv(t.groups[n], 0, t.nextOffset + 1, leases) {
      assert GroupInv(t.groups[n], 0, t.nextOffset, leases);
    }
  }

  lemma ProduceSound(t: TopicState, item: ProduceItem, leases: nat)
    requires TopicSound(t, leases) && t.nextOffset < U64_MAX
    ensures TopicSound(ProduceTo(t, item).0, leases)
  {
    hide TopicSound, PurgeRetained, Stored, IsDuplicate;
    if IsDuplicate(t, item) {
      PurgeSound(t, item.tsMs, leases);
    } else {
      StoredSound(t, item, leases);
      PurgeSound(Stored(t, item), item.tsMs, leases);
    }
  }

  /** Fewer messages and fewer groups are as sound. */
  lemma FewerSound(r: TopicState, t: TopicState, leases: nat)
    requires TopicSound(t, leases) && r == t.(messages := r.messages, groups := r.groups)
    requires forall o | o in r.messages :: o in t.messages && r.messages[o] == t.messages[o]
    requires forall n | n in r.groups :: n in t.groups && r.groups[n] == t.groups[n]
    ensures TopicSound(r, leases)
  {
    hide GroupInv, DedupSound;
  }

  lemma ReclaimSound(t: TopicState, leases: nat)
    requires TopicSound(t, leases)
    ensures TopicSound(Reclaim(t), leases)
  {
    hide TopicSound, Watermarks, IsDrained;
    FewerSound(Reclaim(t), t, leases);
  }

  lemma SweepSound(t: TopicState, nowMs: nat, leases: nat)
    requires TopicSound(t, leases)
    ensures TopicSound(Sweep(t, nowMs), leases) && Sweep(t, nowMs).nextOffset == t.nextOffset
  {
    var swept := SweepIdleGroups(t, nowMs);
    forall n | n in swept.groups ensures GroupInv(swept.groups[n], 0, t.nextOffset, leases) {
      assert GroupInv(t.groups[n], 0, t.nextOffset, leases);
      StampedKeeps(t.groups[n], nowMs, 0, t.nextOffset, leases);
    }
    assert TopicSound(swept, leases);
    hide TopicSound, SweepIdleGroups, Reclaim;
    ReclaimSound(swept, leases);
    ReclaimKeepsNext(swept);
  }

  lemma EntrySound(t: TopicState, group: Name, nowMs: Option<nat>, leases: nat)
    requires TopicSound(t, leases)
    ensures GroupInv(GroupEntry(t, group, nowMs), 0, t.nextOffset, leases)
  {
    hide DedupSound, FirstOffset;
    BoundaryBelow(t.messages, t.nextOffset);
  }

  lemma PutSound(t: TopicState, group: Name, g: GroupState, leases: nat)
    requires TopicSound(t, leases) && GroupInv(g, 0, t.nextOffset, leases)
    ensures TopicSound(Put(t, group, g), leases)
  {
    hide GroupInv, DedupSound, MessagesSound;
  }

  lemma LentSound(t: TopicState, group: Name, max: u32, visibilityMs: nat, tsMs: nat, lease: nat)
    requires TopicSound(t, lease) && lease <= MAX_COUNTER
    ensures var entry := GroupEntry(t, group, Some(tsMs));
            var chosen := Chosen(t.messages, entry, max, tsMs);
            && lease + |chosen| <= U64_MAX
            && GroupInv(IssueLeases(Refreshed(entry, tsMs), chosen, lease, DeadlineOf(tsMs, visibilityMs)), 0, t.nextOffset,
                        lease + |chosen|)
  {
    hide GroupInv, DedupSound, Chosen, Refreshed, IssueLeases, Issued, Candidates, GroupEntry, GroupsInv, IsOpen;
    var entry := GroupEntry(t, group, Some(tsMs));
    EntrySound(t, group, Some(tsMs), lease);
    RefreshedFacts(entry, tsMs, 0, t.nextOffset, lease);
    ChosenFacts(t.messages, entry, max, tsMs);
    IssueFacts(Refreshed(entry, tsMs), Chosen(t.messages, entry, max, tsMs), lease, DeadlineOf(tsMs, visibilityMs), 0, t.nextOffset);
  }

  lemma PollSound(t: TopicState, group: Name, max: u32, visibilityMs: nat, tsMs: nat, lease: nat)
    requires TopicSound(t, lease) && lease <= MAX_COUNTER
    ensures var r := PollTopic(t, group, max, visibilityMs, tsMs, lease);
            TopicSound(r.topic, r.nextLease) && lease <= r.nextLease
  {
    hide TopicSound, Sweep, Chosen, Refreshed, IssueLeases, Deliveries, GroupEntry, GroupInv, Admits, DeadlineOf;
    var swept := Sweep(t, tsMs);
    SweepSound(t, tsMs, lease);
    if Admits(swept, group) {
      var chosen := Chosen(swept.messages, GroupEntry(swept, group, Some(tsMs)), max, tsMs);
      LentSound(swept, group, max, visibilityMs, tsMs, lease);
      WiderSound(swept, lease, lease + |chosen|);
      PutSound(swept, group,
               IssueLeases(Refreshed(GroupEntry(swept, group, Some(tsMs)), tsMs), chosen, lease, DeadlineOf(tsMs, visibilityMs)),
               lease + |chosen|);
    }
  }

  lemma CommitSound(t: TopicState, group: Name, offset: nat, nowMs: Option<nat>, leases: nat)
    requires TopicSound(t, leases) && t.nextOffset <= U64_MAX
    ensures TopicSound(CommitTopic(t, group, offset, nowMs), leases)
  {
    hide TopicSound, Sweep, AdvanceWatermark, GroupEntry, Admits;
    if nowMs.Some? {
      SweepSound(t, nowMs.value, leases);
    }
    var swept := if nowMs.Some? then Sweep(t, nowMs.value) else t;
    if Admits(swept, group) {
      var entry := GroupEntry(swept, group, nowMs);
      EntrySound(swept, group, nowMs, leases);
      AdvanceFacts(entry, Min(offset, swept.nextOffset), 0, swept.nextOffset, leases);
      var g := AdvanceWatermark(entry, Min(offset, swept.nextOffset));
      var h := if nowMs.Some? then g.(lastActiveMs := Max(g.lastActiveMs, nowMs.value)) else g;
      SameButActive(h, g, Min(offset, swept.nextOffset), swept.nextOffset, leases);
      PutSound(swept, group, h, leases);
    }
  }

  lemma SameButActive(h: GroupState, g: GroupState, base: nat, next: nat, leases: nat)
    requires GroupInv(g, base, next, leases) && h == g.(lastActiveMs := h.lastActiveMs)
    ensures GroupInv(h, 0, next, leases)
  {
  }

  lemma SettleSound(t: TopicState, group: Name, leaseId: nat, leases: nat)
    requires TopicSound(t, leases) && t.nextOffset <= U64_MAX
    ensures TopicSound(AckTopic(t, group, leaseId), leases) && TopicSound(NackTopic(t, group, leaseId), leases)
  {
    if group in t.groups {
      var g := t.groups[group];
      assert GroupInv(g, 0, t.nextOffset, leases);
      hide TopicSound, GroupInv;
      if leaseId in g.inFlight {
        AckFacts(g, leaseId, 0, t.nextOffset, leases);
        UnleaseIsDrop(g, leaseId);
        DropLeasesKeeps(g, {leaseId}, 0, t.nextOffset, leases);
      }
      PutSound(t, group, AckLease(g, leaseId), leases);
      PutSound(t, group, Unlease(g, leaseId), leases);
    }
  }

  lemma TopicStepSound(t: TopicState, op: Op, leases: nat)
    requires TopicSound(t, leases) && !op.Remove? && t.nextOffset <= MAX_COUNTER && leases <= MAX_COUNTER
    ensures var r := TopicStep(t, op, leases); TopicSound(r.0, r.1) && leases <= r.1
  {
    hide ProduceTo, PollTopic, CommitTopic, Reclaim, AckTopic, NackTopic, GroupInv, DedupSound, MessagesSound;
    match op
    case StoreItem(item) => ProduceSound(t, item, leases);
    case Lend(group, max, visibilityMs, tsMs) => PollSound(t, group, max, visibilityMs, tsMs, leases);
    case Settle(group, leaseId) => SettleSound(t, group, leaseId, leases);
    case Release(group, leaseId) => SettleSound(t, group, leaseId, leases);
    case Advance(group, offset, nowMs) => CommitSound(t, group, offset, nowMs, leases);
    case DropDone => ReclaimSound(t, leases);
    case _ =>
  }

  lemma EmptySound(leases: nat)
    ensures TopicSound(EMPTY_TOPIC, leases)
  {
  }

  lemma StepSound(q: QueueState, call: Call)
    requires QueueSound(q) && Headroom(q)
    ensures QueueSound(Step(q, call))
  {
    hide TopicSound, TopicStep, Creates;
    if !call.op.Remove? {
      var t := TopicOr(q, call.topic);
      EmptySound(q.nextLeaseId);
      assert t.nextOffset <= MAX_COUNTER;
      TopicStepSound(t, call.op, q.nextLeaseId);
      var r := TopicStep(t, call.op, q.nextLeaseId);
      forall n | n in q.topics ensures TopicSound(q.topics[n], r.1) {
        WiderSound(q.topics[n], q.nextLeaseId, r.1);
      }
    }
  }

  lemma {:induction false} StepsSound(q: QueueState, calls: seq<Call>)
    requires QueueSound(q) && Fits(q, calls)
    ensures QueueSound(Steps(q, calls))
    decreases |calls|
  {
    hide QueueSound, Step, Headroom;
    if calls != [] {
      StepSound(q, calls[0]);
      StepsSound(Step(q, calls[0]), calls[1..]);
    }
  }

  lemma ApplySound(q: QueueState, r: Request)
    requires QueueSound(q) && Headroom(q) && Headroom(Apply(q, r).0)
    ensures QueueSound(Apply(q, r).0)
  {
    hide QueueSound, Apply, Script, Headroom;
    ScriptFits(q, r);
    StepsSound(q, Script(q, r));
    ScriptIsApply(q, r);
  }

  lemma {:induction false} RunSound(q: QueueState, requests: seq<Request>)
    requires QueueSound(q) && BelowCeiling(q, requests)
    ensures QueueSound(Run(q, requests)) && CountersBelow(Run(q, requests))
    decreases |requests|
  {
    hide QueueSound, Apply, CountersBelow;
    if requests != [] {
      var next := Apply(q, requests[0]).0;
      assert BelowCeiling(next, requests[1..]);
      CountersGiveHeadroom(q);
      CountersGiveHeadroom(next);
      ApplySound(q, requests[0]);
      RunSound(next, requests[1..]);
    }
  }

  /** A validated state in which no group has an offset both acknowledged and leased, whether or not a queue ever produced
      it, stays validated over every run below the ceiling. */
  lemma ValidStaysValid(q: QueueState, requests: seq<Request>)
    requires Validate(q) && Apart(q) && BelowCeiling(q, requests)
    ensures Validate(Run(q, requests)) && Apart(Run(q, requests))
  {
    hide Validate, Apart, QueueSound, CountersBelow, Run;
    SoundIff(q);
    RunSound(q, requests);
    SoundIff(Run(q, requests));
  }

  // ---------------------------------------------------------------- and the others do not

  lemma SlideMoves(w: nat, acked: set<nat>)
    requires w in acked && forall o | o in acked :: w <= o < U64_MAX
    ensures Slide(w, acked).0 > w
  {
    var rest := acked - {w};
    assert Slide(w, acked) == Slide(w + 1, rest);
    SlideFacts(w + 1, rest);
  }

  /** Raising the watermark to an offset that is acknowledged and leased slides past it and leaves its lease behind. */
  lemma CommitCrosses(g: GroupState, o: nat, next: nat, leases: nat)
    requires GroupValid(g, next, leases) && next <= MAX_COUNTER && o in g.ackedAbove && o in g.leasedOffsets
    ensures !GroupValid(AdvanceWatermark(g, o), next, leases)
    ensures AdvanceWatermark(g, o).inFlight != map[] && AdvanceWatermark(g, o).pollCount == g.pollCount
  {
    hide GroupValid;
    GroupValidMeans(g, next, leases);
    var m := Raised(g, o);
    var kept := g.(watermark := o, ackedAbove := AckedFrom(g.ackedAbove, o));
    assert m == DropLeases(kept, LeasesBelow(kept, o));
    var l :| l in g.inFlight && g.inFlight[l].offset == o;
    assert l in m.inFlight && m.inFlight[l].offset == o;
    SlideMoves(o, m.ackedAbove);
    var h := AdvanceWatermark(g, o);
    assert h.watermark > o && l in h.inFlight && h.inFlight[l].offset == o;
    GroupValidMeans(h, next, leases);
  }

  lemma CommitIsPut(t: TopicState, group: Name, o: nat)
    requires group in t.groups && o <= t.nextOffset
    ensures CommitTopic(t, group, o, None) == Put(t, group, AdvanceWatermark(t.groups[group], o))
  {
    hide AdvanceWatermark;
  }

  lemma ValidGroup(t: TopicState, group: Name, leases: nat)
    requires TopicValid(t, leases) && group in t.groups
    ensures GroupValid(t.groups[group], t.nextOffset, leases) && t.nextOffset <= MAX_COUNTER
    ensures forall o | o in t.groups[group].ackedAbove :: o < t.nextOffset
  {
  }

  lemma PutCounters(t: TopicState, group: Name, h: GroupState)
    requires TopicCountersBelow(t) && h.pollCount <= MAX_COUNTER
    ensures TopicCountersBelow(Put(t, group, h))
  {
  }

  lemma CommitBreaksTopic(t: TopicState, group: Name, o: nat, leases: nat)
    requires TopicValid(t, leases) && group in t.groups
    requires o in t.groups[group].ackedAbove && o in t.groups[group].leasedOffsets
    ensures var r := CommitTopic(t, group, o, None);
            !TopicValid(r, leases) && TopicCountersBelow(r) && !TopicValid(Reclaim(r), leases) && TopicCountersBelow(Reclaim(r))
  {
    hide TopicValid, GroupValid, AdvanceWatermark, CommitTopic, Reclaim, TopicCountersBelow;
    var g := t.groups[group];
    ValidGroup(t, group, leases);
    ValidCounters(t, leases);
    assert g.pollCount <= MAX_COUNTER by { ValidGroupCount(g, t.nextOffset, leases); }
    CommitCrosses(g, o, t.nextOffset, leases);
    CommitIsPut(t, group, o);
    var r := Put(t, group, AdvanceWatermark(g, o));
    PutCounters(t, group, AdvanceWatermark(g, o));
    InvalidGroup(r, group, leases);
    BusyGroupStays(r, group);
    InvalidGroup(Reclaim(r), group, leases);
    ReclaimCounters(r);
  }

  lemma ValidGroupCount(g: GroupState, next: nat, leases: nat)
    requires GroupValid(g, next, leases)
    ensures g.pollCount <= MAX_COUNTER
  {
  }

  lemma InvalidGroup(t: TopicState, group: Name, leases: nat)
    requires group in t.groups && !GroupValid(t.groups[group], t.nextOffset, leases)
    ensures !TopicValid(t, leases)
  {
  }

  lemma BusyGroupStays(t: TopicState, group: Name)
    requires group in t.groups && t.groups[group].inFlight != map[]
    ensures group in Reclaim(t).groups && Reclaim(t).groups[group] == t.groups[group] && Reclaim(t).nextOffset == t.nextOffset
  {
    hide Watermarks, MessagesFrom;
  }

  lemma ReclaimCounters(t: TopicState)
    requires TopicCountersBelow(t)
    ensures TopicCountersBelow(Reclaim(t))
  {
    hide Watermarks, MessagesFrom, IsDrained;
  }

  /** The group has the offset both acknowledged and leased. */
  predicate Crosses(q: QueueState, topic: Name, group: Name, o: nat) {
    && topic in q.topics && group in q.topics[topic].groups
    && o in q.topics[topic].groups[group].ackedAbove && o in q.topics[topic].groups[group].leasedOffsets
  }

  lemma FindCrossing(q: QueueState) returns (topic: Name, group: Name, o: nat)
    requires !Apart(q)
    ensures Crosses(q, topic, group, o)
  {
    topic, group :| topic in q.topics && group in q.topics[topic].groups && !ApartGroup(q.topics[topic].groups[group]);
    o :| o in q.topics[topic].groups[group].ackedAbove && o in q.topics[topic].groups[group].leasedOffsets;
  }

  lemma InvalidTopic(q: QueueState, topic: Name)
    requires topic in q.topics && !TopicValid(q.topics[topic], q.nextLeaseId)
    ensures !Validate(q)
  {
  }

  lemma OneTopic(q: QueueState, topic: Name, t: TopicState)
    requires CountersBelow(q) && topic in q.topics && TopicCountersBelow(t) && !TopicValid(t, q.nextLeaseId)
    ensures var r := q.(topics := q.topics[topic := t]); CountersBelow(r) && !Validate(r)
  {
    hide TopicValid, TopicCountersBelow;
    InvalidTopic(q.(topics := q.topics[topic := t]), topic);
  }

  lemma CommitForms(q: QueueState, topic: Name, group: Name, o: nat)
    requires topic in q.topics
    ensures var r := CommitTopic(q.topics[topic], group, o, None);
            && Step(q, Call(topic, Advance(group, o, None))) == q.(topics := q.topics[topic := r])
            && (ConsumerOk(topic, group) ==>
                  Apply(q, CommitOffset(topic, group, o)).0 == q.(topics := q.topics[topic := Reclaim(r)]))
  {
    hide CommitTopic, Reclaim, ConsumerOk;
    var r := CommitTopic(q.topics[topic], group, o, None);
    assert q.topics[topic := r][topic := Reclaim(r)] == q.topics[topic := Reclaim(r)];
  }

  /** In any other validated state, a commit to the offset in question is a run below the ceiling to a state the validator
      refuses: as an operation, and as a request if the topic and the group have names a request may carry. */
  lemma CrossedBreaks(q: QueueState, topic: Name, group: Name, o: nat)
    requires Validate(q) && Crosses(q, topic, group, o)
    ensures !Validate(Step(q, Call(topic, Advance(group, o, None))))
    ensures CountersBelow(Step(q, Call(topic, Advance(group, o, None))))
    ensures ConsumerOk(topic, group) ==>
            var after := Apply(q, CommitOffset(topic, group, o)).0; !Validate(after) && CountersBelow(after)
  {
    hide TopicValid, CommitTopic, Reclaim, TopicCountersBelow, CountersBelow, Apply, Step, ConsumerOk;
    var r := CommitTopic(q.topics[topic], group, o, None);
    CommitBreaksTopic(q.topics[topic], group, o, q.nextLeaseId);
    ValidCountersBelow(q);
    CommitForms(q, topic, group, o);
    OneTopic(q, topic, r);
    OneTopic(q, topic, Reclaim(r));
  }

  lemma ValidCounters(t: TopicState, leases: nat)
    requires TopicValid(t, leases)
    ensures TopicCountersBelow(t)
  {
  }

  /** Every group that has an offset both acknowledged and leased has a name that a request may carry. */
  ghost predicate CrossingsNamed(q: QueueState) {
    forall n, g, o | Crosses(q, n, g, o) :: ConsumerOk(n, g)
  }

  /** A validated state stays validated over every run of requests below the ceiling if and only if no group has an offset
      both acknowledged and leased. */
  lemma ValidStaysValidIff(q: QueueState)
    requires Validate(q) && CrossingsNamed(q)
    ensures Apart(q) <==> forall requests | BelowCeiling(q, requests) :: Validate(Run(q, requests))
  {
    hide Validate, Run, BelowCeiling, ConsumerOk, Apart;
    if Apart(q) {
      forall requests | BelowCeiling(q, requests) ensures Validate(Run(q, requests)) {
        ValidStaysValid(q, requests);
      }
    } else {
      var n, g, o := FindCrossing(q);
      assert ConsumerOk(n, g);
      BreakingRun(q, n, g, o);
    }
  }

  lemma BreakingRun(q: QueueState, topic: Name, group: Name, o: nat)
    requires Validate(q) && Crosses(q, topic, group, o) && ConsumerOk(topic, group)
    ensures BelowCeiling(q, [CommitOffset(topic, group, o)]) && !Validate(Run(q, [CommitOffset(topic, group, o)]))
  {
    hide Validate, Apply, CountersBelow, Crosses, ConsumerOk, Step;
    CrossedBreaks(q, topic, group, o);
    ValidCountersBelow(q);
    var r := CommitOffset(topic, group, o);
    assert [r][1..] == [];
    assert BelowCeiling(Apply(q, r).0, []) && Run(Apply(q, r).0, []) == Apply(q, r).0;
  }

  lemma ValidCountersBelow(q: QueueState)
    requires Validate(q)
    ensures CountersBelow(q)
  {
    hide TopicValid, TopicCountersBelow;
    forall n | n in q.topics ensures TopicCountersBelow(q.topics[n]) {
      ValidCounters(q.topics[n], q.nextLeaseId);
    }
  }

  /** The same over sequences of operations, where names play no part. */
  ghost predicate CallsBelow(q: QueueState, calls: seq<Call>)
    decreases |calls|
  {
    CountersBelow(q) && (calls != [] ==> CallsBelow(Step(q, calls[0]), calls[1..]))
  }

  lemma {:induction false} CallsBelowFit(q: QueueState, calls: seq<Call>)
    requires CallsBelow(q, calls)
    ensures Fits(q, calls) && CountersBelow(Steps(q, calls))
    decreases |calls|
  {
    hide CountersBelow, Headroom, Step;
    CountersGiveHeadroom(q);
    if calls != [] {
      CallsBelowFit(Step(q, calls[0]), calls[1..]);
    }
  }

  lemma OperationsKeepValidIff(q: QueueState)
    requires Validate(q)
    ensures Apart(q) <==> forall calls | CallsBelow(q, calls) :: Validate(Steps(q, calls))
  {
    hide Validate, Steps, CallsBelow, Apart, QueueSound, CountersBelow, Fits;
    if Apart(q) {
      SoundIff(q);
      forall calls | CallsBelow(q, calls) ensures Validate(Steps(q, calls)) {
        CallsBelowFit(q, calls);
        StepsSound(q, calls);
        SoundIff(Steps(q, calls));
      }
    } else {
      var n, g, o := FindCrossing(q);
      BreakingCall(q, n, g, o);
    }
  }

  lemma BreakingCall(q: QueueState, topic: Name, group: Name, o: nat)
    requires Validate(q) && Crosses(q, topic, group, o)
    ensures var calls := [Call(topic, Advance(group, o, None))]; CallsBelow(q, calls) && !Validate(Steps(q, calls))
  {
    hide Validate, Step, CountersBelow, Crosses, Apply;
    CrossedBreaks(q, topic, group, o);
    ValidCountersBelow(q);
    var c := Call(topic, Advance(group, o, None));
    assert [c][1..] == [];
    assert CallsBelow(Step(q, c), []) && Steps(Step(q, c), []) == Step(q, c);
  }

  // ---------------------------------------------------------------- one such state

  /** Offset 1 is acknowledged, and in flight under lease 0. */
  const CROSSED_GROUP := GroupState(0, {1}, map[0 := Lease(1, 9)], map[1 := 9], 1, 1)
  const CROSSED_TOPIC := EMPTY_TOPIC.(nextOffset := 2, groups := map["g" := CROSSED_GROUP])
  const CROSSED_QUEUE := QueueState(map["t" := CROSSED_TOPIC], 1)

  lemma CrossedGroupIsValid()
    ensures GroupValid(CROSSED_GROUP, 2, 1)
  {
    GroupValidMeans(CROSSED_GROUP, 2, 1);
  }

  lemma CrossedIsValid()
    ensures Validate(CROSSED_QUEUE)
  {
    hide GroupValid, TopicValid;
    CrossedGroupIsValid();
    TopicValidMeans(CROSSED_TOPIC, 1);
  }

  /** The validator is not inductive: it accepts this state and refuses the one a commit to offset 1 makes of it. */
  lemma ValidatorNotInductive()
    ensures Validate(CROSSED_QUEUE)
    ensures !Validate(Apply(CROSSED_QUEUE, CommitOffset("t", "g", 1)).0)
    ensures CountersBelow(Apply(CROSSED_QUEUE, CommitOffset("t", "g", 1)).0)
  {
    CrossedIsValid();
    hide Apply, Validate, CountersBelow;
    CrossedBreaks(CROSSED_QUEUE, "t", "g", 1);
  }
}
