/** The client's batching changes nothing: one batched produce is its items one at a time, and regrouped
    acknowledgements are the jobs one at a time. */
module Batching {
  import opened Collections
  import opened Model
  import opened Groups
  import opened Topics
  import opened TopicFacts
  import opened Queue
  import opened Invariant

  // ---------------------------------------------------------------- batched produce

  function Produces(items: seq<ProduceItem>): seq<Request>
    decreases |items|
  {
    if items == [] then [] else [Produce(items[0])] + Produces(items[1..])
  }

  /** Producing the items one request at a time would be accepted every time. */
  predicate AllAccepted(q: QueueState, items: seq<ProduceItem>)
    decreases |items|
  {
    items != [] ==>
      var (q', response) := Apply(q, Produce(items[0]));
      response.Produced? && AllAccepted(q', items[1..])
  }

  /** The offsets those requests answer. */
  function AnsweredOffsets(q: QueueState, items: seq<ProduceItem>): seq<nat>
    requires AllAccepted(q, items)
    decreases |items|
  {
    if items == [] then [] else
      var (q', response) := Apply(q, Produce(items[0]));
      [response.offset] + AnsweredOffsets(q', items[1..])
  }

  lemma StoreTopics(q: QueueState, item: ProduceItem)
    ensures Step(q, Call(item.topic, StoreItem(item))).topics.Keys == q.topics.Keys + {item.topic}
    ensures |Step(q, Call(item.topic, StoreItem(item))).topics| ==
            |q.topics| + if item.topic in q.topics then 0 else 1
  {
    hide ProduceTo;
    var t := ProduceTo(TopicOr(q, item.topic), item).0;
    PutSize(q.topics, item.topic, t);
    assert q.topics[item.topic := t].Keys == q.topics.Keys + {item.topic};
  }

  /** The batch's count of new topics splits off its first item. */
  lemma NewTopicsSplit(q: QueueState, q': QueueState, items: seq<ProduceItem>)
    requires items != [] && q'.topics.Keys == q.topics.Keys + {items[0].topic}
    ensures |NewTopics(q, items)| == |NewTopics(q', items[1..])| + if items[0].topic in q.topics then 0 else 1
    ensures |NewTopics(q, items[..1])| == if items[0].topic in q.topics then 0 else 1
  {
    hide NewTopics;
    NewTopicsTail(q, q', items);
    NewTopicsHead(q, items);
  }

  lemma NewTopicsHead(q: QueueState, items: seq<ProduceItem>)
    requires items != []
    ensures NewTopics(q, items[..1]) == if items[0].topic in q.topics then {} else {items[0].topic}
  {
    assert items[..1][0] == items[0];
  }

  lemma NewTopicsTail(q: QueueState, q': QueueState, items: seq<ProduceItem>)
    requires items != [] && q'.topics.Keys == q.topics.Keys + {items[0].topic}
    ensures NewTopics(q, items) == NewTopics(q', items[1..]) + if items[0].topic in q.topics then {} else {items[0].topic}
    ensures items[0].topic !in NewTopics(q', items[1..])
  {
    var topic, tail := items[0].topic, items[1..];
    var now, later := NewTopics(q, items), NewTopics(q', tail);
    forall n | n in now ensures n in later + {topic} {
      var i :| 0 <= i < |items| && items[i].topic !in q.topics && items[i].topic == n;
      assert i > 0 ==> tail[i - 1].topic == n;
    }
    forall n | n in later ensures n in now && n != topic {
      var i :| 0 <= i < |tail| && tail[i].topic !in q'.topics && tail[i].topic == n;
      assert items[i + 1].topic == n;
    }
    assert topic !in q.topics ==> topic in now by { assert items[0].topic == topic; }
    assert topic in now ==> topic !in q.topics;
  }

  lemma AllowedSplit(q: QueueState, items: seq<ProduceItem>)
    requires items != []
    ensures var q' := Step(q, Call(items[0].topic, StoreItem(items[0])));
            ProduceAllowed(q, items) <==> ProduceAllowed(q, [items[0]]) && ProduceAllowed(q', items[1..])
  {
    hide Step, NewTopics, ItemOk;
    var q' := Step(q, Call(items[0].topic, StoreItem(items[0])));
    StoreTopics(q, items[0]);
    NewTopicsSplit(q, q', items);
    assert items[..1] == [items[0]];
    assert items == [items[0]] + items[1..];
  }

  lemma {:induction false} AllowedIsAllAccepted(q: QueueState, items: seq<ProduceItem>)
    requires items != [] || |q.topics| <= MAX_TOPICS
    ensures ProduceAllowed(q, items) <==> AllAccepted(q, items)
    decreases |items|
  {
    if items == [] {
      assert NewTopics(q, items) == {};
    } else {
      AllowedSplit(q, items);
      if ProduceAllowed(q, [items[0]]) {
        var q' := Step(q, Call(items[0].topic, StoreItem(items[0])));
        StoreTopics(q, items[0]);
        assert |q'.topics| <= MAX_TOPICS by {
          NewTopicsSplit(q, q', items);
          assert items[..1] == [items[0]];
        }
        AllowedIsAllAccepted(q', items[1..]);
      }
    }
  }

  lemma {:induction false} ProduceAllIsEach(q: QueueState, items: seq<ProduceItem>)
    requires AllAccepted(q, items)
    ensures ProduceAll(q, items).0 == Run(q, Produces(items))
    ensures ProduceAll(q, items).1 == AnsweredOffsets(q, items)
    decreases |items|
  {
    if items != [] {
      ProduceAllIsEach(Apply(q, Produce(items[0])).0, items[1..]);
    }
  }

  /** A batch is accepted exactly when its items one at a time would be, then gives the same offsets and state;
      a refused batch changes nothing. The one exception is an empty batch on an over-full queue. */
  lemma BatchedProduceIsEach(q: QueueState, items: seq<ProduceItem>)
    requires items != [] || |q.topics| <= MAX_TOPICS
    ensures var (after, response) := Apply(q, ProduceMany(items));
            if AllAccepted(q, items)
            then after == Run(q, Produces(items)) && response == ProducedMany(AnsweredOffsets(q, items))
            else after == q && response == Rejected
  {
    AllowedIsAllAccepted(q, items);
    if AllAccepted(q, items) {
      ProduceAllIsEach(q, items);
    }
  }

  // ---------------------------------------------------------------- settling a set of leases

  function OffsetsOf(g: GroupState, ids: set<nat>): set<nat> {
    set l | l in ids && l in g.inFlight :: g.inFlight[l].offset
  }

  /** The group after acknowledging `acks` and giving back `nacks`, in closed form. */
  function SettleGroup(g: GroupState, acks: set<nat>, nacks: set<nat>): GroupState {
    Slid(DropLeases(g, acks + nacks).(ackedAbove := g.ackedAbove + OffsetsOf(g, acks)))
  }

  /** `h` is what settling leaves of `g`, said without the watermark. */
  ghost predicate IsSettled(h: GroupState, g: GroupState, acks: set<nat>, nacks: set<nat>) {
    && Canonical(h)
    && (forall o: nat :: IsDone(h, o) <==> IsDone(g, o) || o in OffsetsOf(g, acks))
    && h.inFlight == g.inFlight - (acks + nacks)
    && h.leasedOffsets == g.leasedOffsets - OffsetsOf(g, acks + nacks)
    && h.pollCount == g.pollCount && h.lastActiveMs == g.lastActiveMs
  }

  lemma SettleGroupFacts(g: GroupState, acks: set<nat>, nacks: set<nat>, base: nat, next: nat, leases: nat)
    requires GroupInv(g, base, next, leases) && next <= U64_MAX
    ensures GroupInv(SettleGroup(g, acks, nacks), base, next, leases)
    ensures IsSettled(SettleGroup(g, acks, nacks), g, acks, nacks)
  {
    var dropped := DropLeases(g, acks + nacks);
    DropLeasesKeeps(g, acks + nacks, base, next, leases);
    var acked := OffsetsOf(g, acks);
    var m := dropped.(ackedAbove := g.ackedAbove + acked);
    forall o | o in acked ensures g.watermark <= o < next && o !in dropped.leasedOffsets {
      DropLeasesFacts(g, acks + nacks);
    }
    SlidFacts(m);
    var h := Slid(m);
    assert forall o: nat :: IsDone(m, o) <==> IsDone(g, o) || o in acked;
    assert OffsetsOf(g, acks + nacks) == set l | l in acks + nacks && l in g.inFlight :: g.inFlight[l].offset;
    SettledInv(m, h, base, next, leases);
  }

  /** Sliding the watermark keeps the rest of the invariant, leases included. */
  lemma SettledInv(m: GroupState, h: GroupState, base: nat, next: nat, leases: nat)
    requires base <= m.watermark <= next && h == Slid(m)
    requires Canonical(h) && m.watermark <= h.watermark && h.ackedAbove <= m.ackedAbove
    requires forall o: nat :: IsDone(h, o) <==> IsDone(m, o)
    requires forall o | o in m.ackedAbove :: o < next
    requires Mirrored(m) && (forall l | l in m.inFlight :: l < leases)
    requires forall o | o in m.leasedOffsets :: m.watermark <= o < next && o !in m.ackedAbove
    ensures GroupInv(h, base, next, leases)
  {
    forall o | o in h.leasedOffsets ensures h.watermark <= o && o !in h.ackedAbove {
      assert !IsDone(m, o);
    }
    assert h.watermark <= next by {
      assert !IsDone(m, next);
      assert !IsDone(h, next);
    }
  }

  /** What settling leaves is unique, because the watermark form is canonical. */
  lemma SettledUnique(a: GroupState, b: GroupState, g: GroupState, acks: set<nat>, nacks: set<nat>)
    requires IsSettled(a, g, acks, nacks) && IsSettled(b, g, acks, nacks)
    ensures a == b
  {
    CanonicalUnique(a, b);
  }

  lemma SettleNothing(g: GroupState, base: nat, next: nat, leases: nat)
    requires GroupInv(g, base, next, leases)
    ensures SettleGroup(g, {}, {}) == g
  {
    assert OffsetsOf(g, {}) == {};
    assert g.ackedAbove + {} == g.ackedAbove;
    var none: set<nat> := {} + {};
    assert g.inFlight - none == g.inFlight;
    assert OffsetsOf(g, none) == {};
    assert g.leasedOffsets - OffsetsOf(g, none) == g.leasedOffsets;
    assert DropLeases(g, none) == g;
  }

  lemma OffsetsGrow(g: GroupState, ids: set<nat>, l: nat)
    ensures OffsetsOf(g, ids + {l}) == if l in g.inFlight then OffsetsOf(g, ids) + {g.inFlight[l].offset} else OffsetsOf(g, ids)
    ensures l in ids ==> OffsetsOf(g, ids + {l}) == OffsetsOf(g, ids)
  {
    assert l in ids ==> ids + {l} == ids;
    if l in g.inFlight {
      assert l in ids + {l};
    }
  }

  lemma DropMore(g: GroupState, ids: set<nat>, l: nat)
    ensures g.inFlight - (ids + {l}) == g.inFlight - ids - {l}
    ensures l in g.inFlight && l !in ids ==>
            g.leasedOffsets - OffsetsOf(g, ids + {l}) == g.leasedOffsets - OffsetsOf(g, ids) - {g.inFlight[l].offset}
    ensures l !in g.inFlight || l in ids ==>
            g.inFlight - (ids + {l}) == g.inFlight - ids && OffsetsOf(g, ids + {l}) == OffsetsOf(g, ids)
  {
    OffsetsGrow(g, ids, l);
  }

  /** One more acknowledgement extends the closed form, unless the lease was given back before. */
  lemma AckExtends(h: GroupState, g: GroupState, acks: set<nat>, nacks: set<nat>, l: nat, base: nat, next: nat, leases: nat)
    requires GroupInv(h, base, next, leases) && next <= U64_MAX && l !in nacks
    requires IsSettled(h, g, acks, nacks)
    ensures IsSettled(AckLease(h, l), g, acks + {l}, nacks)
    ensures h.watermark <= AckLease(h, l).watermark
  {
    DropMore(g, acks + nacks, l);
    OffsetsGrow(g, acks, l);
    assert acks + {l} + nacks == acks + nacks + {l};
    hide Mirrored, OffsetsOf;
    if l in h.inFlight {
      AckFacts(h, l, base, next, leases);
    }
  }

  lemma NackExtends(h: GroupState, g: GroupState, acks: set<nat>, nacks: set<nat>, l: nat)
    requires IsSettled(h, g, acks, nacks)
    ensures IsSettled(Unlease(h, l), g, acks, nacks + {l})
  {
    DropMore(g, acks + nacks, l);
    assert acks + (nacks + {l}) == acks + nacks + {l};
    hide OffsetsOf;
  }

  lemma SettleOneAck(g: GroupState, acks: set<nat>, nacks: set<nat>, l: nat, base: nat, next: nat, leases: nat)
    requires GroupInv(g, base, next, leases) && next <= U64_MAX && l !in nacks
    ensures AckLease(SettleGroup(g, acks, nacks), l) == SettleGroup(g, acks + {l}, nacks)
    ensures SettleGroup(g, acks, nacks).watermark <= SettleGroup(g, acks + {l}, nacks).watermark
  {
    hide GroupInv, SettleGroup, IsSettled, AckLease;
    var h := SettleGroup(g, acks, nacks);
    SettleGroupFacts(g, acks, nacks, base, next, leases);
    SettleGroupFacts(g, acks + {l}, nacks, base, next, leases);
    AckExtends(h, g, acks, nacks, l, base, next, leases);
    SettledUnique(AckLease(h, l), SettleGroup(g, acks + {l}, nacks), g, acks + {l}, nacks);
  }

  lemma SettleOneNack(g: GroupState, acks: set<nat>, nacks: set<nat>, l: nat, base: nat, next: nat, leases: nat)
    requires GroupInv(g, base, next, leases) && next <= U64_MAX
    ensures Unlease(SettleGroup(g, acks, nacks), l) == SettleGroup(g, acks, nacks + {l})
  {
    hide GroupInv, SettleGroup, IsSettled, Unlease;
    var h := SettleGroup(g, acks, nacks);
    SettleGroupFacts(g, acks, nacks, base, next, leases);
    SettleGroupFacts(g, acks, nacks + {l}, base, next, leases);
    NackExtends(h, g, acks, nacks, l);
    SettledUnique(Unlease(h, l), SettleGroup(g, acks, nacks + {l}), g, acks, nacks + {l});
  }

  // ---------------------------------------------------------------- settling a set of jobs

  datatype AckJob = AckJob(topic: Name, group: Name, leaseId: nat, nack: bool)

  function LeasesFor(jobs: set<AckJob>, topic: Name, group: Name, nack: bool): set<nat> {
    set j | j in jobs && j.topic == topic && j.group == group && j.nack == nack :: j.leaseId
  }

  /** No lease is both acknowledged and given back. */
  ghost predicate NoConflict(jobs: set<AckJob>) {
    forall j, k | j in jobs && k in jobs && j.topic == k.topic && j.group == k.group && j.leaseId == k.leaseId :: j.nack == k.nack
  }

  predicate HasAck(jobs: set<AckJob>, topic: Name) {
    exists j :: j in jobs && j.topic == topic && !j.nack
  }

  function SettledGroups(groups: map<Name, GroupState>, topic: Name, jobs: set<AckJob>): map<Name, GroupState> {
    map n | n in groups ::
      SettleGroup(groups[n], LeasesFor(jobs, topic, n, false), LeasesFor(jobs, topic, n, true))
  }

  function SettledTopic(t: TopicState, topic: Name, jobs: set<AckJob>): TopicState {
    var settled := t.(groups := SettledGroups(t.groups, topic, jobs));
    if HasAck(jobs, topic) then DropConsumed(settled) else settled
  }

  /** The queue after a set of jobs, in closed form: no order appears in it. */
  function SettledQueue(q: QueueState, jobs: set<AckJob>): QueueState {
    q.(topics := map n | n in q.topics :: SettledTopic(q.topics[n], n, jobs))
  }

  function JobRequest(j: AckJob): Request {
    if j.nack then Nack(j.topic, j.group, j.leaseId) else Ack(j.topic, j.group, j.leaseId)
  }

  /** Reclaiming always leaves the messages from the lowest watermark on. */
  lemma DropConsumedForm(t: TopicState)
    requires t.groups != map[]
    ensures Watermarks(t.groups) != {}
    ensures DropConsumed(t) == t.(messages := MessagesFrom(t.messages, MinOf(Watermarks(t.groups))))
  {
    LowestWatermark(t.groups);
    var boundary := MinOf(Watermarks(t.groups));
    if !(t.messages != map[] && boundary > MinOf(t.messages.Keys)) {
      forall o | o in t.messages ensures o >= boundary {
        assert o in t.messages.Keys;
      }
      assert MessagesFrom(t.messages, boundary) == t.messages;
    }
  }

  /** Reclaiming before the watermarks move on changes nothing about reclaiming after. */
  lemma ReclaimTwice(t: TopicState, groups: map<Name, GroupState>)
    requires groups.Keys == t.groups.Keys
    requires forall n | n in groups :: t.groups[n].watermark <= groups[n].watermark
    ensures DropConsumed(DropConsumed(t).(groups := groups)) == DropConsumed(t.(groups := groups))
  {
    if t.groups == map[] {
      assert Watermarks(t.groups) == {};
    } else {
      assert groups != map[] by { var n :| n in t.groups; assert n in groups; }
      var before := DropConsumed(t);
      DropConsumedForm(t);
      DropConsumedForm(before.(groups := groups));
      DropConsumedForm(t.(groups := groups));
      LowestWatermark(t.groups);
      LowestWatermark(groups);
      var low, high := MinOf(Watermarks(t.groups)), MinOf(Watermarks(groups));
      var n :| n in groups && groups[n].watermark == high;
      assert low <= high;
      assert MessagesFrom(MessagesFrom(t.messages, low), high) == MessagesFrom(t.messages, high);
    }
  }

  lemma LeasesForMore(jobs: set<AckJob>, j: AckJob, topic: Name, group: Name, nack: bool)
    ensures LeasesFor(jobs + {j}, topic, group, nack) ==
            if j.topic == topic && j.group == group && j.nack == nack
            then LeasesFor(jobs, topic, group, nack) + {j.leaseId}
            else LeasesFor(jobs, topic, group, nack)
  {
    var now, more := LeasesFor(jobs, topic, group, nack), LeasesFor(jobs + {j}, topic, group, nack);
    forall l | l in more ensures l in now || (j.topic == topic && j.group == group && j.nack == nack && l == j.leaseId) {
      var k :| k in jobs + {j} && k.topic == topic && k.group == group && k.nack == nack && k.leaseId == l;
      assert k in jobs || k == j;
    }
    if j.topic == topic && j.group == group && j.nack == nack {
      assert j in jobs + {j};
    }
  }

  /** What one job does to one group's record. */
  function JobOn(g: GroupState, j: AckJob): GroupState {
    if j.nack then Unlease(g, j.leaseId) else AckLease(g, j.leaseId)
  }

  /** One more job changes one group of one topic, and no watermark moves back. */
  lemma SettledGroupsMore(groups: map<Name, GroupState>, topic: Name, jobs: set<AckJob>, j: AckJob, base: nat, next: nat, leases: nat)
    requires GroupsInv(groups, base, next, leases) && next <= U64_MAX && NoConflict(jobs + {j})
    ensures var now := SettledGroups(groups, topic, jobs);
            var more := SettledGroups(groups, topic, jobs + {j});
            && more == (if j.topic == topic && j.group in groups then now[j.group := JobOn(now[j.group], j)] else now)
            && (forall n | n in groups :: now[n].watermark <= more[n].watermark)
  {
    hide SettleGroup, LeasesFor, NoConflict, GroupInv, JobOn;
    forall n | n in groups
      ensures SettledGroups(groups, topic, jobs + {j})[n] ==
              if j.topic == topic && j.group == n
              then JobOn(SettledGroups(groups, topic, jobs)[n], j) else SettledGroups(groups, topic, jobs)[n]
      ensures SettledGroups(groups, topic, jobs)[n].watermark <= SettledGroups(groups, topic, jobs + {j})[n].watermark
    {
      SettledOne(groups[n], topic, n, jobs, j, base, next, leases);
    }
  }

  lemma NotNacked(jobs: set<AckJob>, j: AckJob)
    requires NoConflict(jobs + {j}) && !j.nack
    ensures j.leaseId !in LeasesFor(jobs, j.topic, j.group, true)
  {
    assert j in jobs + {j};
    forall k | k in jobs && k.topic == j.topic && k.group == j.group && k.nack ensures k.leaseId != j.leaseId {
      assert k in jobs + {j};
    }
  }

  lemma SettledOne(g: GroupState, topic: Name, n: Name, jobs: set<AckJob>, j: AckJob, base: nat, next: nat, leases: nat)
    requires GroupInv(g, base, next, leases) && next <= U64_MAX && NoConflict(jobs + {j})
    ensures var now := SettleGroup(g, LeasesFor(jobs, topic, n, false), LeasesFor(jobs, topic, n, true));
            var more := SettleGroup(g, LeasesFor(jobs + {j}, topic, n, false), LeasesFor(jobs + {j}, topic, n, true));
            && more == (if j.topic == topic && j.group == n then JobOn(now, j) else now)
            && now.watermark <= more.watermark
  {
    hide SettleGroup, GroupInv, LeasesFor;
    var acks, nacks := LeasesFor(jobs, topic, n, false), LeasesFor(jobs, topic, n, true);
    LeasesForMore(jobs, j, topic, n, false);
    LeasesForMore(jobs, j, topic, n, true);
    if j.topic == topic && j.group == n {
      if j.nack {
        SettleOneNack(g, acks, nacks, j.leaseId, base, next, leases);
      } else {
        NotNacked(jobs, j);
        SettleOneAck(g, acks, nacks, j.leaseId, base, next, leases);
      }
    }
  }

  lemma HasAckMore(jobs: set<AckJob>, j: AckJob, topic: Name)
    ensures HasAck(jobs + {j}, topic) <==> HasAck(jobs, topic) || (j.topic == topic && !j.nack)
  {
    if HasAck(jobs, topic) {
      var k :| k in jobs && k.topic == topic && !k.nack;
      assert k in jobs + {j};
    }
    assert j in jobs + {j};
  }

  lemma SameWatermarks(groups: map<Name, GroupState>, groups': map<Name, GroupState>)
    requires groups.Keys == groups'.Keys
    requires forall n | n in groups :: groups[n].watermark == groups'[n].watermark
    ensures Watermarks(groups) == Watermarks(groups')
  {
    forall w ensures w in Watermarks(groups) <==> w in Watermarks(groups') {
      if w in Watermarks(groups) {
        var n :| n in groups && groups[n].watermark == w;
        assert n in groups' && groups'[n].watermark == w;
      }
      if w in Watermarks(groups') {
        var n :| n in groups' && groups'[n].watermark == w;
        assert n in groups && groups[n].watermark == w;
      }
    }
  }

  /** What one job does to its topic, reclaim included. */
  function JobOnTopic(t: TopicState, j: AckJob): TopicState {
    if j.nack then NackTopic(t, j.group, j.leaseId) else DropConsumed(AckTopic(t, j.group, j.leaseId))
  }

  lemma SettledTopicMore(t: TopicState, topic: Name, jobs: set<AckJob>, j: AckJob, leases: nat)
    requires TopicInv(t, leases) && NoConflict(jobs + {j})
    ensures SettledTopic(t, topic, jobs + {j}) ==
            if j.topic == topic then JobOnTopic(SettledTopic(t, topic, jobs), j) else SettledTopic(t, topic, jobs)
  {
    var now, more := SettledGroups(t.groups, topic, jobs), SettledGroups(t.groups, topic, jobs + {j});
    SettledGroupsMore(t.groups, topic, jobs, j, Base(t), t.nextOffset, leases);
    HasAckMore(jobs, j, topic);
    hide TopicInv, SettledGroups, HasAck, NoConflict, DropConsumed;
    var s := SettledTopic(t, topic, jobs);
    assert s.groups == now by { GroupsUntouched(t.(groups := now)); }
    if j.topic == topic {
      var next := if j.nack then NackTopic(s, j.group, j.leaseId) else AckTopic(s, j.group, j.leaseId);
      assert now.Keys == more.Keys;
      assert next == s.(groups := more);
      if HasAck(jobs, topic) {
        if j.nack {
          NackKeepsWatermarks(t.(groups := now), more, j);
        } else {
          ReclaimTwice(t.(groups := now), more);
        }
      }
    }
  }

  lemma GroupsUntouched(t: TopicState)
    ensures DropConsumed(t).groups == t.groups
  {
  }

  lemma NackKeepsWatermarks(t: TopicState, more: map<Name, GroupState>, j: AckJob)
    requires j.nack
    requires more == if j.group in t.groups then t.groups[j.group := JobOn(t.groups[j.group], j)] else t.groups
    ensures DropConsumed(t.(groups := more)) == DropConsumed(t).(groups := more)
  {
    assert more.Keys == t.groups.Keys;
    SameWatermarks(t.groups, more);
  }

  lemma SettledGroupsSize(t: TopicState, topic: Name, jobs: set<AckJob>)
    ensures |SettledTopic(t, topic, jobs).groups| == |t.groups|
  {
    var s := SettledGroups(t.groups, topic, jobs);
    GroupsUntouched(t.(groups := s));
    assert s.Keys == t.groups.Keys;
    MapSize(s, t.groups);
    MapSize(t.groups, s);
  }

  /** One request for one more job extends the closed form. */
  lemma SettledQueueMore(q: QueueState, jobs: set<AckJob>, j: AckJob)
    requires QueueInv(q) && NoConflict(jobs + {j})
    ensures Apply(SettledQueue(q, jobs), JobRequest(j)).0 == SettledQueue(q, jobs + {j})
  {
    hide SettledTopic, TopicInv, JobOnTopic, NoConflict, Apply;
    var now, more := SettledQueue(q, jobs), SettledQueue(q, jobs + {j});
    forall n | n in q.topics
      ensures more.topics[n] == if j.topic == n then JobOnTopic(now.topics[n], j) else now.topics[n]
    {
      SettledTopicMore(q.topics[n], n, jobs, j, q.nextLeaseId);
    }
    if j.topic in q.topics {
      SettledWithinGc(q.topics[j.topic], j.topic, jobs, q.nextLeaseId);
    }
    JobRequestStep(now, j);
  }

  lemma SettledWithinGc(t: TopicState, topic: Name, jobs: set<AckJob>, leases: nat)
    requires TopicInv(t, leases)
    ensures |SettledTopic(t, topic, jobs).groups| <= GROUP_GC_THRESHOLD
  {
    SettledGroupsSize(t, topic, jobs);
  }

  /** An ack or nack request touches its topic only, when it is there. */
  lemma JobRequestStep(q: QueueState, j: AckJob)
    requires j.topic in q.topics ==> |q.topics[j.topic].groups| <= GROUP_GC_THRESHOLD
    ensures Apply(q, JobRequest(j)).0 ==
            if j.topic in q.topics then q.(topics := q.topics[j.topic := JobOnTopic(q.topics[j.topic], j)]) else q
  {
    hide DropConsumed, AckLease, Unlease;
    if j.topic in q.topics {
      var t := q.topics[j.topic];
      if !j.nack {
        var acked := AckTopic(t, j.group, j.leaseId);
        assert |acked.groups| == |t.groups| by {
          if j.group in t.groups { PutSize(t.groups, j.group, AckLease(t.groups[j.group], j.leaseId)); }
        }
        ReclaimIsDropConsumed(acked);
      }
    }
  }

  function JobRequests(jobs: seq<AckJob>): seq<Request>
    decreases |jobs|
  {
    if jobs == [] then [] else [JobRequest(jobs[0])] + JobRequests(jobs[1..])
  }

  lemma SettledByNothing(q: QueueState)
    requires QueueInv(q)
    ensures SettledQueue(q, {}) == q
  {
    hide TopicInv, SettledTopic;
    forall n | n in q.topics ensures SettledTopic(q.topics[n], n, {}) == q.topics[n] {
      TopicSettledByNothing(q.topics[n], n, q.nextLeaseId);
    }
  }

  lemma TopicSettledByNothing(t: TopicState, n: Name, leases: nat)
    requires TopicInv(t, leases)
    ensures SettledTopic(t, n, {}) == t
  {
    forall k | k in t.groups ensures SettledGroups(t.groups, n, {})[k] == t.groups[k] {
      assert GroupInv(t.groups[k], Base(t), t.nextOffset, leases);
      assert LeasesFor({}, n, k, false) == {} && LeasesFor({}, n, k, true) == {};
      SettleNothing(t.groups[k], Base(t), t.nextOffset, leases);
    }
    hide GroupInv, SettleGroup, LeasesFor;
    assert SettledGroups(t.groups, n, {}) == t.groups;
  }

  lemma {:induction false} JobsSettle(q: QueueState, done: set<AckJob>, jobs: seq<AckJob>)
    requires QueueInv(q) && NoConflict(done + Elements(jobs))
    ensures Run(SettledQueue(q, done), JobRequests(jobs)) == SettledQueue(q, done + Elements(jobs))
    decreases |jobs|
  {
    if jobs == [] {
      assert done + Elements(jobs) == done;
    } else {
      assert jobs == [jobs[0]] + jobs[1..];
      assert done + {jobs[0]} + Elements(jobs[1..]) == done + Elements(jobs);
      assert NoConflict(done + {jobs[0]}) by {
        assert done + {jobs[0]} <= done + Elements(jobs);
      }
      hide QueueInv, SettledQueue, Apply, NoConflict;
      SettledQueueMore(q, done, jobs[0]);
      JobsSettle(q, done + {jobs[0]}, jobs[1..]);
    }
  }

  /** Jobs one at a time lead to the closed form, so their order does not matter. */
  lemma JobsOneByOne(q: QueueState, jobs: seq<AckJob>)
    requires QueueInv(q) && NoConflict(Elements(jobs))
    ensures Run(q, JobRequests(jobs)) == SettledQueue(q, Elements(jobs))
  {
    SettledByNothing(q);
    assert {} + Elements(jobs) == Elements(jobs);
    JobsSettle(q, {}, jobs);
  }

  // ---------------------------------------------------------------- one request per group of jobs

  lemma ReclaimSize(t: TopicState, leases: nat)
    requires TopicInv(t, leases)
    ensures Reclaim(t) == DropConsumed(t) && DropConsumed(t).groups == t.groups && |t.groups| <= GROUP_GC_THRESHOLD
  {
    ReclaimIsDropConsumed(t);
    GroupsUntouched(t);
  }

  lemma TopicReclaimAckReclaim(t: TopicState, group: Name, leaseId: nat, leases: nat)
    requires TopicInv(t, leases)
    ensures Reclaim(AckTopic(Reclaim(t), group, leaseId)) == Reclaim(AckTopic(t, group, leaseId))
  {
    var acked := AckTopic(t, group, leaseId);
    AckMovesForward(t, group, leaseId, leases);
    AckKeeps(t, group, leaseId, leases);
    ReclaimSize(t, leases);
    ReclaimSize(acked, leases);
    ReclaimTwice(t, acked.groups);
    hide TopicInv, DropConsumed, AckTopic;
    ReclaimIsDropConsumed(DropConsumed(t).(groups := acked.groups));
  }

  lemma TopicReclaimReclaim(t: TopicState, leases: nat)
    requires TopicInv(t, leases)
    ensures Reclaim(Reclaim(t)) == Reclaim(t)
  {
    ReclaimSize(t, leases);
    ReclaimTwice(t, t.groups);
    hide TopicInv, DropConsumed;
    assert DropConsumed(t).(groups := t.groups) == DropConsumed(t) && t.(groups := t.groups) == t;
    ReclaimIsDropConsumed(DropConsumed(t));
  }

  /** Reclaiming between acknowledgements changes nothing once the last one reclaims. */
  lemma ReclaimAckReclaim(q: QueueState, topic: Name, group: Name, leaseId: nat)
    requires QueueInv(q)
    ensures var settle := Call(topic, Settle(group, leaseId));
            ReclaimIn(Step(ReclaimIn(q, topic), settle), topic) == ReclaimIn(Step(q, settle), topic)
  {
    hide TopicInv, Reclaim, AckTopic;
    if topic in q.topics {
      TopicReclaimAckReclaim(q.topics[topic], group, leaseId, q.nextLeaseId);
    }
  }

  lemma AckMovesForward(t: TopicState, group: Name, leaseId: nat, leases: nat)
    requires TopicInv(t, leases)
    ensures var acked := AckTopic(t, group, leaseId);
            && acked.groups.Keys == t.groups.Keys && acked == t.(groups := acked.groups)
            && AckTopic(DropConsumed(t), group, leaseId) == DropConsumed(t).(groups := acked.groups)
            && (forall n | n in t.groups :: t.groups[n].watermark <= acked.groups[n].watermark)
  {
    GroupsUntouched(t);
    if group in t.groups {
      var g := t.groups[group];
      assert GroupInv(g, Base(t), t.nextOffset, leases);
      assert t.nextOffset <= U64_MAX;
      assert g.watermark <= AckLease(g, leaseId).watermark by {
        if leaseId in g.inFlight {
          AckFacts(g, leaseId, Base(t), t.nextOffset, leases);
        }
      }
      hide TopicInv, GroupInv, AckLease, DropConsumed;
      assert AckTopic(t, group, leaseId).groups.Keys == t.groups.Keys;
    }
  }

  lemma ReclaimIdempotent(q: QueueState, topic: Name)
    requires QueueInv(q)
    ensures ReclaimIn(ReclaimIn(q, topic), topic) == ReclaimIn(q, topic)
  {
    hide TopicInv, Reclaim;
    if topic in q.topics {
      TopicReclaimReclaim(q.topics[topic], q.nextLeaseId);
    }
  }

  lemma {:induction false} ReclaimLast(q: QueueState, topic: Name, group: Name, ids: seq<nat>)
    requires QueueInv(q)
    ensures ReclaimIn(AckAll(ReclaimIn(q, topic), topic, group, ids), topic) ==
            ReclaimIn(AckAll(q, topic, group, ids), topic)
    decreases |ids|
  {
    if ids == [] {
      ReclaimIdempotent(q, topic);
    } else {
      var settle := Call(topic, Settle(group, ids[0]));
      var x, y := Step(ReclaimIn(q, topic), settle), Step(q, settle);
      StepKeeps(q, Call(topic, DropDone));
      StepKeeps(ReclaimIn(q, topic), settle);
      StepKeeps(q, settle);
      ReclaimAckReclaim(q, topic, group, ids[0]);
      hide QueueInv, Step, ReclaimIn;
      ReclaimLast(x, topic, group, ids[1..]);
      ReclaimLast(y, topic, group, ids[1..]);
    }
  }

  datatype GroupKey = GroupKey(topic: Name, group: Name, nack: bool)

  function KeyOf(j: AckJob): GroupKey { GroupKey(j.topic, j.group, j.nack) }

  function JobsOf(k: GroupKey, ids: seq<nat>): seq<AckJob>
    decreases |ids|
  {
    if ids == [] then [] else [AckJob(k.topic, k.group, ids[0], k.nack)] + JobsOf(k, ids[1..])
  }

  function GroupRequest(k: GroupKey, ids: seq<nat>): Request {
    if k.nack then NackMany(k.topic, k.group, ids) else AckMany(k.topic, k.group, ids)
  }

  /** One batched request is its jobs one at a time. */
  lemma {:induction false} GroupIsJobs(q: QueueState, k: GroupKey, ids: seq<nat>)
    requires QueueInv(q) && (ids != [] || k.nack)
    ensures Apply(q, GroupRequest(k, ids)).0 == Run(q, JobRequests(JobsOf(k, ids)))
    decreases |ids|
  {
    if ids != [] {
      var j := AckJob(k.topic, k.group, ids[0], k.nack);
      assert JobRequests(JobsOf(k, ids)) == [JobRequest(j)] + JobRequests(JobsOf(k, ids[1..]));
      var mid := Apply(q, JobRequest(j)).0;
      assert QueueInv(mid) by { JobKeeps(q, j); }
      assert Run(q, JobRequests(JobsOf(k, ids))) == Run(mid, JobRequests(JobsOf(k, ids[1..])));
      if k.nack {
        GroupIsJobs(mid, k, ids[1..]);
      } else {
        var acked := Step(q, Call(k.topic, Settle(k.group, ids[0])));
        StepKeeps(q, Call(k.topic, Settle(k.group, ids[0])));
        hide QueueInv, Step;
        if ids[1..] == [] {
          assert AckAll(q, k.topic, k.group, ids) == acked;
        } else {
          ReclaimLast(acked, k.topic, k.group, ids[1..]);
          GroupIsJobs(mid, k, ids[1..]);
        }
      }
    }
  }

  lemma JobKeeps(q: QueueState, j: AckJob)
    requires QueueInv(q)
    ensures QueueInv(Apply(q, JobRequest(j)).0)
  {
    var first := Call(j.topic, if j.nack then Release(j.group, j.leaseId) else Settle(j.group, j.leaseId));
    StepKeeps(q, first);
    StepKeeps(Step(q, first), Call(j.topic, DropDone));
  }

  lemma {:induction false} JobsKeep(q: QueueState, jobs: seq<AckJob>)
    requires QueueInv(q)
    ensures QueueInv(Run(q, JobRequests(jobs)))
    decreases |jobs|
  {
    hide QueueInv, Apply;
    if jobs != [] {
      JobKeeps(q, jobs[0]);
      JobsKeep(Apply(q, JobRequest(jobs[0])).0, jobs[1..]);
    }
  }

  // ---------------------------------------------------------------- regrouping

  /** Add one job's lease at the end of its group's list. */
  function Push(groups: map<GroupKey, seq<nat>>, j: AckJob): map<GroupKey, seq<nat>> {
    groups[KeyOf(j) := (if KeyOf(j) in groups then groups[KeyOf(j)] else []) + [j.leaseId]]
  }

  function Partition(jobs: seq<AckJob>): map<GroupKey, seq<nat>>
    decreases |jobs|
  {
    if jobs == [] then map[] else Push(Partition(jobs[..|jobs| - 1]), jobs[|jobs| - 1])
  }

  /** The batcher's loop over the jobs it collected. */
  method GroupJobs(jobs: seq<AckJob>) returns (groups: map<GroupKey, seq<nat>>)
    ensures groups == Partition(jobs)
  {
    groups := map[];
    for i := 0 to |jobs|
      invariant groups == Partition(jobs[..i])
    {
      assert jobs[..i + 1][..i] == jobs[..i] && jobs[..i + 1][i] == jobs[i];
      groups := Push(groups, jobs[i]);
    }
    assert jobs[..|jobs|] == jobs;
  }

  /** The groups hold exactly the jobs, and none is empty. */
  lemma {:induction false} PartitionFacts(jobs: seq<AckJob>)
    ensures forall k | k in Partition(jobs) :: Partition(jobs)[k] != []
    ensures forall k, l :: k in Partition(jobs) && l in Partition(jobs)[k] <==> AckJob(k.topic, k.group, l, k.nack) in jobs
    decreases |jobs|
  {
    if jobs != [] {
      var before, j := jobs[..|jobs| - 1], jobs[|jobs| - 1];
      assert jobs == before + [j];
      PartitionFacts(before);
    }
  }

  function GroupRequests(groups: map<GroupKey, seq<nat>>, keys: seq<GroupKey>): seq<Request>
    requires forall k | k in keys :: k in groups
    decreases |keys|
  {
    if keys == [] then [] else [GroupRequest(keys[0], groups[keys[0]])] + GroupRequests(groups, keys[1..])
  }

  function Flat(groups: map<GroupKey, seq<nat>>, keys: seq<GroupKey>): seq<AckJob>
    requires forall k | k in keys :: k in groups
    decreases |keys|
  {
    if keys == [] then [] else JobsOf(keys[0], groups[keys[0]]) + Flat(groups, keys[1..])
  }

  lemma {:induction false} JobsOfMembers(k: GroupKey, ids: seq<nat>)
    ensures forall j :: j in JobsOf(k, ids) <==> KeyOf(j) == k && j.leaseId in ids
    decreases |ids|
  {
    if ids != [] {
      JobsOfMembers(k, ids[1..]);
      assert ids == [ids[0]] + ids[1..];
    }
  }

  lemma {:induction false} FlatMembers(groups: map<GroupKey, seq<nat>>, keys: seq<GroupKey>)
    requires forall k | k in keys :: k in groups
    ensures forall j :: j in Flat(groups, keys) <==> KeyOf(j) in keys && j.leaseId in groups[KeyOf(j)]
    decreases |keys|
  {
    if keys != [] {
      JobsOfMembers(keys[0], groups[keys[0]]);
      FlatMembers(groups, keys[1..]);
      assert keys == [keys[0]] + keys[1..];
    }
  }

  lemma {:induction false} JobRequestsAppend(a: seq<AckJob>, b: seq<AckJob>)
    ensures JobRequests(a + b) == JobRequests(a) + JobRequests(b)
    decreases |a|
  {
    if a == [] {
      assert a + b == b;
    } else {
      assert (a + b)[1..] == a[1..] + b;
      JobRequestsAppend(a[1..], b);
    }
  }

  lemma {:induction false} GroupsAreFlat(q: QueueState, groups: map<GroupKey, seq<nat>>, keys: seq<GroupKey>)
    requires QueueInv(q) && (forall k | k in keys :: k in groups && groups[k] != [])
    ensures Run(q, GroupRequests(groups, keys)) == Run(q, JobRequests(Flat(groups, keys)))
    decreases |keys|
  {
    if keys != [] {
      hide QueueInv, Apply;
      var k := keys[0];
      var own := JobsOf(k, groups[k]);
      GroupIsJobs(q, k, groups[k]);
      JobsKeep(q, own);
      var mid := Run(q, JobRequests(own));
      GroupsAreFlat(mid, groups, keys[1..]);
      JobRequestsAppend(own, Flat(groups, keys[1..]));
      RunAppend(q, JobRequests(own), JobRequests(Flat(groups, keys[1..])));
    }
  }

  lemma FlatIsJobs(jobs: seq<AckJob>, keys: seq<GroupKey>)
    requires Elements(keys) == Partition(jobs).Keys
    ensures forall k | k in keys :: k in Partition(jobs)
    ensures Elements(Flat(Partition(jobs), keys)) == Elements(jobs)
  {
    hide Partition, Flat;
    var groups := Partition(jobs);
    PartitionFacts(jobs);
    assert forall k | k in keys :: k in Elements(keys);
    FlatMembers(groups, keys);
    forall j ensures j in Flat(groups, keys) <==> j in jobs {
      assert j == AckJob(KeyOf(j).topic, KeyOf(j).group, j.leaseId, KeyOf(j).nack);
      assert KeyOf(j) in keys <==> KeyOf(j) in Elements(keys);
    }
  }

  /** Regrouping a batch of acks and nacks by topic, group and kind, and sending one request per group in any
      order, leaves the queue exactly as the jobs one at a time do, reclaimed messages included. */
  lemma RegroupingPreserves(q: QueueState, jobs: seq<AckJob>, keys: seq<GroupKey>)
    requires QueueInv(q) && NoConflict(Elements(jobs))
    requires Elements(keys) == Partition(jobs).Keys
    ensures forall k | k in keys :: k in Partition(jobs)
    ensures Run(q, GroupRequests(Partition(jobs), keys)) == Run(q, JobRequests(jobs))
  {
    hide QueueInv, NoConflict, Partition, Run, Flat;
    var groups := Partition(jobs);
    PartitionFacts(jobs);
    assert forall k | k in keys :: k in Elements(keys);
    GroupsAreFlat(q, groups, keys);
    var flat := Flat(groups, keys);
    FlatIsJobs(jobs, keys);
    JobsOneByOne(q, flat);
    JobsOneByOne(q, jobs);
  }
}
