/** Idempotent produce: how long a (producer, sequence) key keeps answering its original offset. */
module Idempotence {
  import opened Collections
  import opened Model
  import opened Groups
  import opened Topics
  import opened TopicFacts
  import opened Queue
  import opened Invariant

  /** The key answers `offset`, and exactly `newer` keys have been remembered after it. */
  ghost predicate Remembers(d: Dedup, key: DedupKey, offset: nat, newer: nat) {
    && newer < |d.order| && d.order[|d.order| - 1 - newer] == key
    && key in d.entries && d.entries[key] == offset
  }

  /** The produce stores a message under a key not remembered yet. */
  predicate FreshKeyed(t: TopicState, item: ProduceItem) {
    item.producerId != "" && !IsDuplicate(t, item)
  }

  /** The topic retention runs on during a produce. */
  function BeforeRetention(t: TopicState, item: ProduceItem): TopicState {
    if IsDuplicate(t, item) then t else Stored(t, item)
  }

  /** The produce's retention removes messages past the offset. */
  predicate RetentionPasses(t: TopicState, item: ProduceItem, offset: nat) {
    PurgeCount(BeforeRetention(t, item), item.tsMs) > 0 && Base(ProduceTo(t, item).0) > offset
  }

  // ---------------------------------------------------------------- one produce

  lemma SuffixRemembers(after: Dedup, before: Dedup, next: nat, key: DedupKey, offset: nat, newer: nat)
    requires DedupShape(after, next) && DedupShape(before, next) && DedupSuffix(after, before)
    requires Remembers(before, key, offset, newer)
    ensures newer < |after.order| <==> key in after.entries
    ensures newer < |after.order| ==> Remembers(after, key, offset, newer)
  {
    hide DedupShape;
    SuffixMembers(after, before, next, |before.order| - 1 - newer);
    if newer < |after.order| {
      var shift := |before.order| - |after.order|;
      assert after.order[|after.order| - 1 - newer] == before.order[shift + (|after.order| - 1 - newer)];
    }
  }

  lemma GrownRemembers(d: Dedup, next: nat, other: DedupKey, key: DedupKey, offset: nat, newer: nat)
    requires other !in d.entries && Remembers(d, key, offset, newer)
    ensures Remembers(Dedup(d.entries[other := next], d.order + [other]), key, offset, newer + 1)
  {
    assert key != other;
  }

  /** Storing one more key ages the others by one and evicts the one that reaches the capacity. */
  lemma StoringAges(d: Dedup, next: nat, other: DedupKey, key: DedupKey, offset: nat, newer: nat)
    requires DedupInv(d, next) && other !in d.entries && Remembers(d, key, offset, newer)
    ensures var r := RememberKey(d, other, next);
            if newer + 1 < DEDUP_CAPACITY then Remembers(r, key, offset, newer + 1) else key !in r.entries
  {
    hide DedupShape, DedupSuffix, Remembers, RememberKey;
    var grown := Dedup(d.entries[other := next], d.order + [other]);
    GrownRemembers(d, next, other, key, offset, newer);
    RememberFacts(d, other, next);
    GrownShape(d, other, next);
    SuffixRemembers(RememberKey(d, other, next), grown, next + 1, key, offset, newer + 1);
  }

  /** A produce of something else: the key ages by one if the produce is fresh and keyed, and is forgotten exactly
      when it reaches the capacity or retention passes its offset. */
  lemma ProduceAges(t: TopicState, item: ProduceItem, leases: nat, key: DedupKey, offset: nat, newer: nat)
    requires TopicInv(t, leases) && t.nextOffset < U64_MAX && Remembers(t.dedup, key, offset, newer)
    ensures var aged := newer + if FreshKeyed(t, item) then 1 else 0;
            var r := ProduceTo(t, item).0;
            if aged < DEDUP_CAPACITY && !RetentionPasses(t, item, offset)
            then Remembers(r.dedup, key, offset, aged)
            else key !in r.dedup.entries
  {
    var s := BeforeRetention(t, item);
    var aged := newer + if FreshKeyed(t, item) then 1 else 0;
    assert |t.dedup.order| <= DEDUP_CAPACITY;
    assert TopicInv(s, leases) by { if !IsDuplicate(t, item) { StoredFacts(t, item, leases); } }
    assert if aged < DEDUP_CAPACITY then Remembers(s.dedup, key, offset, aged) else key !in s.dedup.entries by {
      if FreshKeyed(t, item) {
        StoringAges(t.dedup, t.nextOffset, (item.producerId, item.seqNo), key, offset, newer);
      }
    }
    hide TopicInv, Remembers, PurgeRetained, PurgeCount, Base, Stored;
    RetentionForgets(s, item.tsMs, leases, key, offset, aged);
  }

  lemma RetentionForgets(s: TopicState, nowMs: nat, leases: nat, key: DedupKey, offset: nat, newer: nat)
    requires TopicInv(s, leases)
    ensures var r := PurgeRetained(s, nowMs);
            && (key !in s.dedup.entries ==> key !in r.dedup.entries)
            && (Remembers(s.dedup, key, offset, newer) ==>
                  if PurgeCount(s, nowMs) > 0 && Base(r) > offset then key !in r.dedup.entries
                  else Remembers(r.dedup, key, offset, newer))
  {
    PurgeFacts(s, nowMs, leases);
    var r := PurgeRetained(s, nowMs);
    if Remembers(s.dedup, key, offset, newer) && PurgeCount(s, nowMs) > 0 {
      hide TopicInv, PurgeRetained, PurgeCount;
      DedupShapes(s, r, leases);
      SuffixRemembers(r.dedup, s.dedup, s.nextOffset, key, offset, newer);
    }
  }

  lemma DedupShapes(s: TopicState, r: TopicState, leases: nat)
    requires TopicInv(s, leases) && TopicInv(r, leases) && r.nextOffset == s.nextOffset
    ensures DedupShape(s.dedup, s.nextOffset) && DedupShape(r.dedup, s.nextOffset)
  {
  }

  /** Re-sending a remembered produce answers the original offset and stores nothing. */
  lemma ResendAnswersOriginal(t: TopicState, item: ProduceItem, leases: nat, offset: nat, newer: nat)
    requires TopicInv(t, leases) && item.producerId != ""
    requires Remembers(t.dedup, (item.producerId, item.seqNo), offset, newer)
    ensures var (r, answer) := ProduceTo(t, item);
            && answer == offset && r.nextOffset == t.nextOffset
            && forall o | o in r.messages :: o in t.messages && r.messages[o] == t.messages[o]
  {
    PurgeFacts(t, item.tsMs, leases);
  }

  lemma {:induction false} AgedStops(keys: seq<nat>, messages: map<nat, Message>, nowMs: nat, maxAgeMs: nat, i: nat)
    requires (forall k | k in keys :: k in messages) && i < |keys| && messages[keys[i]].tsMs >= nowMs
    ensures AgedOut(keys, messages, nowMs, maxAgeMs) <= i
    decreases |keys|
  {
    if i > 0 && SatSub(nowMs, messages[keys[0]].tsMs) > maxAgeMs {
      AgedStops(keys[1..], messages, nowMs, maxAgeMs, i - 1);
    }
  }

  /** Retention at a message's own clock keeps the message: it is not aged, and a cap keeps at least one. */
  lemma PurgeKeepsOne(s: TopicState, nowMs: nat, o: nat)
    requires o in s.messages && s.messages[o].tsMs >= nowMs
    ensures PurgeCount(s, nowMs) < |s.messages|
  {
    hide SortedKeys, AgedOut;
    var keys := SortedKeys(s.messages.Keys);
    assert o in keys && |keys| == |s.messages|;
    var i :| 0 <= i < |keys| && keys[i] == o;
    AgedStops(keys, s.messages, nowMs, EffectiveRetention(s).1, i);
  }

  /** The retention a fresh produce runs never reaches its own message. */
  lemma FreshIsRetained(t: TopicState, item: ProduceItem, leases: nat)
    requires TopicInv(t, leases) && t.nextOffset < U64_MAX && !IsDuplicate(t, item)
    ensures !RetentionPasses(t, item, t.nextOffset)
    ensures t.nextOffset in ProduceTo(t, item).0.messages
  {
    var s := Stored(t, item);
    StoredFacts(t, item, leases);
    assert s.messages[t.nextOffset].tsMs == item.tsMs;
    hide TopicInv, Stored, PurgeCount, PurgeRetained, Base;
    PurgeKeepsOne(s, item.tsMs, t.nextOffset);
    PurgeFacts(s, item.tsMs, leases);
    SoundSize(s, leases);
    var r := ProduceTo(t, item).0;
    assert r == PurgeRetained(s, item.tsMs) && r.nextOffset == s.nextOffset;
    SoundSize(r, leases);
  }

  lemma SoundSize(t: TopicState, leases: nat)
    requires TopicInv(t, leases)
    ensures |t.messages| == t.nextOffset - Base(t)
    ensures forall o: nat :: o in t.messages <==> Base(t) <= o < t.nextOffset
  {
    assert Retains(t.messages, Base(t), t.nextOffset);
    RetainedSize(t.messages, Base(t), t.nextOffset);
  }

  /** A fresh keyed produce is remembered under the offset it answers. */
  lemma FreshIsRemembered(t: TopicState, item: ProduceItem, leases: nat)
    requires TopicInv(t, leases) && t.nextOffset < U64_MAX && FreshKeyed(t, item)
    ensures Remembers(ProduceTo(t, item).0.dedup, (item.producerId, item.seqNo), t.nextOffset, 0)
    ensures ProduceTo(t, item).1 == t.nextOffset && t.nextOffset in ProduceTo(t, item).0.messages
  {
    var key := (item.producerId, item.seqNo);
    var s := Stored(t, item);
    StoredFacts(t, item, leases);
    RememberFacts(t.dedup, key, t.nextOffset);
    assert Remembers(s.dedup, key, t.nextOffset, 0);
    FreshIsRetained(t, item, leases);
    RetentionForgets(s, item.tsMs, leases, key, t.nextOffset, 0);
  }

  /** After every produce, duplicate or not: the topic is within its message cap, only a prefix of the log is gone,
      and once something was purged no remembered key points below the first retained offset. */
  lemma ProduceKeepsRetention(t: TopicState, item: ProduceItem, leases: nat)
    requires TopicInv(t, leases) && t.nextOffset < U64_MAX
    ensures var s := BeforeRetention(t, item);
            var r := ProduceTo(t, item).0;
            && (EffectiveRetention(t).0 > 0 ==> |r.messages| <= EffectiveRetention(t).0)
            && r.messages == MessagesFrom(s.messages, Base(r))
            && (PurgeCount(s, item.tsMs) > 0 ==> forall k | k in r.dedup.entries :: r.dedup.entries[k] >= Base(r))
  {
    var s := BeforeRetention(t, item);
    hide TopicInv, PurgeRetained, PurgeCount, DedupSuffix, Base, RaiseGroups;
    assert TopicInv(s, leases) && EffectiveRetention(s) == EffectiveRetention(t) by {
      if !IsDuplicate(t, item) { StoredFacts(t, item, leases); }
    }
    PurgeFacts(s, item.tsMs, leases);
    PurgeWithinCap(s, item.tsMs, leases);
    RetainedSuffix(s, PurgeRetained(s, item.tsMs), leases);
  }

  lemma RetainedSuffix(s: TopicState, r: TopicState, leases: nat)
    requires TopicInv(s, leases) && TopicInv(r, leases) && Purged(r, s)
    ensures r.messages == MessagesFrom(s.messages, Base(r))
  {
    assert Retains(r.messages, Base(r), r.nextOffset) && Retains(s.messages, Base(s), s.nextOffset);
  }

  // ---------------------------------------------------------------- whole runs

  /** One if the operation is a fresh keyed produce to the topic. */
  function Freshness(q: QueueState, call: Call, topic: Name): nat {
    if call.topic == topic && call.op.StoreItem? && FreshKeyed(TopicOr(q, topic), call.op.item) then 1 else 0
  }

  /** Fresh keyed produces to the topic during the run. */
  function FreshCount(q: QueueState, calls: seq<Call>, topic: Name): nat
    decreases |calls|
  {
    if calls == [] then 0
    else Freshness(q, calls[0], topic) + FreshCount(Step(q, calls[0]), calls[1..], topic)
  }

  /** The topic is not deleted and its retention never passes the offset. */
  ghost predicate WindowKept(q: QueueState, calls: seq<Call>, topic: Name, offset: nat)
    decreases |calls|
  {
    calls != [] ==>
      && (calls[0].topic == topic ==>
            && !calls[0].op.Remove?
            && (calls[0].op.StoreItem? ==> !RetentionPasses(TopicOr(q, topic), calls[0].op.item, offset)))
      && WindowKept(Step(q, calls[0]), calls[1..], topic, offset)
  }

  ghost predicate RemembersIn(q: QueueState, topic: Name, key: DedupKey, offset: nat, newer: nat) {
    topic in q.topics && Remembers(q.topics[topic].dedup, key, offset, newer)
  }

  lemma DedupUntouched(t: TopicState, op: Op, leases: nat)
    requires !op.StoreItem? && !op.Remove?
    ensures TopicStep(t, op, leases).0.dedup == t.dedup
  {
    hide Chosen, IssueLeases, Deliveries, Refreshed, AdvanceWatermark, AckLease, Unlease, Survives, IsDrained, ProduceTo,
      Watermarks, MessagesFrom, Stamped, GroupEntry, Base, DeadlineOf;
  }

  lemma TopicRemembers(t: TopicState, op: Op, leases: nat, key: DedupKey, offset: nat, newer: nat)
    requires TopicInv(t, leases) && t.nextOffset < U64_MAX && !op.Remove? && Remembers(t.dedup, key, offset, newer)
    requires op.StoreItem? ==> !RetentionPasses(t, op.item, offset)
    requires newer + (if op.StoreItem? && FreshKeyed(t, op.item) then 1 else 0) < DEDUP_CAPACITY
    ensures Remembers(TopicStep(t, op, leases).0.dedup, key, offset,
                      newer + if op.StoreItem? && FreshKeyed(t, op.item) then 1 else 0)
  {
    hide TopicInv, ProduceTo, RetentionPasses, FreshKeyed, Remembers;
    if op.StoreItem? {
      ProduceAges(t, op.item, leases, key, offset, newer);
    } else {
      DedupUntouched(t, op, leases);
    }
  }

  lemma RemembersStep(q: QueueState, call: Call, topic: Name, key: DedupKey, offset: nat, newer: nat)
    requires QueueInv(q) && Headroom(q) && RemembersIn(q, topic, key, offset, newer)
    requires call.topic == topic ==> !call.op.Remove?
    requires call.topic == topic && call.op.StoreItem? ==> !RetentionPasses(TopicOr(q, topic), call.op.item, offset)
    requires newer + Freshness(q, call, topic) < DEDUP_CAPACITY
    ensures RemembersIn(Step(q, call), topic, key, offset, newer + Freshness(q, call, topic))
  {
    hide TopicInv, TopicStep, RetentionPasses, FreshKeyed, Remembers, Creates;
    if call.topic == topic {
      TopicRemembers(q.topics[topic], call.op, q.nextLeaseId, key, offset, newer);
    }
  }

  /** The dedup window: a key keeps answering its offset through any run with fewer than `DEDUP_CAPACITY` fresh
      keyed produces to the topic since, no retention past its offset and no deletion of the topic. */
  lemma {:induction false} KeyOutlivesRun(q: QueueState, calls: seq<Call>, topic: Name, key: DedupKey, offset: nat, newer: nat)
    requires QueueInv(q) && Fits(q, calls) && RemembersIn(q, topic, key, offset, newer)
    requires WindowKept(q, calls, topic, offset)
    requires newer + FreshCount(q, calls, topic) < DEDUP_CAPACITY
    ensures RemembersIn(Steps(q, calls), topic, key, offset, newer + FreshCount(q, calls, topic))
    decreases |calls|
  {
    hide QueueInv, Step, Headroom, RemembersIn, Freshness, RetentionPasses, TopicOr;
    if calls != [] {
      StepKeeps(q, calls[0]);
      RemembersStep(q, calls[0], topic, key, offset, newer);
      KeyOutlivesRun(Step(q, calls[0]), calls[1..], topic, key, offset, newer + Freshness(q, calls[0], topic));
    }
  }
}
