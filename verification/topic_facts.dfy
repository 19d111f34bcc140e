/** The topic's part of the inductive invariant, and what each topic operation does to it. */
module TopicFacts {
  import opened Collections
  import opened Model
  import opened Groups
  import opened Selection
  import opened Topics

  // ---------------------------------------------------------------- the invariant

  /** The retained offsets are exactly `[base, next)`, and every message knows its own. */
  ghost predicate Retains(messages: map<nat, Message>, base: nat, next: nat) {
    && base <= next <= U64_MAX
    && (forall o: nat :: o in messages <==> base <= o < next)
    && (forall o | o in messages :: messages[o].offset == o)
  }

  /** The dedup table and its eviction queue hold the same keys, in strictly increasing offset order. */
  ghost predicate DedupShape(d: Dedup, next: nat) {
    && (forall k :: k in d.order <==> k in d.entries)
    && (forall i, j :: 0 <= i < j < |d.order| ==> d.entries[d.order[i]] < d.entries[d.order[j]])
    && (forall k | k in d.entries :: d.entries[k] < next)
  }

  ghost predicate DedupInv(d: Dedup, next: nat) {
    DedupShape(d, next) && |d.order| <= DEDUP_CAPACITY
  }

  ghost predicate GroupsInv(groups: map<Name, GroupState>, base: nat, next: nat, leases: nat) {
    forall n | n in groups :: GroupInv(groups[n], base, next, leases)
  }

  ghost predicate TopicInv(t: TopicState, leases: nat) {
    && Retains(t.messages, Base(t), t.nextOffset)
    && DedupInv(t.dedup, t.nextOffset)
    && GroupsInv(t.groups, Base(t), t.nextOffset, leases)
    && |t.groups| <= GROUP_GC_THRESHOLD
  }

  lemma RetainsBase(messages: map<nat, Message>, base: nat, next: nat)
    requires Retains(messages, base, next)
    ensures FirstOffset(messages, next) == base
  {
    if messages == map[] {
      assert base !in messages;
    } else {
      var m := MinOf(messages.Keys);
      assert m in messages;
      assert base in messages.Keys;
    }
  }

  lemma TopicInvIntro(t: TopicState, base: nat, leases: nat)
    requires Retains(t.messages, base, t.nextOffset) && DedupInv(t.dedup, t.nextOffset)
    requires GroupsInv(t.groups, base, t.nextOffset, leases) && |t.groups| <= GROUP_GC_THRESHOLD
    ensures Base(t) == base && TopicInv(t, leases)
  {
    RetainsBase(t.messages, base, t.nextOffset);
  }

  lemma WiderGroupsInv(groups: map<Name, GroupState>, base: nat, next: nat, leases: nat, next': nat, leases': nat)
    requires GroupsInv(groups, base, next, leases) && next <= next' && leases <= leases'
    ensures GroupsInv(groups, base, next', leases')
  {
    forall n | n in groups ensures GroupInv(groups[n], base, next', leases') {
      WiderGroupInv(groups[n], base, next, leases, base, next', leases');
    }
  }

  lemma MapSize<V>(m: map<Name, V>, n: map<Name, V>)
    requires m.Keys <= n.Keys
    ensures |m| <= |n|
    ensures |m| == |n| ==> m.Keys == n.Keys
  {
    SubsetSize(m.Keys, n.Keys);
    assert |m| == |m.Keys| && |n| == |n.Keys|;
  }

  lemma PutSize<V>(m: map<Name, V>, n: Name, v: V)
    ensures |m[n := v]| == if n in m then |m| else |m| + 1
  {
    var p := m[n := v];
    assert p.Keys == m.Keys + {n};
    assert |p| == |p.Keys| && |m| == |m.Keys|;
    if n in m {
      assert p.Keys == m.Keys;
    }
  }

  /** Writing back one group's record. */
  lemma PutKeeps(t: TopicState, group: Name, g: GroupState, leases: nat, leases': nat)
    requires TopicInv(t, leases) && leases <= leases'
    requires GroupInv(g, Base(t), t.nextOffset, leases')
    requires Admits(t, group)
    ensures TopicInv(Put(t, group, g), leases')
    ensures |Put(t, group, g).groups| <= Max(|t.groups|, MAX_GROUPS_PER_TOPIC)
  {
    PutSize(t.groups, group, g);
    WiderGroupsInv(t.groups, Base(t), t.nextOffset, leases, t.nextOffset, leases');
  }

  // ---------------------------------------------------------------- reclaiming and sweeping

  /** `after` is `before` with some messages dropped, all of them below every watermark of `groups`. */
  ghost predicate ConsumedDropped(after: map<nat, Message>, before: map<nat, Message>, groups: map<Name, GroupState>) {
    && (forall o | o in after :: o in before && after[o] == before[o])
    && (forall o, n | o in before && o !in after && n in groups :: o < groups[n].watermark)
  }

  lemma LowestWatermark(groups: map<Name, GroupState>)
    requires groups != map[]
    ensures Watermarks(groups) != {}
    ensures exists n :: n in groups && groups[n].watermark == MinOf(Watermarks(groups))
    ensures forall n | n in groups :: MinOf(Watermarks(groups)) <= groups[n].watermark
  {
    var n :| n in groups;
    assert groups[n].watermark in Watermarks(groups);
    forall n | n in groups ensures MinOf(Watermarks(groups)) <= groups[n].watermark {
      assert groups[n].watermark in Watermarks(groups);
    }
  }

  lemma DropConsumedFacts(t: TopicState, leases: nat)
    requires TopicInv(t, leases)
    ensures var r := DropConsumed(t);
            && TopicInv(r, leases)
            && r == t.(messages := r.messages)
            && ConsumedDropped(r.messages, t.messages, t.groups)
            && Base(t) <= Base(r)
            && (t.groups != map[] ==> Watermarks(t.groups) != {} && Base(r) == MinOf(Watermarks(t.groups)))
  {
    if t.groups == map[] {
      assert Watermarks(t.groups) == {};
      NoneDropped(t.messages, t.groups);
    } else {
      LowestWatermark(t.groups);
      var boundary := MinOf(Watermarks(t.groups));
      assert Base(t) <= boundary <= t.nextOffset by {
        var n :| n in t.groups && t.groups[n].watermark == boundary;
        assert GroupInv(t.groups[n], Base(t), t.nextOffset, leases);
      }
      var r := DropConsumed(t);
      DropBelow(t, boundary, leases);
      hide GroupsInv, Retains, DedupInv, ConsumedDropped;
      RebaseGroups(t.groups, Base(t), t.nextOffset, leases, boundary);
      TopicInvIntro(r, boundary, leases);
    }
  }

  lemma DropBelow(t: TopicState, boundary: nat, leases: nat)
    requires Retains(t.messages, Base(t), t.nextOffset) && Base(t) <= boundary <= t.nextOffset
    requires t.groups != map[] && Watermarks(t.groups) != {} && boundary == MinOf(Watermarks(t.groups))
    requires forall n | n in t.groups :: boundary <= t.groups[n].watermark
    ensures Retains(DropConsumed(t).messages, boundary, t.nextOffset)
    ensures ConsumedDropped(DropConsumed(t).messages, t.messages, t.groups)
  {
  }

  lemma RebaseGroups(groups: map<Name, GroupState>, base: nat, next: nat, leases: nat, base': nat)
    requires GroupsInv(groups, base, next, leases)
    requires forall n | n in groups :: base' <= groups[n].watermark
    ensures GroupsInv(groups, base', next, leases)
  {
    forall n | n in groups ensures GroupInv(groups[n], base', next, leases) {
      WiderGroupInv(groups[n], base, next, leases, base', next, leases);
    }
  }

  lemma NoneDropped(messages: map<nat, Message>, groups: map<Name, GroupState>)
    ensures ConsumedDropped(messages, messages, groups)
  {
  }

  lemma ReclaimIsDropConsumed(t: TopicState)
    requires |t.groups| <= GROUP_GC_THRESHOLD
    ensures Reclaim(t) == DropConsumed(t)
  {
    assert DropConsumed(t).groups == t.groups;
  }

  lemma StampedKeeps(g: GroupState, nowMs: nat, base: nat, next: nat, leases: nat)
    requires GroupInv(g, base, next, leases)
    ensures GroupInv(Stamped(g, nowMs), base, next, leases)
  {
  }

  lemma SweepIdleFacts(t: TopicState, nowMs: nat, leases: nat)
    requires TopicInv(t, leases)
    ensures TopicInv(SweepIdleGroups(t, nowMs), leases)
    ensures |SweepIdleGroups(t, nowMs).groups| <= |t.groups|
  {
    var r := SweepIdleGroups(t, nowMs);
    MapSize(r.groups, t.groups);
    forall n | n in r.groups ensures GroupInv(r.groups[n], Base(t), t.nextOffset, leases) {
      StampedKeeps(t.groups[n], nowMs, Base(t), t.nextOffset, leases);
    }
    hide GroupInv, Retains, DedupInv;
  }

  /** A sweep keeps the surviving groups, at most stamping them, and drops only what they are all past. */
  lemma SweepFacts(t: TopicState, nowMs: nat, leases: nat)
    requires TopicInv(t, leases)
    ensures var r := Sweep(t, nowMs);
            && TopicInv(r, leases)
            && r == t.(messages := r.messages, groups := r.groups)
            && r.groups == SweepIdleGroups(t, nowMs).groups
            && ConsumedDropped(r.messages, t.messages, r.groups)
            && Base(t) <= Base(r)
            && |r.groups| <= |t.groups|
  {
    SweepIdleFacts(t, nowMs, leases);
    var s := SweepIdleGroups(t, nowMs);
    assert |s.groups| <= GROUP_GC_THRESHOLD;
    NoneDropped(s.messages, s.groups);
    hide TopicInv, ConsumedDropped;
    DropConsumedFacts(s, leases);
    ReclaimIsDropConsumed(s);
  }

  // ---------------------------------------------------------------- dedup

  lemma FrontIsLeast(d: Dedup, next: nat, k: DedupKey)
    requires d.order != [] && DedupShape(d, next) && k in d.order[1..]
    ensures d.entries[d.order[0]] < d.entries[k]
  {
    var i :| 0 <= i < |d.order[1..]| && d.order[1..][i] == k;
    assert d.order[i + 1] == k;
  }

  lemma DropFrontKeeps(d: Dedup, next: nat)
    requires d.order != [] && DedupShape(d, next)
    ensures DedupShape(DropFront(d), next)
    ensures forall k :: k in DropFront(d).entries <==> k in d.entries && d.entries[k] > d.entries[d.order[0]]
  {
    var u := DropFront(d);
    assert d.order == [d.order[0]] + u.order;
    forall k ensures k in u.order <==> k in u.entries {
      if k in u.order { FrontIsLeast(d, next, k); }
    }
    forall k | k in u.entries ensures d.entries[k] > d.entries[d.order[0]] {
      FrontIsLeast(d, next, k);
    }
    forall i, j | 0 <= i < j < |u.order| ensures u.entries[u.order[i]] < u.entries[u.order[j]] {
      assert u.order[i] == d.order[i + 1] && u.order[j] == d.order[j + 1];
    }
  }

  /** `after` keeps a suffix of the eviction queue of `before`, and the table entries that go with it. */
  ghost predicate DedupSuffix(after: Dedup, before: Dedup) {
    && |after.order| <= |before.order|
    && after.order == before.order[|before.order| - |after.order|..]
    && (forall k | k in after.entries :: k in before.entries && after.entries[k] == before.entries[k])
  }

  lemma SuffixOfRest(after: Dedup, d: Dedup)
    requires d.order != [] && DedupSuffix(after, DropFront(d))
    ensures DedupSuffix(after, d)
  {
    var k := |d.order| - 1 - |after.order|;
    assert d.order[1..][k..] == d.order[k + 1..];
  }

  /** `r` holds exactly the entries of `d` at or above the boundary. */
  ghost predicate EntriesFrom(r: Dedup, d: Dedup, boundary: nat) {
    forall k :: k in r.entries <==> k in d.entries && d.entries[k] >= boundary
  }

  lemma {:induction false} PruneFacts(d: Dedup, boundary: nat, next: nat)
    requires DedupShape(d, next)
    ensures var r := PruneDedup(d, boundary);
            DedupShape(r, next) && DedupSuffix(r, d) && EntriesFrom(r, d, boundary)
    decreases |d.order|
  {
    assert d.order != [] ==> d.order[0] in d.entries by {
      assert d.order != [] ==> d.order[0] in d.order;
    }
    if d.order != [] && d.entries[d.order[0]] < boundary {
      DropFrontKeeps(d, next);
      hide DedupShape, DedupSuffix, EntriesFrom;
      PruneFacts(DropFront(d), boundary, next);
      SuffixOfRest(PruneDedup(d, boundary), d);
      EntriesOfRest(PruneDedup(d, boundary), d, boundary, next);
    } else {
      PruneNone(d, boundary, next);
    }
  }

  lemma EntriesOfRest(r: Dedup, d: Dedup, boundary: nat, next: nat)
    requires DedupShape(d, next) && d.order != [] && d.entries[d.order[0]] < boundary
    requires EntriesFrom(r, DropFront(d), boundary)
    ensures EntriesFrom(r, d, boundary)
  {
    DropFrontKeeps(d, next);
  }

  lemma PruneNone(d: Dedup, boundary: nat, next: nat)
    requires DedupShape(d, next)
    requires d.order != [] ==> d.entries[d.order[0]] >= boundary
    ensures EntriesFrom(d, d, boundary)
    ensures DedupSuffix(d, d)
  {
    forall k | k in d.entries ensures d.entries[k] >= boundary {
      var i :| 0 <= i < |d.order| && d.order[i] == k;
      assert d.entries[d.order[0]] <= d.entries[k];
    }
  }

  /** Eviction keeps the newest `DEDUP_CAPACITY` keys. */
  lemma {:induction false} EvictFacts(d: Dedup, next: nat)
    requires DedupShape(d, next)
    ensures var r := EvictDedup(d);
            && DedupShape(r, next) && DedupSuffix(r, d)
            && |r.order| == Min(|d.order|, DEDUP_CAPACITY)
    decreases |d.order|
  {
    if |d.order| > DEDUP_CAPACITY {
      DropFrontKeeps(d, next);
      EvictFacts(DropFront(d), next);
      SuffixOfRest(EvictDedup(d), d);
    }
  }

  /** A key stays exactly as long as it stays in the eviction queue. */
  lemma SuffixMembers(after: Dedup, before: Dedup, next: nat, i: nat)
    requires DedupShape(after, next) && DedupShape(before, next) && DedupSuffix(after, before)
    requires i < |before.order|
    ensures before.order[i] in after.entries <==> i >= |before.order| - |after.order|
  {
    var k := before.order[i];
    var shift := |before.order| - |after.order|;
    if i >= shift {
      assert after.order[i - shift] == k;
    } else {
      forall j | 0 <= j < |after.order| ensures after.order[j] != k {
        assert before.entries[before.order[i]] < before.entries[before.order[j + shift]];
      }
    }
  }

  lemma GrownShape(d: Dedup, key: DedupKey, offset: nat)
    requires DedupShape(d, offset) && key !in d.entries
    ensures DedupShape(Dedup(d.entries[key := offset], d.order + [key]), offset + 1)
  {
  }

  lemma RememberFacts(d: Dedup, key: DedupKey, offset: nat)
    requires DedupInv(d, offset) && key !in d.entries
    ensures var r := RememberKey(d, key, offset);
            && DedupInv(r, offset + 1)
            && DedupSuffix(r, Dedup(d.entries[key := offset], d.order + [key]))
            && |r.order| == Min(|d.order| + 1, DEDUP_CAPACITY)
            && key in r.entries && r.entries[key] == offset
  {
    var u := Dedup(d.entries[key := offset], d.order + [key]);
    GrownShape(d, key, offset);
    EvictFacts(u, offset + 1);
    assert u.order[|d.order|] == key;
    SuffixMembers(EvictDedup(u), u, offset + 1, |d.order|);
  }

  // ---------------------------------------------------------------- retention

  lemma RetainedSize(messages: map<nat, Message>, base: nat, next: nat)
    requires Retains(messages, base, next)
    ensures |messages| == next - base
  {
    assert messages.Keys == Range(base, next);
    assert |messages| == |messages.Keys|;
  }

  lemma DropOldestFacts(messages: map<nat, Message>, base: nat, next: nat, n: nat)
    requires Retains(messages, base, next) && n <= |messages|
    ensures base + n <= next && Retains(DropOldest(messages, n), base + n, next)
    ensures forall o | o in DropOldest(messages, n) :: DropOldest(messages, n)[o] == messages[o]
  {
    var keys := SortedKeys(messages.Keys);
    IncreasingInterval(keys, base, next);
    var gone := Elements(keys[..n]);
    forall o: nat ensures o in gone <==> base <= o < base + n {
      if base <= o < base + n {
        assert keys[..n][o - base] == o;
      }
    }
  }

  lemma RaiseGroupsFacts(groups: map<Name, GroupState>, base: nat, next: nat, boundary: nat, leases: nat)
    requires GroupsInv(groups, base, next, leases) && base <= boundary <= next <= U64_MAX
    ensures GroupsInv(RaiseGroups(groups, boundary), boundary, next, leases)
  {
    forall n | n in groups ensures GroupInv(RaiseGroups(groups, boundary)[n], boundary, next, leases) {
      assert GroupInv(groups[n], base, next, leases);
      if boundary > groups[n].watermark {
        AdvanceFacts(groups[n], boundary, base, next, leases);
      }
    }
  }

  /** What retention did: dropped a prefix of the log, raised every group to it and pruned the dedup table. */
  ghost predicate Purged(after: TopicState, before: TopicState) {
    && after == before.(messages := after.messages, groups := after.groups, dedup := after.dedup)
    && Base(before) <= Base(after)
    && (forall o | o in after.messages :: o in before.messages && after.messages[o] == before.messages[o])
    && after.groups == RaiseGroups(before.groups, Base(after))
    && DedupSuffix(after.dedup, before.dedup)
    && (forall k | k in before.dedup.entries && k !in after.dedup.entries :: before.dedup.entries[k] < Base(after))
    && (Base(after) > Base(before) ==> forall k | k in after.dedup.entries :: after.dedup.entries[k] >= Base(after))
  }

  lemma RaiseNone(groups: map<Name, GroupState>, boundary: nat)
    requires forall n | n in groups :: boundary <= groups[n].watermark
    ensures RaiseGroups(groups, boundary) == groups
  {
  }

  lemma PurgeFacts(t: TopicState, nowMs: nat, leases: nat)
    requires TopicInv(t, leases)
    ensures var r := PurgeRetained(t, nowMs);
            && TopicInv(r, leases) && Purged(r, t)
            && Base(r) == Base(t) + PurgeCount(t, nowMs)
  {
    var n := PurgeCount(t, nowMs);
    if n == 0 {
      forall i | i in t.groups ensures Base(t) <= t.groups[i].watermark {
        assert GroupInv(t.groups[i], Base(t), t.nextOffset, leases);
      }
      RaiseNone(t.groups, Base(t));
    } else {
      DropOldestFacts(t.messages, Base(t), t.nextOffset, n);
      var boundary := Base(t) + n;
      RetainsBase(DropOldest(t.messages, n), boundary, t.nextOffset);
      RaiseGroupsFacts(t.groups, Base(t), t.nextOffset, boundary, leases);
      MapSize(RaiseGroups(t.groups, boundary), t.groups);
      PruneFacts(t.dedup, boundary, t.nextOffset);
    }
  }

  /** After retention the topic is within its message cap. */
  lemma PurgeWithinCap(t: TopicState, nowMs: nat, leases: nat)
    requires TopicInv(t, leases)
    ensures EffectiveRetention(t).0 > 0 ==> |PurgeRetained(t, nowMs).messages| <= EffectiveRetention(t).0
  {
    PurgeFacts(t, nowMs, leases);
    var r := PurgeRetained(t, nowMs);
    RetainedSize(t.messages, Base(t), t.nextOffset);
    RetainedSize(r.messages, Base(r), r.nextOffset);
  }

  // ---------------------------------------------------------------- produce

  lemma AppendRetains(messages: map<nat, Message>, base: nat, next: nat, m: Message)
    requires Retains(messages, base, next) && next < U64_MAX && m.offset == next
    ensures Retains(messages[next := m], base, next + 1)
  {
  }

  lemma StoredFacts(t: TopicState, item: ProduceItem, leases: nat)
    requires TopicInv(t, leases) && t.nextOffset < U64_MAX && !IsDuplicate(t, item)
    ensures var s := Stored(t, item);
            && TopicInv(s, leases)
            && Base(s) == Base(t) && s.nextOffset == t.nextOffset + 1
            && s.messages == t.messages[t.nextOffset := MessageOf(item, t.nextOffset)]
            && s.groups == t.groups
  {
    var s := Stored(t, item);
    AppendRetains(t.messages, Base(t), t.nextOffset, MessageOf(item, t.nextOffset));
    WiderGroupsInv(t.groups, Base(t), t.nextOffset, leases, s.nextOffset, leases);
    assert DedupInv(s.dedup, s.nextOffset) by {
      if item.producerId != "" {
        RememberFacts(t.dedup, (item.producerId, item.seqNo), t.nextOffset);
      }
    }
    TopicInvIntro(s, Base(t), leases);
  }

  lemma ProduceKeeps(t: TopicState, item: ProduceItem, leases: nat)
    requires TopicInv(t, leases) && t.nextOffset < U64_MAX
    ensures TopicInv(ProduceTo(t, item).0, leases)
    ensures t.nextOffset <= ProduceTo(t, item).0.nextOffset
    ensures ProduceTo(t, item).0.groups.Keys == t.groups.Keys
  {
    hide TopicInv, PurgeRetained, Stored, IsDuplicate;
    if IsDuplicate(t, item) {
      PurgeFacts(t, item.tsMs, leases);
    } else {
      StoredFacts(t, item, leases);
      PurgeFacts(Stored(t, item), item.tsMs, leases);
    }
  }

  // ---------------------------------------------------------------- poll

  /** Leasing one open offset under the next lease id. */
  lemma LeasedKeeps(g: GroupState, leaseId: nat, offset: nat, deadlineMs: nat, base: nat, next: nat)
    requires GroupInv(g, base, next, leaseId) && IsOpen(g, offset) && offset < next
    ensures GroupInv(Leased(g, leaseId, offset, deadlineMs), base, next, leaseId + 1)
    ensures forall o: nat :: IsOpen(Leased(g, leaseId, offset, deadlineMs), o) <==> IsOpen(g, o) && o != offset
  {
    var h := Leased(g, leaseId, offset, deadlineMs);
    assert leaseId !in g.inFlight;
    forall o | o in h.leasedOffsets ensures exists l :: l in h.inFlight && h.inFlight[l].offset == o {
      if o == offset {
        assert h.inFlight[leaseId].offset == o;
      } else {
        var l :| l in g.inFlight && g.inFlight[l].offset == o;
        assert l in h.inFlight && h.inFlight[l].offset == o;
      }
    }
  }

  ghost predicate DistinctOffsets(chosen: seq<Item>) {
    forall i, j :: 0 <= i < j < |chosen| ==> chosen[i].offset != chosen[j].offset
  }

  /** Each chosen offset gets its own consecutive lease; nothing else about the group changes. */
  ghost predicate Issued(h: GroupState, g: GroupState, chosen: seq<Item>, leaseId: nat, deadlineMs: nat) {
    && h == g.(inFlight := h.inFlight, leasedOffsets := h.leasedOffsets)
    && (forall l :: l in h.inFlight <==> l in g.inFlight || leaseId <= l < leaseId + |chosen|)
    && (forall l | l in g.inFlight :: h.inFlight[l] == g.inFlight[l])
    && (forall i | 0 <= i < |chosen| :: h.inFlight[leaseId + i] == Lease(chosen[i].offset, deadlineMs))
    && (forall o :: o in h.leasedOffsets <==> o in g.leasedOffsets || HasOffset(chosen, o))
  }

  lemma {:induction false} IssueFacts(g: GroupState, chosen: seq<Item>, leaseId: nat, deadlineMs: nat, base: nat, next: nat)
    requires GroupInv(g, base, next, leaseId) && DistinctOffsets(chosen)
    requires forall x | x in chosen :: IsOpen(g, x.offset) && x.offset < next
    requires leaseId + |chosen| <= U64_MAX
    ensures GroupInv(IssueLeases(g, chosen, leaseId, deadlineMs), base, next, leaseId + |chosen|)
    ensures Issued(IssueLeases(g, chosen, leaseId, deadlineMs), g, chosen, leaseId, deadlineMs)
    decreases |chosen|
  {
    hide GroupInv, Issued, IsOpen;
    var h := IssueLeases(g, chosen, leaseId, deadlineMs);
    if chosen == [] {
      NoneIssued(g, leaseId, deadlineMs);
    } else {
      var mid := Leased(g, leaseId, chosen[0].offset, deadlineMs);
      assert h == IssueLeases(mid, chosen[1..], leaseId + 1, deadlineMs);
      assert GroupInv(h, base, next, leaseId + |chosen|) && Issued(h, g, chosen, leaseId, deadlineMs) by {
        IssueStep(g, chosen, leaseId, deadlineMs, base, next);
        IssueFacts(mid, chosen[1..], leaseId + 1, deadlineMs, base, next);
        IssuedCons(h, g, chosen, leaseId, deadlineMs);
      }
    }
  }

  lemma NoneIssued(g: GroupState, leaseId: nat, deadlineMs: nat)
    ensures Issued(g, g, [], leaseId, deadlineMs)
  {
  }

  lemma IssueStep(g: GroupState, chosen: seq<Item>, leaseId: nat, deadlineMs: nat, base: nat, next: nat)
    requires GroupInv(g, base, next, leaseId) && DistinctOffsets(chosen) && chosen != []
    requires forall x | x in chosen :: IsOpen(g, x.offset) && x.offset < next
    ensures var mid := Leased(g, leaseId, chosen[0].offset, deadlineMs);
            && leaseId !in g.inFlight
            && GroupInv(mid, base, next, leaseId + 1) && DistinctOffsets(chosen[1..])
            && (forall x | x in chosen[1..] :: IsOpen(mid, x.offset) && x.offset < next)
  {
    var x, tail := chosen[0], chosen[1..];
    assert x in chosen;
    LeasedKeeps(g, leaseId, x.offset, deadlineMs, base, next);
    forall y | y in tail ensures y in chosen && y.offset != x.offset {
      var i :| 0 <= i < |tail| && tail[i] == y;
      assert chosen[i + 1] == y;
    }
  }

  lemma IssuedCons(h: GroupState, g: GroupState, chosen: seq<Item>, leaseId: nat, deadlineMs: nat)
    requires chosen != [] && leaseId !in g.inFlight
    requires Issued(h, Leased(g, leaseId, chosen[0].offset, deadlineMs), chosen[1..], leaseId + 1, deadlineMs)
    ensures Issued(h, g, chosen, leaseId, deadlineMs)
  {
    var mid := Leased(g, leaseId, chosen[0].offset, deadlineMs);
    forall i | 0 <= i < |chosen| ensures h.inFlight[leaseId + i] == Lease(chosen[i].offset, deadlineMs) {
      if i == 0 {
        assert leaseId in mid.inFlight;
      } else {
        assert chosen[i] == chosen[1..][i - 1];
        assert h.inFlight[leaseId + 1 + (i - 1)] == Lease(chosen[1..][i - 1].offset, deadlineMs);
      }
    }
    forall o ensures HasOffset(chosen, o) <==> o == chosen[0].offset || HasOffset(chosen[1..], o) {
      if HasOffset(chosen[1..], o) {
        var i :| 0 <= i < |chosen[1..]| && chosen[1..][i].offset == o;
        assert chosen[i + 1].offset == o;
      }
      if HasOffset(chosen, o) && o != chosen[0].offset {
        var i :| 0 <= i < |chosen| && chosen[i].offset == o;
        assert chosen[1..][i - 1].offset == o;
      }
    }
  }

  lemma {:induction false} DeliveriesFacts(messages: map<nat, Message>, chosen: seq<Item>, leaseId: nat, i: nat)
    requires forall x | x in chosen :: x.offset in messages
    requires leaseId + |chosen| <= U64_MAX && i < |chosen|
    ensures Deliveries(messages, chosen, leaseId)[i] ==
            Delivery(leaseId + i, chosen[i].offset, messages[chosen[i].offset])
    decreases |chosen|
  {
    if i > 0 {
      DeliveriesFacts(messages, chosen[1..], leaseId + 1, i - 1);
    }
  }

  /** A poll's choice: sorted, distinct, open in the refreshed group, and as long as it can be. */
  lemma ChosenFacts(messages: map<nat, Message>, entry: GroupState, max: nat, tsMs: nat)
    ensures var chosen := Chosen(messages, entry, max, tsMs);
            && Sorted(chosen) && DistinctOffsets(chosen)
            && |chosen| == Min(max, |Candidates(messages, Refreshed(entry, tsMs))|)
            && (forall x | x in chosen :: x in Candidates(messages, Refreshed(entry, tsMs)))
            && (forall x | x in chosen ::
                  x.offset in messages && IsOpen(Refreshed(entry, tsMs), x.offset)
                  && x.priority == messages[x.offset].priority)
  {
    var candidates := Candidates(messages, Refreshed(entry, tsMs));
    CandidatesFacts(messages, Refreshed(entry, tsMs));
    SelectionFacts(candidates, max, entry.pollCount);
    var chosen := Chosen(messages, entry, max, tsMs);
    forall x | x in chosen ensures x in candidates {
      assert x in Elements(chosen);
      assert x in Elements(candidates);
    }
    forall i, j | 0 <= i < j < |chosen| ensures chosen[i].offset != chosen[j].offset {
      assert chosen[i] in Elements(chosen) && chosen[j] in Elements(chosen);
    }
  }

  lemma EntryKeeps(t: TopicState, group: Name, nowMs: Option<nat>, leases: nat)
    requires TopicInv(t, leases)
    ensures GroupInv(GroupEntry(t, group, nowMs), Base(t), t.nextOffset, leases)
  {
  }

  lemma RefreshedFacts(g: GroupState, tsMs: nat, base: nat, next: nat, leases: nat)
    requires GroupInv(g, base, next, leases)
    ensures GroupInv(Refreshed(g, tsMs), base, next, leases)
    ensures forall o: nat :: IsDone(Refreshed(g, tsMs), o) <==> IsDone(g, o)
    ensures forall o :: o in Refreshed(g, tsMs).leasedOffsets <==> o in g.leasedOffsets && g.leasedOffsets[o] > tsMs
    ensures forall l :: l in Refreshed(g, tsMs).inFlight <==> l in g.inFlight && g.inFlight[l].deadlineMs > tsMs
    ensures forall l | l in Refreshed(g, tsMs).inFlight :: Refreshed(g, tsMs).inFlight[l] == g.inFlight[l]
  {
    ExpireFacts(g, tsMs, base, next, leases);
  }

  /** The record a poll leaves for its group. */
  ghost function Polled(t: TopicState, group: Name, max: nat, visibilityMs: nat, tsMs: nat, nextLease: nat): GroupState {
    var entry := GroupEntry(t, group, Some(tsMs));
    IssueLeases(Refreshed(entry, tsMs), Chosen(t.messages, entry, max, tsMs), nextLease, DeadlineOf(tsMs, visibilityMs))
  }

  lemma PolledFacts(t: TopicState, group: Name, max: u32, visibilityMs: nat, tsMs: nat, nextLease: nat)
    requires TopicInv(t, nextLease) && nextLease <= MAX_COUNTER
    ensures var entry := GroupEntry(t, group, Some(tsMs));
            var chosen := Chosen(t.messages, entry, max, tsMs);
            var g := Polled(t, group, max, visibilityMs, tsMs, nextLease);
            && nextLease + |chosen| <= U64_MAX
            && GroupInv(g, Base(t), t.nextOffset, nextLease + |chosen|)
            && Issued(g, Refreshed(entry, tsMs), chosen, nextLease, DeadlineOf(tsMs, visibilityMs))
  {
    var entry := GroupEntry(t, group, Some(tsMs));
    EntryKeeps(t, group, Some(tsMs), nextLease);
    RefreshedFacts(entry, tsMs, Base(t), t.nextOffset, nextLease);
    ChosenFacts(t.messages, entry, max, tsMs);
    var chosen := Chosen(t.messages, entry, max, tsMs);
    forall x | x in chosen ensures x.offset < t.nextOffset {
      assert x.offset in t.messages;
    }
    IssueFacts(Refreshed(entry, tsMs), chosen, nextLease, DeadlineOf(tsMs, visibilityMs), Base(t), t.nextOffset);
  }

  lemma PollAdmitted(t: TopicState, group: Name, max: u32, visibilityMs: nat, tsMs: nat, nextLease: nat)
    requires TopicInv(t, nextLease) && nextLease <= MAX_COUNTER && Admits(t, group)
    ensures var chosen := Chosen(t.messages, GroupEntry(t, group, Some(tsMs)), max, tsMs);
            var r := Put(t, group, Polled(t, group, max, visibilityMs, tsMs, nextLease));
            && nextLease + |chosen| <= U64_MAX
            && TopicInv(r, nextLease + |chosen|)
            && |r.groups| <= Max(|t.groups|, MAX_GROUPS_PER_TOPIC)
  {
    hide TopicInv, GroupInv, Issued, IssueLeases, Chosen, Polled, Base;
    PolledFacts(t, group, max, visibilityMs, tsMs, nextLease);
    var chosen := Chosen(t.messages, GroupEntry(t, group, Some(tsMs)), max, tsMs);
    PutKeeps(t, group, Polled(t, group, max, visibilityMs, tsMs, nextLease), nextLease, nextLease + |chosen|);
  }

  lemma PollKeeps(t: TopicState, group: Name, max: u32, visibilityMs: nat, tsMs: nat, nextLease: nat)
    requires TopicInv(t, nextLease) && nextLease <= MAX_COUNTER
    ensures var r := PollTopic(t, group, max, visibilityMs, tsMs, nextLease);
            && TopicInv(r.topic, r.nextLease)
            && r.nextLease == nextLease + |r.items|
            && r.topic.nextOffset == t.nextOffset
            && |r.topic.groups| <= Max(|t.groups|, MAX_GROUPS_PER_TOPIC)
  {
    hide TopicInv;
    var swept := Sweep(t, tsMs);
    SweepFacts(t, tsMs, nextLease);
    if Admits(swept, group) {
      PollAdmitted(swept, group, max, visibilityMs, tsMs, nextLease);
    }
  }

  // ---------------------------------------------------------------- ack, nack and commit

  lemma AckKeeps(t: TopicState, group: Name, leaseId: nat, leases: nat)
    requires TopicInv(t, leases)
    ensures TopicInv(AckTopic(t, group, leaseId), leases)
    ensures AckTopic(t, group, leaseId).groups.Keys == t.groups.Keys
  {
    if group in t.groups {
      var g := t.groups[group];
      assert GroupInv(g, Base(t), t.nextOffset, leases);
      assert t.nextOffset <= U64_MAX;
      hide TopicInv, GroupInv;
      if leaseId in g.inFlight {
        AckFacts(g, leaseId, Base(t), t.nextOffset, leases);
      }
      PutKeeps(t, group, AckLease(g, leaseId), leases, leases);
    }
  }

  lemma NackKeeps(t: TopicState, group: Name, leaseId: nat, leases: nat)
    requires TopicInv(t, leases)
    ensures TopicInv(NackTopic(t, group, leaseId), leases)
    ensures NackTopic(t, group, leaseId).groups.Keys == t.groups.Keys
  {
    if group in t.groups {
      UnleaseIsDrop(t.groups[group], leaseId);
      DropLeasesKeeps(t.groups[group], {leaseId}, Base(t), t.nextOffset, leases);
      PutKeeps(t, group, Unlease(t.groups[group], leaseId), leases, leases);
    }
  }

  function SweptFor(t: TopicState, nowMs: Option<nat>): TopicState {
    if nowMs.Some? then Sweep(t, nowMs.value) else t
  }

  lemma CommitKeeps(t: TopicState, group: Name, offset: nat, nowMs: Option<nat>, leases: nat)
    requires TopicInv(t, leases)
    ensures TopicInv(CommitTopic(t, group, offset, nowMs), leases)
    ensures CommitTopic(t, group, offset, nowMs).nextOffset == t.nextOffset
    ensures |CommitTopic(t, group, offset, nowMs).groups| <= Max(|t.groups|, MAX_GROUPS_PER_TOPIC)
  {
    if nowMs.Some? {
      SweepFacts(t, nowMs.value, leases);
    }
    var swept := SweptFor(t, nowMs);
    if Admits(swept, group) {
      var entry := GroupEntry(swept, group, nowMs);
      EntryKeeps(swept, group, nowMs, leases);
      var to := Min(offset, swept.nextOffset);
      AdvanceFacts(entry, to, Base(swept), swept.nextOffset, leases);
      var g := AdvanceWatermark(entry, to);
      WiderGroupInv(g, Max(Base(swept), to), swept.nextOffset, leases, Base(swept), swept.nextOffset, leases);
      var h := if nowMs.Some? then g.(lastActiveMs := Max(g.lastActiveMs, nowMs.value)) else g;
      PutKeeps(swept, group, h, leases, leases);
    }
  }
}
