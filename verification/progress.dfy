/** What one topic operation does to one consumer group that lives through it. */
module Progress {
  import opened Collections
  import opened Model
  import opened Groups
  import opened Selection
  import opened Topics
  import opened TopicFacts
  import opened Queue
  import opened Invariant

  /** The operation's sweep, if it has one, does not expire the group. */
  predicate KeepsGroup(t: TopicState, op: Op, n: Name)
    requires n in t.groups
  {
    && (op.Lend? ==> Survives(t.groups[n], op.tsMs))
    && (op.Advance? && op.nowMs.Some? ==> Survives(t.groups[n], op.nowMs.value))
  }

  /** The clock an operation carries to its topic. */
  function ClockOf(op: Op): Option<nat> {
    match op
    case Lend(_, _, _, tsMs) => Some(tsMs)
    case Advance(_, _, nowMs) => nowMs
    case _ => None
  }

  function StampedAt(g: GroupState, nowMs: Option<nat>): GroupState {
    if nowMs.Some? then Stamped(g, nowMs.value) else g
  }

  /** The record the operation leaves for group `n`. */
  ghost function GroupResult(t: TopicState, op: Op, leases: nat, n: Name): GroupState
    requires n in t.groups && !op.Remove?
  {
    var g := StampedAt(t.groups[n], ClockOf(op));
    match op
    case StoreItem(item) =>
      var base := Base(TopicStep(t, op, leases).0);
      if base > g.watermark then AdvanceWatermark(g, base) else g
    case Lend(group, max, visibilityMs, tsMs) =>
      if group == n then TopicFacts.Polled(Sweep(t, tsMs), n, max, visibilityMs, tsMs, leases) else g
    case Settle(group, leaseId) => if group == n then AckLease(g, leaseId) else g
    case Release(group, leaseId) => if group == n then Unlease(g, leaseId) else g
    case Advance(group, offset, nowMs) =>
      if group != n then g else
        var h := AdvanceWatermark(g, Min(offset, t.nextOffset));
        if nowMs.Some? then h.(lastActiveMs := Max(h.lastActiveMs, nowMs.value)) else h
    case _ => g
  }

  lemma SweptGroup(t: TopicState, nowMs: nat, leases: nat, n: Name)
    requires TopicInv(t, leases) && n in t.groups && Survives(t.groups[n], nowMs)
    ensures n in Sweep(t, nowMs).groups && Sweep(t, nowMs).groups[n] == Stamped(t.groups[n], nowMs)
    ensures TopicInv(Sweep(t, nowMs), leases) && Sweep(t, nowMs).nextOffset == t.nextOffset
  {
    SweepFacts(t, nowMs, leases);
  }

  /** A group that lives through an operation is left with exactly this record. */
  lemma GroupAfter(t: TopicState, op: Op, leases: nat, n: Name)
    requires TopicInv(t, leases) && n in t.groups && !op.Remove? && KeepsGroup(t, op, n)
    requires op.StoreItem? ==> t.nextOffset < U64_MAX
    ensures n in TopicStep(t, op, leases).0.groups
    ensures TopicStep(t, op, leases).0.groups[n] == GroupResult(t, op, leases, n)
  {
    hide ProduceTo, PollTopic, CommitTopic, Reclaim, Base, Survives, AckLease, Unlease, AdvanceWatermark, TopicInv, Sweep, TopicFacts.Polled;
    match op
    case StoreItem(item) => StoredGroup(t, item, leases, n);
    case Lend(group, max, visibilityMs, tsMs) => LentGroup(t, group, max, visibilityMs, tsMs, leases, n);
    case Advance(group, offset, nowMs) => AdvancedGroup(t, group, offset, nowMs, leases, n);
    case DropDone => ReclaimKeeps(t, leases);
    case _ =>
  }

  lemma LentGroup(t: TopicState, group: Name, max: nat, visibilityMs: nat, tsMs: nat, leases: nat, n: Name)
    requires TopicInv(t, leases) && n in t.groups && Survives(t.groups[n], tsMs)
    ensures var r := PollTopic(t, group, max, visibilityMs, tsMs, leases).topic;
            && n in r.groups
            && r.groups[n] == (if group == n then TopicFacts.Polled(Sweep(t, tsMs), n, max, visibilityMs, tsMs, leases)
                               else Stamped(t.groups[n], tsMs))
  {
    hide TopicInv, Survives, Sweep, Chosen, IssueLeases, Deliveries, Refreshed;
    SweptGroup(t, tsMs, leases, n);
  }

  lemma AdvancedGroup(t: TopicState, group: Name, offset: nat, nowMs: Option<nat>, leases: nat, n: Name)
    requires TopicInv(t, leases) && n in t.groups
    requires nowMs.Some? ==> Survives(t.groups[n], nowMs.value)
    ensures var r := CommitTopic(t, group, offset, nowMs);
            && n in r.groups
            && r.groups[n] == GroupResult(t, Advance(group, offset, nowMs), leases, n)
  {
    hide TopicInv, Survives, Sweep, AdvanceWatermark, Base;
    if nowMs.Some? { SweptGroup(t, nowMs.value, leases, n); }
  }

  lemma StoredGroup(t: TopicState, item: ProduceItem, leases: nat, n: Name)
    requires TopicInv(t, leases) && n in t.groups && t.nextOffset < U64_MAX
    ensures var r := ProduceTo(t, item).0;
            && n in r.groups
            && r.groups[n] == (if Base(r) > t.groups[n].watermark then AdvanceWatermark(t.groups[n], Base(r)) else t.groups[n])
            && Base(t) <= Base(r) <= r.nextOffset <= t.nextOffset + 1
            && TopicInv(r, leases)
  {
    if IsDuplicate(t, item) {
      PurgeFacts(t, item.tsMs, leases);
    } else {
      StoredFacts(t, item, leases);
      PurgeFacts(Stored(t, item), item.tsMs, leases);
    }
    hide GroupInv, DedupInv, DedupSuffix, Stored, PurgeRetained, IsDuplicate;
  }

  // ---------------------------------------------------------------- how a group moves

  /** The operation itself finishes the offset for the group: an ack of its lease, a commit above it, or a
      retention boundary `base` above it. */
  ghost predicate Finishes(t: TopicState, g: GroupState, op: Op, n: Name, base: nat, o: nat) {
    match op
    case StoreItem(_) => o < base
    case Settle(group, leaseId) => group == n && leaseId in g.inFlight && g.inFlight[leaseId].offset == o
    case Advance(group, offset, _) => group == n && o < Min(offset, t.nextOffset)
    case _ => false
  }

  /** The operation gives the lease back undone: a nack, or a poll at or past its deadline. */
  predicate Returns(g: GroupState, op: Op, n: Name, leaseId: nat)
    requires leaseId in g.inFlight
  {
    || (op.Release? && op.group == n && op.leaseId == leaseId)
    || (op.Lend? && op.group == n && g.inFlight[leaseId].deadlineMs <= op.tsMs)
  }

  /** How `g` becomes `h`: done offsets stay done and new ones are accounted for, leases last until their offset
      is done or they are returned, and nothing becomes deliverable except through a returned lease. */
  ghost predicate Moved(h: GroupState, g: GroupState, t: TopicState, op: Op, n: Name, base: nat) {
    && (forall o: nat :: IsDone(h, o) <==> IsDone(g, o) || Finishes(t, g, op, n, base, o))
    && (forall l | l in g.inFlight ::
          (l in h.inFlight && h.inFlight[l] == g.inFlight[l]) || IsDone(h, g.inFlight[l].offset) || Returns(g, op, n, l))
    && (forall o: nat | IsOpen(h, o) && !IsOpen(g, o) ::
          exists l :: l in g.inFlight && g.inFlight[l].offset == o && Returns(g, op, n, l))
    && (!(op.Lend? && op.group == n) ==> h.leasedOffsets.Keys <= g.leasedOffsets.Keys)
    && g.lastActiveMs <= h.lastActiveMs
    && h.pollCount == (if op.Lend? && op.group == n then SatAdd(g.pollCount, 1) else g.pollCount)
  }

  /** Every operation moves every group that lives through it in this way. */
  lemma GroupMoves(t: TopicState, op: Op, leases: nat, n: Name)
    requires TopicInv(t, leases) && n in t.groups && !op.Remove? && KeepsGroup(t, op, n)
    requires t.nextOffset <= MAX_COUNTER && leases <= MAX_COUNTER
    ensures n in TopicStep(t, op, leases).0.groups
    ensures Moved(TopicStep(t, op, leases).0.groups[n], t.groups[n], t, op, n, Base(TopicStep(t, op, leases).0))
  {
    hide TopicInv, GroupInv, Moved, KeepsGroup;
    GroupAfter(t, op, leases, n);
    var g := t.groups[n];
    GroupOf(t, leases, n);
    var base := Base(TopicStep(t, op, leases).0);
    hide TopicStep;
    match op
    case StoreItem(item) =>
      StoreMoves(t, item, leases, n);
    case Lend(group, max, visibilityMs, tsMs) =>
      if group == n { PollMoves(t, op, leases, n); } else { StampMoves(g, tsMs, t, op, n, base); }
    case Settle(group, leaseId) =>
      if group == n && leaseId in g.inFlight { AckMoves(g, leaseId, t, op, n, base, leases); } else { Unmoved(g, t, op, n, base); }
    case Release(group, leaseId) =>
      if group == n { NackMoves(g, leaseId, t, op, n, base, leases); } else { Unmoved(g, t, op, n, base); }
    case Advance(group, offset, nowMs) =>
      CommitMoves(t, op, leases, n, base);
    case _ => Unmoved(g, t, op, n, base);
  }

  lemma Unmoved(g: GroupState, t: TopicState, op: Op, n: Name, base: nat)
    requires !op.StoreItem? && ((op.Settle? || op.Release? || op.Advance? || op.Lend?) ==> op.group != n || op.Settle?)
    requires op.Settle? && op.group == n ==> op.leaseId !in g.inFlight
    ensures Moved(g, g, t, op, n, base)
  {
  }

  lemma StampMoves(g: GroupState, nowMs: nat, t: TopicState, op: Op, n: Name, base: nat)
    requires (op.Lend? || op.Advance?) && op.group != n
    ensures Moved(Stamped(g, nowMs), g, t, op, n, base)
  {
  }

  /** Raising the watermark to `to`, by retention or by a commit. */
  lemma RaiseMoves(h: GroupState, g: GroupState, to: nat, t: TopicState, op: Op, n: Name, base: nat)
    requires op.StoreItem? || (op.Advance? && op.group == n)
    requires to == if op.StoreItem? then base else Min(op.offset, t.nextOffset)
    requires forall o: nat :: IsDone(h, o) <==> IsDone(g, o) || o < to
    requires LeasesFrom(h, g, to)
    requires g.lastActiveMs <= h.lastActiveMs && h.pollCount == g.pollCount
    ensures Moved(h, g, t, op, n, base)
  {
    assert forall o: nat :: Finishes(t, g, op, n, base, o) <==> o < to;
  }

  lemma StoreMoves(t: TopicState, item: ProduceItem, leases: nat, n: Name)
    requires TopicInv(t, leases) && n in t.groups && t.nextOffset < U64_MAX
    ensures var r := ProduceTo(t, item).0;
            Moved(GroupResult(t, StoreItem(item), leases, n), t.groups[n], t, StoreItem(item), n, Base(r))
  {
    hide TopicInv, ProduceTo, GroupInv, Base, Moved, LeasesFrom, AdvanceWatermark;
    var g, r := t.groups[n], ProduceTo(t, item).0;
    GroupOf(t, leases, n);
    StoredGroup(t, item, leases, n);
    WiderGroupInv(g, Base(t), t.nextOffset, leases, Base(t), t.nextOffset + 1, leases);
    var h := GroupResult(t, StoreItem(item), leases, n);
    if Base(r) > g.watermark {
      AdvanceFacts(g, Base(r), Base(t), t.nextOffset + 1, leases);
      AdvanceKeepsRest(g, Base(r));
      RaiseMoves(h, g, Base(r), t, StoreItem(item), n, Base(r));
    } else {
      BelowMoves(g, t, item, n, Base(r));
    }
  }

  lemma BelowMoves(g: GroupState, t: TopicState, item: ProduceItem, n: Name, base: nat)
    requires base <= g.watermark
    ensures Moved(g, g, t, StoreItem(item), n, base)
  {
  }

  lemma AdvanceKeepsRest(g: GroupState, to: nat)
    ensures AdvanceWatermark(g, to).lastActiveMs == g.lastActiveMs && AdvanceWatermark(g, to).pollCount == g.pollCount
  {
  }

  lemma AckKeepsRest(g: GroupState, leaseId: nat)
    ensures AckLease(g, leaseId).lastActiveMs == g.lastActiveMs && AckLease(g, leaseId).pollCount == g.pollCount
  {
  }

  lemma OneLeaseEach(g: GroupState, leaseId: nat, base: nat, next: nat, leases: nat)
    requires GroupInv(g, base, next, leases) && leaseId in g.inFlight
    ensures forall l | l in g.inFlight && g.inFlight[l].offset == g.inFlight[leaseId].offset :: l == leaseId
  {
  }

  lemma GroupOf(t: TopicState, leases: nat, n: Name)
    requires TopicInv(t, leases) && n in t.groups
    ensures GroupInv(t.groups[n], Base(t), t.nextOffset, leases)
  {
  }

  lemma AckMoves(g: GroupState, leaseId: nat, t: TopicState, op: Op, n: Name, base: nat, leases: nat)
    requires GroupInv(g, Base(t), t.nextOffset, leases) && t.nextOffset <= U64_MAX
    requires op == Settle(n, leaseId) && leaseId in g.inFlight
    ensures Moved(AckLease(g, leaseId), g, t, op, n, base)
  {
    hide GroupInv, AckLease, Mirrored, Base, IsDone;
    AckKeepsRest(g, leaseId);
    OneLeaseEach(g, leaseId, Base(t), t.nextOffset, leases);
    AckFacts(g, leaseId, Base(t), t.nextOffset, leases);
  }

  lemma NackMoves(g: GroupState, leaseId: nat, t: TopicState, op: Op, n: Name, base: nat, leases: nat)
    requires GroupInv(g, Base(t), t.nextOffset, leases)
    requires op == Release(n, leaseId)
    ensures Moved(Unlease(g, leaseId), g, t, op, n, base)
  {
    hide GroupInv, Base;
  }

  lemma StampedAtKeeps(g: GroupState, nowMs: Option<nat>, base: nat, next: nat, leases: nat)
    requires GroupInv(g, base, next, leases)
    ensures GroupInv(StampedAt(g, nowMs), base, next, leases)
    ensures StampedAt(g, nowMs) == g.(lastActiveMs := StampedAt(g, nowMs).lastActiveMs)
    ensures g.lastActiveMs <= StampedAt(g, nowMs).lastActiveMs
  {
  }

  lemma CommitMoves(t: TopicState, op: Op, leases: nat, n: Name, base: nat)
    requires TopicInv(t, leases) && n in t.groups && op.Advance?
    ensures Moved(GroupResult(t, op, leases, n), t.groups[n], t, op, n, base)
  {
    var g := t.groups[n];
    var s := StampedAt(g, op.nowMs);
    assert GroupInv(g, Base(t), t.nextOffset, leases);
    assert t.nextOffset <= U64_MAX;
    if op.group == n {
      hide TopicInv, GroupInv, Base, AdvanceWatermark, Moved, LeasesFrom;
      StampedAtKeeps(g, op.nowMs, Base(t), t.nextOffset, leases);
      var to := Min(op.offset, t.nextOffset);
      AdvanceFacts(s, to, Base(t), t.nextOffset, leases);
      AdvanceKeepsRest(s, to);
      CommittedMoves(AdvanceWatermark(s, to), s, GroupResult(t, op, leases, n), g, to, t, op, n, base);
    } else if op.nowMs.Some? {
      StampMoves(g, op.nowMs.value, t, op, n, base);
    } else {
      Unmoved(g, t, op, n, base);
    }
  }

  lemma CommittedMoves(a: GroupState, s: GroupState, h: GroupState, g: GroupState, to: nat, t: TopicState, op: Op, n: Name, base: nat)
    requires op.Advance? && op.group == n && to == Min(op.offset, t.nextOffset)
    requires s == g.(lastActiveMs := s.lastActiveMs) && h == a.(lastActiveMs := h.lastActiveMs)
    requires g.lastActiveMs <= h.lastActiveMs && h.pollCount == g.pollCount
    requires forall o: nat :: IsDone(a, o) <==> IsDone(s, o) || o < to
    requires LeasesFrom(a, s, to)
    ensures Moved(h, g, t, op, n, base)
  {
    assert LeasesFrom(h, g, to);
    assert forall o: nat :: IsDone(a, o) <==> IsDone(h, o);
    assert forall o: nat :: IsDone(s, o) <==> IsDone(g, o);
    hide Moved;
    RaiseMoves(h, g, to, t, op, n, base);
  }

  lemma PollMoves(t: TopicState, op: Op, leases: nat, n: Name)
    requires TopicInv(t, leases) && n in t.groups && op.Lend? && op.group == n && KeepsGroup(t, op, n)
    requires leases <= MAX_COUNTER
    ensures Moved(GroupResult(t, op, leases, n), t.groups[n], t, op, n, Base(TopicStep(t, op, leases).0))
  {
    var g := t.groups[n];
    var swept := Sweep(t, op.tsMs);
    SweptGroup(t, op.tsMs, leases, n);
    var s := Stamped(g, op.tsMs);
    assert GroupInv(s, Base(swept), t.nextOffset, leases);
    assert Mirrored(g);
    hide TopicInv, GroupInv, Sweep, Base, Survives, Issued, Moved, Mirrored;
    RefreshedFacts(s, op.tsMs, Base(swept), t.nextOffset, leases);
    PolledFacts(swept, n, op.max, op.visibilityMs, op.tsMs, leases);
    var r := Refreshed(s, op.tsMs);
    var h := TopicFacts.Polled(swept, n, op.max, op.visibilityMs, op.tsMs, leases);
    RefreshedView(r, s, g, op.tsMs);
    LentMoves(h, r, g, Chosen(swept.messages, s, op.max, op.tsMs), leases,
              DeadlineOf(op.tsMs, op.visibilityMs), t, op, n, Base(TopicStep(t, op, leases).0));
  }

  /** `r` is `g` with the leases due at `tsMs` returned. */
  ghost predicate Expired(r: GroupState, g: GroupState, tsMs: nat) {
    && (forall o: nat :: IsDone(r, o) <==> IsDone(g, o))
    && (forall o :: o in r.leasedOffsets <==> o in g.leasedOffsets && g.leasedOffsets[o] > tsMs)
    && (forall l :: l in r.inFlight <==> l in g.inFlight && g.inFlight[l].deadlineMs > tsMs)
    && (forall l | l in r.inFlight :: r.inFlight[l] == g.inFlight[l])
  }

  lemma RefreshedView(r: GroupState, s: GroupState, g: GroupState, tsMs: nat)
    requires s == Stamped(g, tsMs) && r == Refreshed(s, tsMs) && Expired(r, s, tsMs)
    ensures Expired(r, g, tsMs)
    ensures r.pollCount == SatAdd(g.pollCount, 1) && g.lastActiveMs <= r.lastActiveMs
  {
  }

  lemma LentMoves(h: GroupState, r: GroupState, g: GroupState, chosen: seq<Item>, leaseId: nat, deadlineMs: nat,
                  t: TopicState, op: Op, n: Name, base: nat)
    requires op.Lend? && op.group == n
    requires Expired(r, g, op.tsMs) && Issued(h, r, chosen, leaseId, deadlineMs)
    requires r.pollCount == SatAdd(g.pollCount, 1) && g.lastActiveMs <= r.lastActiveMs
    requires Mirrored(g)
    ensures Moved(h, g, t, op, n, base)
  {
    assert forall o: nat :: IsDone(h, o) <==> IsDone(r, o);
    forall l | l in g.inFlight && !Returns(g, op, n, l) ensures l in h.inFlight && h.inFlight[l] == g.inFlight[l] {
      assert l in r.inFlight;
    }
    forall o: nat | IsOpen(h, o) && !IsOpen(g, o)
      ensures exists l :: l in g.inFlight && g.inFlight[l].offset == o && Returns(g, op, n, l)
    {
      LapsedLease(h, r, g, chosen, leaseId, deadlineMs, op, n, o);
    }
    hide Issued, Expired, Mirrored, IsOpen;
  }

  lemma LapsedLease(h: GroupState, r: GroupState, g: GroupState, chosen: seq<Item>, leaseId: nat, deadlineMs: nat,
                    op: Op, n: Name, o: nat)
    requires op.Lend? && op.group == n && Mirrored(g)
    requires Expired(r, g, op.tsMs) && Issued(h, r, chosen, leaseId, deadlineMs)
    requires IsOpen(h, o) && !IsOpen(g, o)
    ensures exists l :: l in g.inFlight && g.inFlight[l].offset == o && Returns(g, op, n, l)
  {
    assert IsDone(h, o) <==> IsDone(r, o);
    assert o !in r.leasedOffsets;
    assert o in g.leasedOffsets && g.leasedOffsets[o] <= op.tsMs;
    var l :| l in g.inFlight && g.inFlight[l].offset == o;
    assert g.leasedOffsets[o] == g.inFlight[l].deadlineMs;
  }

  lemma BaseGrows(t: TopicState, op: Op, leases: nat)
    requires TopicInv(t, leases) && leases <= MAX_COUNTER && t.nextOffset <= MAX_COUNTER && !op.Remove?
    ensures Base(t) <= Base(TopicStep(t, op, leases).0)
  {
    hide TopicInv, ProduceTo, Sweep, Chosen, IssueLeases, Deliveries, Refreshed, AdvanceWatermark, AckLease, Unlease, Reclaim, DropConsumed;
    match op
    case StoreItem(item) => ProduceBase(t, item, leases);
    case Lend(group, max, visibilityMs, tsMs) => SweepFacts(t, tsMs, leases);
    case Advance(group, offset, nowMs) => if nowMs.Some? { SweepFacts(t, nowMs.value, leases); }
    case DropDone => ReclaimBase(t, leases);
    case _ =>
  }

  lemma ProduceBase(t: TopicState, item: ProduceItem, leases: nat)
    requires TopicInv(t, leases) && t.nextOffset <= MAX_COUNTER
    ensures Base(t) <= Base(ProduceTo(t, item).0)
  {
    if IsDuplicate(t, item) {
      PurgeFacts(t, item.tsMs, leases);
    } else {
      StoredFacts(t, item, leases);
      PurgeFacts(Stored(t, item), item.tsMs, leases);
    }
  }

  lemma ReclaimBase(t: TopicState, leases: nat)
    requires TopicInv(t, leases)
    ensures Base(t) <= Base(Reclaim(t))
  {
    DropConsumedFacts(t, leases);
    ReclaimIsDropConsumed(t);
  }
}
