/** Which groups a topic has after a poll or a commit, and what their records say of it. */
module Sweeps {
  import opened Collections
  import opened Model
  import opened Groups
  import Selection
  import opened Topics
  import opened TopicFacts
  import opened Queue
  import opened Delivery
  import opened Polls

  // ---------------------------------------------------------------- reclaiming

  /** Nothing is left of it: it has passed everything, and holds no lease and no acknowledgement. */
  predicate Finished(g: GroupState, next: nat) {
    g.watermark >= next && |g.inFlight| == 0 && |g.leasedOffsets| == 0 && |g.ackedAbove| == 0
  }

  /** Exactly what reclaiming keeps: the messages some group is not past, or all if there is no group; and all groups, unless
      they are more than 1024 and no message is left, and then those that are not finished. */
  lemma ReclaimIs(t: TopicState)
    ensures var r := Reclaim(t);
            && r == t.(messages := r.messages, groups := r.groups)
            && (forall o :: o in r.messages <==> o in t.messages && (t.groups == map[] || exists n :: n in t.groups && t.groups[n].watermark <= o))
            && (forall o | o in r.messages :: r.messages[o] == t.messages[o])
            && (forall n :: n in r.groups <==>
                  n in t.groups && (|t.groups| <= 1024 || r.messages != map[] || !Finished(t.groups[n], t.nextOffset)))
            && (forall n | n in r.groups :: r.groups[n] == t.groups[n])
  {
    ReclaimKeeps(t);
    hide DropConsumed, Reclaim;
    ReclaimedGroups(t);
  }

  lemma ReclaimKeeps(t: TopicState)
    ensures var d := DropConsumed(t);
            && d == t.(messages := d.messages)
            && (forall o :: o in d.messages <==> o in t.messages && (t.groups == map[] || exists n :: n in t.groups && t.groups[n].watermark <= o))
            && (forall o | o in d.messages :: d.messages[o] == t.messages[o])
  {
    var marks := Watermarks(t.groups);
    if t.groups != map[] {
      LowestWatermark(t.groups);
      var m :| m in t.groups && t.groups[m].watermark == MinOf(marks);
      forall n | n in t.groups ensures MinOf(marks) <= t.groups[n].watermark {
        assert t.groups[n].watermark in marks;
      }
    } else {
      assert marks == {};
    }
  }

  lemma ReclaimedGroups(t: TopicState)
    ensures var d, r := DropConsumed(t), Reclaim(t);
            && r == d.(groups := r.groups)
            && (d.groups == t.groups && d.nextOffset == t.nextOffset ==>
                  && (forall n :: n in r.groups <==>
                        n in t.groups && (|t.groups| <= 1024 || d.messages != map[] || !Finished(t.groups[n], t.nextOffset)))
                  && (forall n | n in r.groups :: r.groups[n] == t.groups[n]))
  {
    hide DropConsumed;
  }

  // ---------------------------------------------------------------- sweeping

  /** The groups a sweep at this clock leaves. */
  function Lasting(t: TopicState, nowMs: nat): set<Name> {
    set m | m in t.groups && Active(t.groups[m], nowMs)
  }

  /** A group that has no time of activity gets this one. */
  function SeenAt(g: GroupState, nowMs: nat): GroupState {
    g.(lastActiveMs := if g.lastActiveMs == 0 then nowMs else g.lastActiveMs)
  }

  /** Exactly what a sweep keeps: the groups that were active within seven days or hold a running lease; and the messages,
      except that when a group goes those that all the others are past go too. */
  lemma SweepIs(t: TopicState, nowMs: nat, leases: nat)
    requires TopicInv(t, leases)
    ensures var r := Sweep(t, nowMs);
            && r == t.(messages := r.messages, groups := r.groups) && r.groups.Keys == Lasting(t, nowMs)
            && (forall m | m in r.groups :: r.groups[m] == SeenAt(t.groups[m], nowMs))
            && (forall o :: o in r.messages <==>
                  && o in t.messages
                  && (|| r.groups.Keys == t.groups.Keys || r.groups == map[]
                      || exists m :: m in r.groups && r.groups[m].watermark <= o))
            && (forall o | o in r.messages :: r.messages[o] == t.messages[o])
  {
    hide TopicInv, SweepIdleGroups, Reclaim, Lasting, SeenAt;
    var s := SweepIdleGroups(t, nowMs);
    IdleGroupsAre(t, nowMs);
    assert |s.groups| == |s.groups.Keys| && |t.groups| == |t.groups.Keys|;
    SubsetSize(s.groups.Keys, t.groups.Keys);
    FewGroups(t, leases);
    ReclaimIs(s);
  }

  lemma IdleGroupsAre(t: TopicState, nowMs: nat)
    ensures var s := SweepIdleGroups(t, nowMs);
            && s == t.(groups := s.groups) && s.groups.Keys == Lasting(t, nowMs) <= t.groups.Keys
            && forall m | m in s.groups :: s.groups[m] == SeenAt(t.groups[m], nowMs)
  {
    hide Survives, Active;
    forall m | m in t.groups ensures Active(t.groups[m], nowMs) <==> Survives(t.groups[m], nowMs) {
      ActiveSurvives(t.groups[m], nowMs);
    }
  }

  lemma FewGroups(t: TopicState, leases: nat)
    requires TopicInv(t, leases)
    ensures |t.groups| <= 1024
  {
  }

  // ---------------------------------------------------------------- polls and commits

  /** Exactly which groups there are after a poll, and when they were last active: those the sweep leaves, and the polling one
      if it is among them or they are fewer than a thousand. A poll of a group that is turned away answers nothing. */
  lemma GroupsAfterPoll(t: TopicState, group: Name, max: u32, visibilityMs: u64, tsMs: u64, leases: nat)
    requires TopicInv(t, leases) && leases <= MAX_COUNTER
    ensures var r := PollTopic(t, group, max, visibilityMs, tsMs, leases);
            var kept := Lasting(t, tsMs);
            && r.topic.groups.Keys == kept + (if |kept| < 1000 then {group} else {})
            && (forall m | m in kept && m != group :: r.topic.groups[m] == SeenAt(t.groups[m], tsMs))
            && (group in kept ==>
                  && r.topic.groups[group].lastActiveMs == Max(SeenAt(t.groups[group], tsMs).lastActiveMs, tsMs)
                  && r.topic.groups[group].pollCount == SatAdd(t.groups[group].pollCount, 1))
            && (group !in kept && |kept| < 1000 ==>
                  && r.topic.groups[group].lastActiveMs == tsMs && r.topic.groups[group].pollCount == 1
                  && r.topic.groups[group].watermark == Base(r.topic) && r.topic.groups[group].ackedAbove == {})
            && (group !in kept && |kept| >= 1000 ==> r.items == [])
  {
    hide TopicInv, Sweep, Chosen, IssueLeases, Deliveries, Active, GroupInv, Issued, Expire, Base;
    SweepIs(t, tsMs, leases);
    SweepFacts(t, tsMs, leases);
    var swept := Sweep(t, tsMs);
    assert |swept.groups| == |swept.groups.Keys|;
    if Admits(swept, group) {
      PolledFacts(swept, group, max, visibilityMs, tsMs, leases);
      IssuedRecord(TopicFacts.Polled(swept, group, max, visibilityMs, tsMs, leases), GroupEntry(swept, group, Some(tsMs)), tsMs,
                   Chosen(swept.messages, GroupEntry(swept, group, Some(tsMs)), max, tsMs), leases, DeadlineOf(tsMs, visibilityMs));
      SameBase(swept, PollTopic(t, group, max, visibilityMs, tsMs, leases).topic);
    }
  }

  lemma IssuedRecord(h: GroupState, entry: GroupState, tsMs: nat, chosen: seq<Selection.Item>, leases: nat, deadlineMs: nat)
    requires Issued(h, Refreshed(entry, tsMs), chosen, leases, deadlineMs)
    ensures h.lastActiveMs == Max(entry.lastActiveMs, tsMs) && h.pollCount == SatAdd(entry.pollCount, 1)
    ensures h.watermark == entry.watermark && h.ackedAbove == entry.ackedAbove
  {
  }

  lemma SameBase(t: TopicState, r: TopicState)
    requires r.messages == t.messages && r.nextOffset == t.nextOffset
    ensures Base(r) == Base(t)
  {
  }

  /** The topic a new group finds: the swept one, with a record for it that has nothing done and no poll counted. */
  function WithNewGroup(t: TopicState, group: Name, tsMs: nat): TopicState {
    Put(Sweep(t, tsMs), group, GroupState(Base(Sweep(t, tsMs)), {}, map[], map[], 0, tsMs))
  }

  lemma SweptTwice(t: TopicState, group: Name, tsMs: nat, leases: nat)
    requires TopicInv(t, leases) && group !in Lasting(t, tsMs)
    ensures var u := WithNewGroup(t, group, tsMs); group in u.groups && Active(u.groups[group], tsMs) && Sweep(u, tsMs) == u
  {
    SweepIs(t, tsMs, leases);
    var u := WithNewGroup(t, group, tsMs);
    forall m | m in u.groups ensures Active(u.groups[m], tsMs) && SeenAt(u.groups[m], tsMs) == u.groups[m] {
      if m != group {
        assert m in Lasting(t, tsMs);
      }
    }
    hide Sweep, TopicInv, Active;
    IdleGroupsAre(u, tsMs);
    assert SweepIdleGroups(u, tsMs).groups == u.groups;
    NothingSwept(u, tsMs);
  }

  lemma NothingSwept(u: TopicState, tsMs: nat)
    requires SweepIdleGroups(u, tsMs) == u
    ensures Sweep(u, tsMs) == u
  {
  }

  /** Exactly which messages the first poll of a group answers: as of any other, with all that the sweep leaves free. */
  lemma NewGroupAnswers(t: TopicState, group: Name, max: u32, visibilityMs: u64, tsMs: u64, leases: nat, o: nat)
    requires TopicInv(t, leases) && leases <= MAX_COUNTER && group !in Lasting(t, tsMs) && |Lasting(t, tsMs)| < 1000
    ensures group in WithNewGroup(t, group, tsMs).groups
    ensures HasItem(PollTopic(t, group, max, visibilityMs, tsMs, leases).items, o) <==>
            Takes(WithNewGroup(t, group, tsMs), group, max, tsMs, o)
    ensures forall p :: p in FreeAt(WithNewGroup(t, group, tsMs), group, tsMs) <==> p in Sweep(t, tsMs).messages
  {
    hide TopicInv, Sweep, Chosen, Refreshed, Active, Takes, Base, Lasting, GroupInv;
    var swept, u := Sweep(t, tsMs), WithNewGroup(t, group, tsMs);
    SweepIs(t, tsMs, leases);
    SweepFacts(t, tsMs, leases);
    SweptTwice(t, group, tsMs, leases);
    assert |swept.groups| == |swept.groups.Keys|;
    assert GroupEntry(swept, group, Some(tsMs)) == u.groups[group] == GroupEntry(u, group, Some(tsMs));
    EntryKeeps(swept, group, Some(tsMs), leases);
    PutKeeps(swept, group, u.groups[group], leases, leases);
    FreeFromBase(swept, u, group, tsMs, leases);
    ActiveSurvives(u.groups[group], tsMs);
    assert PollTopic(t, group, max, visibilityMs, tsMs, leases).items == PollTopic(u, group, max, visibilityMs, tsMs, leases).items;
    hide PollTopic;
    TopicAnswers(u, Lend(group, max, visibilityMs, tsMs), leases, group, o);
  }

  lemma FreeFromBase(swept: TopicState, u: TopicState, group: Name, tsMs: nat, leases: nat)
    requires TopicInv(swept, leases) && u.messages == swept.messages && group in u.groups
    requires u.groups[group] == GroupState(Base(swept), {}, map[], map[], 0, tsMs)
    ensures forall p :: p in FreeAt(u, group, tsMs) <==> p in swept.messages
  {
  }

  /** The groups of `s`, and the committing one if there is room for it, with the activity the commit gives it. */
  ghost predicate CommitLeaves(r: TopicState, s: TopicState, group: Name, nowMs: Option<nat>) {
    && r.groups.Keys == s.groups.Keys + (if |s.groups| < 1000 then {group} else {})
    && (forall m | m in s.groups && m != group :: r.groups[m] == s.groups[m])
    && (group in s.groups ==>
          && r.groups[group].pollCount == s.groups[group].pollCount
          && r.groups[group].lastActiveMs ==
             if nowMs.Some? then Max(s.groups[group].lastActiveMs, nowMs.value) else s.groups[group].lastActiveMs)
    && (group !in s.groups && |s.groups| < 1000 ==>
          && r.groups[group].pollCount == 0 && r.groups[group].lastActiveMs == if nowMs.Some? then nowMs.value else 0)
  }

  lemma CommitOn(s: TopicState, group: Name, to: nat, nowMs: Option<nat>)
    requires Admits(s, group)
    ensures var g := AdvanceWatermark(GroupEntry(s, group, nowMs), to);
            CommitLeaves(Put(s, group, if nowMs.Some? then g.(lastActiveMs := Max(g.lastActiveMs, nowMs.value)) else g), s, group, nowMs)
  {
    hide AdvanceWatermark, Base, Put;
    AdvancedRecord(GroupEntry(s, group, nowMs), to);
    var g := AdvanceWatermark(GroupEntry(s, group, nowMs), to);
    PutRecord(s, group, if nowMs.Some? then g.(lastActiveMs := Max(g.lastActiveMs, nowMs.value)) else g);
  }

  /** Exactly which groups there are after a commit, and when they were last active. A commit with a clock sweeps first. */
  lemma GroupsAfterCommit(t: TopicState, group: Name, offset: nat, nowMs: Option<nat>)
    ensures CommitLeaves(CommitTopic(t, group, offset, nowMs), if nowMs.Some? then Sweep(t, nowMs.value) else t, group, nowMs)
  {
    hide Sweep, AdvanceWatermark, GroupEntry, Put;
    var s := if nowMs.Some? then Sweep(t, nowMs.value) else t;
    if Admits(s, group) {
      hide CommitLeaves;
      CommitOn(s, group, Min(offset, s.nextOffset), nowMs);
    }
  }

  lemma PutRecord(t: TopicState, group: Name, g: GroupState)
    ensures Put(t, group, g).groups.Keys == t.groups.Keys + {group} && Put(t, group, g).groups[group] == g
    ensures forall m | m in t.groups && m != group :: Put(t, group, g).groups[m] == t.groups[m]
  {
  }

  lemma AdvancedRecord(g: GroupState, to: nat)
    ensures AdvanceWatermark(g, to).pollCount == g.pollCount && AdvanceWatermark(g, to).lastActiveMs == g.lastActiveMs
  {
    hide Slide;
  }

  // ---------------------------------------------------------------- after an acknowledgement

  /** The request acknowledges or commits on the topic, or is an auto-acknowledging poll of it. */
  predicate Finishing(r: Request, topic: Name) {
    (r.Ack? || r.AckMany? || r.PollAuto? || r.CommitOffset? || r.CommitOffsetAt?) && r.topic == topic
  }

  /** Messages do not outlive their use: after any request that can finish one, every message left in the topic is one that
      some group is not past. */
  lemma FinishedIsReclaimed(q: QueueState, r: Request, topic: Name, o: nat)
    requires Finishing(r, topic) && Apply(q, r).1 != Rejected
    requires var next := Apply(q, r).0;
             topic in next.topics && next.topics[topic].groups != map[] && o in next.topics[topic].messages
    ensures var t := Apply(q, r).0.topics[topic]; exists n :: n in t.groups && t.groups[n].watermark <= o
  {
    hide Items, PollTopic, AckAll, TopicStep, ConsumerOk, Reclaim;
    var before: QueueState :| Apply(q, r).0 == ReclaimIn(before, topic);
    ReclaimedTopic(before, topic, o);
  }

  lemma ReclaimedTopic(before: QueueState, topic: Name, o: nat)
    requires var next := ReclaimIn(before, topic);
             topic in next.topics && next.topics[topic].groups != map[] && o in next.topics[topic].messages
    ensures var t := ReclaimIn(before, topic).topics[topic]; exists n :: n in t.groups && t.groups[n].watermark <= o
  {
    hide Reclaim;
    var t := before.topics[topic];
    ReclaimIs(t);
    var n :| n in t.groups && t.groups[n].watermark <= o;
    assert n in Reclaim(t).groups;
  }
}
