/** The compiled-in limits: no run grows the queue past its number of topics or a topic past its number of groups. */
module Limits {
  import opened Collections
  import opened Model
  import opened Topics
  import opened TopicFacts
  import opened Queue

  ghost predicate GroupsCapped(q: QueueState) {
    forall n | n in q.topics :: |q.topics[n].groups| <= MAX_GROUPS_PER_TOPIC
  }

  ghost predicate Capped(q: QueueState) {
    |q.topics| <= MAX_TOPICS && GroupsCapped(q)
  }

  // ---------------------------------------------------------------- groups

  lemma PurgeGroups(t: TopicState, nowMs: nat)
    ensures PurgeRetained(t, nowMs).groups.Keys == t.groups.Keys
  {
    hide PurgeCount, DropOldest, PruneDedup;
  }

  lemma ProduceGroups(t: TopicState, item: ProduceItem)
    ensures ProduceTo(t, item).0.groups.Keys == t.groups.Keys
  {
    hide PurgeRetained, RememberKey;
    PurgeGroups(t, item.tsMs);
    PurgeGroups(Stored(t, item), item.tsMs);
  }

  lemma ReclaimGroups(t: TopicState)
    ensures Reclaim(t).groups.Keys <= t.groups.Keys
  {
  }

  lemma SweepGroups(t: TopicState, nowMs: nat)
    ensures Sweep(t, nowMs).groups.Keys <= t.groups.Keys
  {
    hide Reclaim;
    ReclaimGroups(SweepIdleGroups(t, nowMs));
  }

  /** Only an admitted group is added. */
  ghost predicate AddsAdmitted(before: map<Name, GroupState>, after: map<Name, GroupState>) {
    after.Keys <= before.Keys || (|after| <= MAX_GROUPS_PER_TOPIC)
  }

  lemma PollGroups(t: TopicState, group: Name, max: nat, visibilityMs: nat, tsMs: nat, lease: nat)
    ensures AddsAdmitted(t.groups, PollTopic(t, group, max, visibilityMs, tsMs, lease).topic.groups)
  {
    hide Sweep, Chosen, IssueLeases, Refreshed, Deliveries;
    SweepGroups(t, tsMs);
    var swept := Sweep(t, tsMs);
    if Admits(swept, group) {
      var g := PollTopic(t, group, max, visibilityMs, tsMs, lease).topic.groups[group];
      PutSize(swept.groups, group, g);
      assert PollTopic(t, group, max, visibilityMs, tsMs, lease).topic.groups == swept.groups[group := g];
    }
  }

  lemma CommitGroups(t: TopicState, group: Name, offset: nat, nowMs: Option<nat>)
    ensures AddsAdmitted(t.groups, CommitTopic(t, group, offset, nowMs).groups)
  {
    hide Sweep;
    var swept := if nowMs.Some? then Sweep(t, nowMs.value) else t;
    if nowMs.Some? {
      SweepGroups(t, nowMs.value);
    }
    if Admits(swept, group) {
      var g := CommitTopic(t, group, offset, nowMs).groups[group];
      PutSize(swept.groups, group, g);
      assert CommitTopic(t, group, offset, nowMs).groups == swept.groups[group := g];
    }
  }

  lemma TopicStepCapped(t: TopicState, op: Op, lease: nat)
    requires !op.Remove? && |t.groups| <= MAX_GROUPS_PER_TOPIC
    ensures |TopicStep(t, op, lease).0.groups| <= MAX_GROUPS_PER_TOPIC
  {
    hide ProduceTo, PollTopic, CommitTopic, Reclaim;
    var r := TopicStep(t, op, lease).0;
    match op {
      case StoreItem(item) => ProduceGroups(t, item);
      case Lend(group, max, visibilityMs, tsMs) => PollGroups(t, group, max, visibilityMs, tsMs, lease);
      case Advance(group, offset, nowMs) => CommitGroups(t, group, offset, nowMs);
      case DropDone => ReclaimGroups(t);
      case _ =>
    }
    if r.groups.Keys <= t.groups.Keys {
      MapSize(r.groups, t.groups);
    }
  }

  lemma StepGroupsCapped(q: QueueState, call: Call)
    requires GroupsCapped(q)
    ensures GroupsCapped(Step(q, call))
  {
    hide TopicStep;
    if !call.op.Remove? {
      TopicStepCapped(TopicOr(q, call.topic), call.op, q.nextLeaseId);
    }
  }

  lemma {:induction false} StepsGroupsCapped(q: QueueState, calls: seq<Call>)
    requires GroupsCapped(q)
    ensures GroupsCapped(Steps(q, calls))
    decreases |calls|
  {
    hide GroupsCapped, Step;
    if calls != [] {
      StepGroupsCapped(q, calls[0]);
      StepsGroupsCapped(Step(q, calls[0]), calls[1..]);
    }
  }

  // ---------------------------------------------------------------- topics

  /** The topics a script may create. */
  function CreatedBy(calls: seq<Call>): set<Name> {
    set i | 0 <= i < |calls| && Creates(calls[i].op) :: calls[i].topic
  }

  lemma CreatedFirst(calls: seq<Call>)
    requires calls != []
    ensures CreatedBy(calls) == (if Creates(calls[0].op) then {calls[0].topic} else {}) + CreatedBy(calls[1..])
  {
    forall n | n in CreatedBy(calls[1..]) ensures n in CreatedBy(calls) {
      var i :| 0 <= i < |calls[1..]| && Creates(calls[1..][i].op) && calls[1..][i].topic == n;
      assert calls[i + 1].topic == n;
    }
    if Creates(calls[0].op) {
      assert calls[0].topic in CreatedBy(calls);
    }
    forall n | n in CreatedBy(calls) ensures n in CreatedBy(calls[1..]) || (Creates(calls[0].op) && n == calls[0].topic) {
      var i :| 0 <= i < |calls| && Creates(calls[i].op) && calls[i].topic == n;
      assert i > 0 ==> calls[1..][i - 1] == calls[i];
    }
  }

  lemma {:induction false} StepsTopics(q: QueueState, calls: seq<Call>)
    ensures Steps(q, calls).topics.Keys <= q.topics.Keys + CreatedBy(calls)
    decreases |calls|
  {
    hide TopicStep, CreatedBy;
    if calls != [] {
      CreatedFirst(calls);
      StepsTopics(Step(q, calls[0]), calls[1..]);
    }
  }

  lemma {:induction false} StoresCreate(items: seq<ProduceItem>, n: Name)
    ensures n in CreatedBy(Stores(items)) ==> exists i :: 0 <= i < |items| && items[i].topic == n
    decreases |items|
  {
    hide CreatedBy;
    if items != [] {
      var calls := Stores(items);
      assert calls[1..] == Stores(items[1..]);
      CreatedFirst(calls);
      StoresCreate(items[1..], n);
      if n in CreatedBy(calls[1..]) {
        var i :| 0 <= i < |items[1..]| && items[1..][i].topic == n;
        assert items[i + 1].topic == n;
      } else if n in CreatedBy(calls) {
        assert items[0].topic == n;
      }
    } else {
      assert CreatedBy([]) == {} by { NoneCreated([]); }
    }
  }

  lemma NoneCreated(calls: seq<Call>)
    requires forall c | c in calls :: !Creates(c.op)
    ensures CreatedBy(calls) == {}
  {
  }

  lemma OneCreated(topic: Name, op: Op)
    ensures CreatedBy([Call(topic, op)]) <= {topic}
  {
  }

  /** What a request's script may create beyond what exists fits under the limit. */
  lemma ScriptFitsLimit(q: QueueState, r: Request)
    requires |q.topics| <= MAX_TOPICS
    ensures |q.topics.Keys + CreatedBy(Script(q, r))| <= MAX_TOPICS
  {
    hide CreatedBy, ProduceAllowed, NameOk, ConsumerOk, TopicAdmits, Items;
    var calls := Script(q, r);
    match r {
      case Produce(item) =>
        assert Stores([item]) == [Call(item.topic, StoreItem(item))] by { OneStore(item); }
        ProduceFits(q, [item], calls);
      case ProduceMany(items) => ProduceFits(q, items, calls);
      case CreateTopic(topic) => SingleFits(q, topic, calls);
      case SetRateLimit(topic, _, _) => SingleFits(q, topic, calls);
      case SetRetention(topic, _, _) => SingleFits(q, topic, calls);
      case _ =>
        ScriptCreatesNone(q, r);
        assert q.topics.Keys + {} == q.topics.Keys && |q.topics| == |q.topics.Keys|;
    }
  }

  lemma SingleFits(q: QueueState, topic: Name, calls: seq<Call>)
    requires |q.topics| <= MAX_TOPICS
    requires calls == [] || (|calls| == 1 && calls[0].topic == topic && TopicAdmits(q, topic))
    ensures |q.topics.Keys + CreatedBy(calls)| <= MAX_TOPICS
  {
    assert |q.topics| == |q.topics.Keys|;
    if calls == [] {
      NoneCreated(calls);
      assert q.topics.Keys + CreatedBy(calls) == q.topics.Keys;
    } else {
      assert calls == [Call(topic, calls[0].op)];
      OneCreated(topic, calls[0].op);
      SubsetSize(q.topics.Keys + CreatedBy(calls), q.topics.Keys + {topic});
      assert topic in q.topics ==> q.topics.Keys + {topic} == q.topics.Keys;
    }
  }

  lemma ProduceFits(q: QueueState, items: seq<ProduceItem>, calls: seq<Call>)
    requires |q.topics| <= MAX_TOPICS
    requires calls == if ProduceAllowed(q, items) then Stores(items) else []
    ensures |q.topics.Keys + CreatedBy(calls)| <= MAX_TOPICS
  {
    hide CreatedBy;
    assert |q.topics| == |q.topics.Keys|;
    if ProduceAllowed(q, items) {
      forall n | n in CreatedBy(calls) ensures n in q.topics.Keys + NewTopics(q, items) {
        StoresCreate(items, n);
        var i :| 0 <= i < |items| && items[i].topic == n;
        assert n !in q.topics ==> n in NewTopics(q, items);
      }
      SubsetSize(q.topics.Keys + CreatedBy(calls), q.topics.Keys + NewTopics(q, items));
    } else {
      NoneCreated([]);
      assert q.topics.Keys + CreatedBy(calls) == q.topics.Keys;
    }
  }

  lemma {:induction false} SettlesCreateNone(topic: Name, group: Name, ids: seq<nat>)
    ensures forall c | c in Settles(topic, group, ids) :: !Creates(c.op)
    ensures forall c | c in Releases(topic, group, ids) :: !Creates(c.op)
    decreases |ids|
  {
    if ids != [] {
      SettlesCreateNone(topic, group, ids[1..]);
    }
  }

  lemma ScriptCreatesNone(q: QueueState, r: Request)
    requires !r.Produce? && !r.ProduceMany? && !r.CreateTopic? && !r.SetRateLimit? && !r.SetRetention?
    ensures CreatedBy(Script(q, r)) == {}
  {
    hide Items;
    match r {
      case PollAuto(topic, group, max, visibilityMs, tsMs) =>
        SettlesCreateNone(topic, group, LeaseIds(Items(q, topic, group, max, visibilityMs, tsMs)));
      case AckMany(topic, group, leaseIds) => SettlesCreateNone(topic, group, leaseIds);
      case NackMany(topic, group, leaseIds) => SettlesCreateNone(topic, group, leaseIds);
      case _ =>
    }
    NoneCreated(Script(q, r));
  }

  lemma ApplyStaysCapped(q: QueueState, r: Request)
    requires Capped(q)
    ensures Capped(Apply(q, r).0)
  {
    hide Apply, Script, GroupsCapped;
    var calls := Script(q, r);
    ScriptIsApply(q, r);
    StepsGroupsCapped(q, calls);
    StepsTopics(q, calls);
    ScriptFitsLimit(q, r);
    SubsetSize(Steps(q, calls).topics.Keys, q.topics.Keys + CreatedBy(calls));
    assert |Steps(q, calls).topics| == |Steps(q, calls).topics.Keys|;
  }

  /** Every run from a queue within the limits stays within them, whatever is asked of it. */
  lemma {:induction false} RunStaysCapped(q: QueueState, requests: seq<Request>)
    requires Capped(q)
    ensures Capped(Run(q, requests))
    decreases |requests|
  {
    hide Capped, Apply;
    if requests != [] {
      ApplyStaysCapped(q, requests[0]);
      RunStaysCapped(Apply(q, requests[0]).0, requests[1..]);
    }
  }
}
