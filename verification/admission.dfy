/** Which requests are refused, which topics there are, and what their settings are. */
module Admission {
  import opened Collections
  import opened Model
  import opened Groups
  import opened Topics
  import opened Queue
  import opened Runs

  // ---------------------------------------------------------------- refusals

  /** The request's names are too long, or it would need more topics than there may be. */
  ghost predicate Refused(q: QueueState, r: Request) {
    match r
    case Produce(item) =>
      || |item.topic| > 256 || |item.producerId| > 256
      || |q.topics| + (if item.topic in q.topics then 0 else 1) > 10_000
    case ProduceMany(items) =>
      || (exists item :: item in items && (|item.topic| > 256 || |item.producerId| > 256))
      || |q.topics| + |set item | item in items && item.topic !in q.topics :: item.topic| > 10_000
    case Poll(topic, group, _, _, _) => |topic| > 256 || |group| > 256
    case PollAuto(topic, group, _, _, _) => |topic| > 256 || |group| > 256
    case CommitOffset(topic, group, _) => |topic| > 256 || |group| > 256
    case CommitOffsetAt(topic, group, _, _) => |topic| > 256 || |group| > 256
    case CreateTopic(topic) => |topic| > 256 || (topic !in q.topics && |q.topics| >= 10_000)
    case SetRateLimit(topic, _, _) => |topic| > 256 || (topic !in q.topics && |q.topics| >= 10_000)
    case SetRetention(topic, _, _) => |topic| > 256 || (topic !in q.topics && |q.topics| >= 10_000)
    case _ => false
  }

  lemma AllowedIff(q: QueueState, items: seq<ProduceItem>)
    ensures ProduceAllowed(q, items) <==>
            && (forall item | item in items :: |item.topic| <= 256 && |item.producerId| <= 256)
            && |q.topics| + |set item | item in items && item.topic !in q.topics :: item.topic| <= 10_000
  {
    var created := set item | item in items && item.topic !in q.topics :: item.topic;
    forall n ensures n in NewTopics(q, items) <==> n in created {
      if n in created {
        var item :| item in items && item.topic !in q.topics && item.topic == n;
        var i :| 0 <= i < |items| && items[i] == item;
      }
    }
    assert NewTopics(q, items) == created;
  }

  /** Exactly which requests are refused; and a refused request changes nothing. */
  lemma RefusedIff(q: QueueState, r: Request)
    ensures Apply(q, r).1 == Rejected <==> Refused(q, r)
    ensures Refused(q, r) ==> Apply(q, r).0 == q
  {
    hide ProduceTo, PollTopic, AckAll, NackAll, ProduceAll, Step, Items;
    match r
    case Produce(item) =>
      AllowedIff(q, [item]);
      OneNew(q, item);
      hide ProduceAllowed;
    case ProduceMany(items) =>
      AllowedIff(q, items);
      hide ProduceAllowed;
    case _ =>
  }

  /** The kind of answer each request gets when it is not refused. */
  lemma AnsweredAs(q: QueueState, r: Request)
    requires !Refused(q, r)
    ensures var response := Apply(q, r).1;
            && (r.Produce? <==> response.Produced?) && (r.ProduceMany? <==> response.ProducedMany?)
            && (r.Poll? || r.PollAuto? <==> response.Polled?) && (r.Ack? || r.AckMany? <==> response.Acked?)
            && (r.Nack? || r.NackMany? <==> response.Nacked?) && (r.CommitOffset? || r.CommitOffsetAt? <==> response.Committed?)
            && (r.CreateTopic? <==> response.TopicCreated?) && (r.DeleteTopic? <==> response.TopicDeleted?)
            && (r.SetRateLimit? <==> response.RateLimitSet?) && (r.SetRetention? <==> response.RetentionSet?)
    ensures r.ProduceMany? ==> |Apply(q, r).1.offsets| == |r.items|
  {
    RefusedIff(q, r);
    hide Refused, ProduceTo, PollTopic, AckAll, NackAll, Step, Items, ProduceAllowed, ConsumerOk, NameOk, TopicAdmits;
    if r.ProduceMany? {
      OffsetsAnswered(q, r.items);
    }
  }

  lemma {:induction false} OffsetsAnswered(q: QueueState, items: seq<ProduceItem>)
    ensures |ProduceAll(q, items).1| == |items|
    decreases |items|
  {
    hide ProduceTo, Step;
    if items != [] {
      OffsetsAnswered(Step(q, Call(items[0].topic, StoreItem(items[0]))), items[1..]);
    }
  }

  lemma OneNew(q: QueueState, item: ProduceItem)
    ensures (set x | x in [item] && x.topic !in q.topics :: x.topic) == if item.topic in q.topics then {} else {item.topic}
  {
    assert item in [item];
  }

  // ---------------------------------------------------------------- topics and their settings

  datatype Settings = Settings(rateMilliPerSec: nat, burst: nat, maxMessages: nat, maxAgeMs: nat)

  const UNSET := Settings(0, 0, 0, 0)

  function SettingsIn(t: TopicState): Settings {
    Settings(t.rateMilliPerSec, t.burst, t.retainMaxMessages, t.retainMaxAgeMs)
  }

  /** The topic's settings, if there is such a topic. */
  function SettingsOf(q: QueueState, topic: Name): Option<Settings> {
    if topic in q.topics then Some(SettingsIn(q.topics[topic])) else None
  }

  /** The request makes the topic if there is none. */
  predicate Opens(r: Request, topic: Name) {
    match r
    case Produce(item) => item.topic == topic
    case ProduceMany(items) => exists item :: item in items && item.topic == topic
    case CreateTopic(name) => name == topic
    case _ => false
  }

  /** What a request that is not refused makes of a topic's settings. */
  function SettingsAfter(s: Option<Settings>, r: Request, topic: Name): Option<Settings> {
    var before := if s.Some? then s.value else UNSET;
    match r
    case DeleteTopic(name) => if name == topic then None else s
    case SetRateLimit(name, rate, burst) => if name == topic then Some(before.(rateMilliPerSec := rate, burst := burst)) else s
    case SetRetention(name, count, age) => if name == topic then Some(before.(maxMessages := count, maxAgeMs := age)) else s
    case _ => if Opens(r, topic) then Some(before) else s
  }

  /** Operations other than the two that set something leave the settings alone. */
  lemma OpKeepsSettings(t: TopicState, op: Op, leases: nat)
    requires !op.Remove? && !op.LimitRate? && !op.LimitRetention?
    ensures SettingsIn(TopicStep(t, op, leases).0) == SettingsIn(t)
  {
    hide PurgeCount, DropOldest, RaiseGroups, PruneDedup, RememberKey, Chosen, Refreshed, IssueLeases, Deliveries, SweepIdleGroups,
      AdvanceWatermark, AckLease, Unlease, Watermarks, MessagesFrom, GroupEntry;
    match op
    case Lend(group, max, visibilityMs, tsMs) => SweepKeepsSettings(t, tsMs);
    case Advance(group, offset, nowMs) => if nowMs.Some? { SweepKeepsSettings(t, nowMs.value); }
    case DropDone => ReclaimKeepsSettings(t);
    case _ =>
  }

  lemma ReclaimKeepsSettings(t: TopicState)
    ensures SettingsIn(Reclaim(t)) == SettingsIn(t)
  {
  }

  lemma SweepKeepsSettings(t: TopicState, nowMs: nat)
    ensures SettingsIn(Sweep(t, nowMs)) == SettingsIn(t)
  {
    hide Reclaim;
    ReclaimKeepsSettings(SweepIdleGroups(t, nowMs));
  }

  /** The operation makes its topic if there is none, and sets nothing. */
  lemma SettingsStep(q: QueueState, c: Call, topic: Name)
    requires !c.op.Remove? && !c.op.LimitRate? && !c.op.LimitRetention?
    ensures SettingsOf(Step(q, c), topic) ==
            if c.topic == topic && Creates(c.op) && topic !in q.topics then Some(UNSET) else SettingsOf(q, topic)
  {
    hide TopicStep;
    OpKeepsSettings(TopicOr(q, c.topic), c.op, q.nextLeaseId);
  }

  lemma {:induction false} SettingsSteps(q: QueueState, calls: seq<Call>, topic: Name)
    requires forall c | c in calls :: !c.op.Remove? && !c.op.LimitRate? && !c.op.LimitRetention?
    ensures SettingsOf(Steps(q, calls), topic) ==
            if topic !in q.topics && (exists c :: c in calls && c.topic == topic && Creates(c.op)) then Some(UNSET)
            else SettingsOf(q, topic)
    decreases |calls|
  {
    hide Step, Creates, SettingsIn;
    if calls != [] {
      assert calls[0] in calls;
      SettingsStep(q, calls[0], topic);
      SettingsSteps(Step(q, calls[0]), calls[1..], topic);
      assert calls == [calls[0]] + calls[1..];
    }
  }

  lemma {:induction false} StoresOpen(items: seq<ProduceItem>, topic: Name)
    ensures forall c | c in Stores(items) :: c.op.StoreItem?
    ensures (exists c :: c in Stores(items) && c.topic == topic) <==> exists item :: item in items && item.topic == topic
    decreases |items|
  {
    if items != [] {
      StoresOpen(items[1..], topic);
      var first := Call(items[0].topic, StoreItem(items[0]));
      assert Stores(items) == [first] + Stores(items[1..]) && items == [items[0]] + items[1..];
      assert first in Stores(items) && items[0] in items;
    }
  }

  lemma QuietScript(q: QueueState, r: Request, topic: Name)
    requires !r.DeleteTopic? && !r.SetRateLimit? && !r.SetRetention? && !r.Produce? && !r.ProduceMany? && !r.CreateTopic?
    ensures forall c | c in Script(q, r) :: !c.op.Remove? && !Creates(c.op)
  {
    hide Script;
    forall c | c in Script(q, r) ensures !c.op.Remove? && !Creates(c.op) {
      ScriptCallOf(q, r, c);
    }
  }

  lemma SettingSettings(q: QueueState, r: Request, topic: Name)
    requires r.DeleteTopic? || r.SetRateLimit? || r.SetRetention?
    ensures SettingsOf(Apply(q, r).0, topic) ==
            if Apply(q, r).1 == Rejected then SettingsOf(q, topic) else SettingsAfter(SettingsOf(q, topic), r, topic)
  {
    hide NameOk, TopicAdmits;
  }

  /** What any request makes of any topic's settings, and of there being such a topic. */
  lemma RequestSettings(q: QueueState, r: Request, topic: Name)
    ensures SettingsOf(Apply(q, r).0, topic) ==
            if Apply(q, r).1 == Rejected then SettingsOf(q, topic) else SettingsAfter(SettingsOf(q, topic), r, topic)
  {
    hide ProduceTo, PollTopic, AckAll, NackAll, ProduceAll, Items, ProduceAllowed, ConsumerOk, NameOk, TopicAdmits, Settles, Releases,
      Stores, LeaseIds;
    ScriptIsApply(q, r);
    match r
    case DeleteTopic(_) => hide Step, Apply, SettingsAfter; SettingSettings(q, r, topic);
    case SetRateLimit(_, _, _) => hide Step, Apply, SettingsAfter; SettingSettings(q, r, topic);
    case SetRetention(_, _, _) => hide Step, Apply, SettingsAfter; SettingSettings(q, r, topic);
    case CreateTopic(name) => hide Step, Steps; if NameOk(name) && TopicAdmits(q, name) { SettingsStep(q, Call(name, Ensure), topic); }
    case Produce(item) =>
      hide Step, Steps;
      if ProduceAllowed(q, [item]) { SettingsStep(q, Call(item.topic, StoreItem(item)), topic); }
    case ProduceMany(items) =>
      hide Step, Steps;
      if ProduceAllowed(q, items) {
        StoresOpen(items, topic);
        SettingsSteps(q, Stores(items), topic);
      }
    case _ =>
      hide Step, Steps, Script, Apply, Creates;
      QuietScript(q, r, topic);
      SettingsSteps(q, Script(q, r), topic);
  }

  /** The settings the requests of a run that are not refused leave, one after the other. */
  function LastSettings(q: QueueState, s: Option<Settings>, requests: seq<Request>, topic: Name): Option<Settings>
    decreases |requests|
  {
    if requests == [] then s
    else
      var (next, response) := Apply(q, requests[0]);
      LastSettings(next, if response == Rejected then s else SettingsAfter(s, requests[0], topic), requests[1..], topic)
  }

  /** Over every run: there is a topic exactly if one was there or was made since it was last deleted, and its rate limit and
      retention are the last ones set since then. */
  lemma {:induction false} SettingsAreLast(q: QueueState, requests: seq<Request>, topic: Name)
    ensures SettingsOf(Run(q, requests), topic) == LastSettings(q, SettingsOf(q, topic), requests, topic)
    decreases |requests|
  {
    hide Apply, SettingsOf, SettingsAfter;
    if requests != [] {
      RequestSettings(q, requests[0], topic);
      SettingsAreLast(Apply(q, requests[0]).0, requests[1..], topic);
    }
  }

  /** `Queue::rate_config`: a topic without a rate is not limited. */
  function RateConfig(q: QueueState, topic: Name): Option<(nat, nat)> {
    if topic in q.topics && q.topics[topic].rateMilliPerSec > 0
    then Some((q.topics[topic].rateMilliPerSec, q.topics[topic].burst))
    else None
  }

  /** So a limit that was set is the one in force, until it is set again or the topic is deleted. */
  lemma LimitInForce(q: QueueState, topic: Name, rate: nat, burst: nat, later: seq<Request>)
    requires rate > 0 && Apply(q, SetRateLimit(topic, rate, burst)).1 != Rejected
    requires DeleteTopic(topic) !in later && forall r | r in later && r.SetRateLimit? :: r.topic != topic
    ensures RateConfig(Run(Apply(q, SetRateLimit(topic, rate, burst)).0, later), topic) == Some((rate, burst))
  {
    hide Apply, Run;
    var next := Apply(q, SetRateLimit(topic, rate, burst)).0;
    RequestSettings(q, SetRateLimit(topic, rate, burst), topic);
    SettingsAreLast(next, later, topic);
    LimitStays(next, SettingsOf(next, topic), later, topic, rate, burst);
  }

  lemma {:induction false} LimitStays(q: QueueState, s: Option<Settings>, later: seq<Request>, topic: Name, rate: nat, burst: nat)
    requires s.Some? && s.value.rateMilliPerSec == rate && s.value.burst == burst
    requires DeleteTopic(topic) !in later && forall r | r in later && r.SetRateLimit? :: r.topic != topic
    ensures var last := LastSettings(q, s, later, topic);
            last.Some? && last.value.rateMilliPerSec == rate && last.value.burst == burst
    decreases |later|
  {
    hide Apply, Opens;
    if later != [] {
      assert later[0] in later;
      var (next, response) := Apply(q, later[0]);
      LimitStays(next, if response == Rejected then s else SettingsAfter(s, later[0], topic), later[1..], topic, rate, burst);
    }
  }
}
