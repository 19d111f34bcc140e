/** Runs as sequences of topic operations, and the facts that hold over all of them. */
module Runs {
  import opened Collections
  import opened Model
  import opened Topics
  import opened TopicFacts
  import opened Queue
  import opened Invariant

  /** The operations a run of requests performs. */
  function RunCalls(q: QueueState, requests: seq<Request>): seq<Call>
    decreases |requests|
  {
    if requests == [] then []
    else Script(q, requests[0]) + RunCalls(Apply(q, requests[0]).0, requests[1..])
  }

  lemma {:induction false} RunIsSteps(q: QueueState, requests: seq<Request>)
    ensures Steps(q, RunCalls(q, requests)) == Run(q, requests)
    decreases |requests|
  {
    hide Apply, Script, Step;
    if requests != [] {
      ScriptIsApply(q, requests[0]);
      var rest := RunCalls(Apply(q, requests[0]).0, requests[1..]);
      StepsAppend(q, Script(q, requests[0]), rest);
      RunIsSteps(Apply(q, requests[0]).0, requests[1..]);
    }
  }

  lemma {:induction false} FitsAppend(q: QueueState, a: seq<Call>, b: seq<Call>)
    requires Fits(q, a) && Fits(Steps(q, a), b)
    ensures Fits(q, a + b)
    decreases |a|
  {
    if a == [] {
      assert a + b == b;
    } else {
      assert (a + b)[1..] == a[1..] + b;
      FitsAppend(Step(q, a[0]), a[1..], b);
    }
  }

  lemma CountersGiveHeadroom(q: QueueState)
    requires CountersBelow(q)
    ensures Headroom(q)
  {
  }

  /** A run below the ceiling performs only operations with headroom. */
  lemma {:induction false} RunFits(q: QueueState, requests: seq<Request>)
    requires BelowCeiling(q, requests)
    ensures Fits(q, RunCalls(q, requests))
    decreases |requests|
  {
    hide Apply, Script, Step, CountersBelow, Headroom;
    CountersGiveHeadroom(q);
    if requests != [] {
      var mid := Apply(q, requests[0]).0;
      assert BelowCeiling(mid, requests[1..]);
      CountersGiveHeadroom(mid);
      ScriptFits(q, requests[0]);
      ScriptIsApply(q, requests[0]);
      RunFits(mid, requests[1..]);
      FitsAppend(q, Script(q, requests[0]), RunCalls(mid, requests[1..]));
    }
  }

  // ---------------------------------------------------------------- requests and their operations

  /** The operation comes from the request, with the request's own arguments. */
  ghost predicate CallOf(r: Request, c: Call) {
    match c.op
    case StoreItem(item) =>
      c.topic == item.topic && ((r.Produce? && item == r.item) || (r.ProduceMany? && item in r.items))
    case Lend(group, max, visibilityMs, tsMs) =>
      r == Poll(c.topic, group, max, visibilityMs, tsMs) || r == PollAuto(c.topic, group, max, visibilityMs, tsMs)
    case Settle(group, leaseId) =>
      || r == Ack(c.topic, group, leaseId)
      || (r.AckMany? && r.topic == c.topic && r.group == group && leaseId in r.leaseIds)
      || (r.PollAuto? && r.topic == c.topic && r.group == group)
    case Release(group, leaseId) =>
      r == Nack(c.topic, group, leaseId)
      || (r.NackMany? && r.topic == c.topic && r.group == group && leaseId in r.leaseIds)
    case Advance(group, offset, nowMs) =>
      || (nowMs == None && r == CommitOffset(c.topic, group, offset))
      || (r.CommitOffsetAt? && r.topic == c.topic && r.group == group && r.offset == offset && nowMs == Some(r.tsMs))
    case DropDone =>
      (r.Ack? || r.AckMany? || r.PollAuto? || r.CommitOffset? || r.CommitOffsetAt?) && r.topic == c.topic
    case Ensure => r == CreateTopic(c.topic)
    case Remove => r == DeleteTopic(c.topic)
    case LimitRate(rate, burst) => r == SetRateLimit(c.topic, rate, burst)
    case LimitRetention(count, age) => r == SetRetention(c.topic, count, age)
  }

  lemma ScriptCallOf(q: QueueState, r: Request, c: Call)
    requires c in Script(q, r)
    ensures CallOf(r, c)
  {
    hide ProduceAllowed, ConsumerOk, NameOk, TopicAdmits, Items, Settles, Releases, Stores, LeaseIds;
    match r
    case ProduceMany(items) => StoresCalls(items);
    case AckMany(topic, group, leaseIds) =>
      SettlesCalls(topic, group, leaseIds);
      if c !in Settles(topic, group, leaseIds) { assert c == Call(topic, DropDone); }
    case NackMany(topic, group, leaseIds) => ReleasesCalls(topic, group, leaseIds);
    case PollAuto(topic, group, max, visibilityMs, tsMs) =>
      var ids := LeaseIds(Items(q, topic, group, max, visibilityMs, tsMs));
      SettlesCalls(topic, group, ids);
      if c !in Settles(topic, group, ids) {
        assert c == Call(topic, DropDone) || c == Call(topic, Lend(group, max, visibilityMs, tsMs));
      }
    case _ =>
  }

  /** Every operation of a run comes from one of its requests. */
  lemma {:induction false} RunCallsComeFrom(q: QueueState, requests: seq<Request>, c: Call)
    requires c in RunCalls(q, requests)
    ensures exists r :: r in requests && CallOf(r, c)
    decreases |requests|
  {
    hide CallOf, Apply, Script;
    if c in Script(q, requests[0]) {
      ScriptCallOf(q, requests[0], c);
      assert requests[0] in requests;
    } else {
      RunCallsComeFrom(Apply(q, requests[0]).0, requests[1..], c);
      var r :| r in requests[1..] && CallOf(r, c);
      assert r in requests;
    }
  }

  // ---------------------------------------------------------------- lease ids

  /** The lease ids a run hands out, in order. */
  function HandedOut(q: QueueState, requests: seq<Request>): seq<nat>
    decreases |requests|
  {
    if requests == [] then [] else
      var (q', response) := Apply(q, requests[0]);
      (if response.Polled? then LeaseIds(response.items) else []) + HandedOut(q', requests[1..])
  }

  lemma LeasesOfPoll(t: TopicState, group: Name, max: u32, visibilityMs: nat, tsMs: nat, nextLease: nat)
    requires TopicInv(t, nextLease) && nextLease <= MAX_COUNTER
    ensures var r := PollTopic(t, group, max, visibilityMs, tsMs, nextLease);
            && r.nextLease == nextLease + |r.items|
            && forall i | 0 <= i < |r.items| :: r.items[i].leaseId == nextLease + i
  {
    hide TopicInv, Sweep, Chosen, Refreshed, IssueLeases;
    PollKeeps(t, group, max, visibilityMs, tsMs, nextLease);
    SweepFacts(t, tsMs, nextLease);
    var swept := Sweep(t, tsMs);
    if Admits(swept, group) {
      PollAdmitted(swept, group, max, visibilityMs, tsMs, nextLease);
      var chosen := Chosen(swept.messages, GroupEntry(swept, group, Some(tsMs)), max, tsMs);
      forall i | 0 <= i < |chosen| ensures Deliveries(swept.messages, chosen, nextLease)[i].leaseId == nextLease + i {
        DeliveriesFacts(swept.messages, chosen, nextLease, i);
      }
    }
  }

  /** A response's leases are the ones the request took from the counter. */
  lemma ResponseLeases(q: QueueState, r: Request)
    requires QueueInv(q) && Headroom(q) && Headroom(Apply(q, r).0) && Apply(q, r).1.Polled?
    ensures var ids := LeaseIds(Apply(q, r).1.items);
            && (forall i | 0 <= i < |ids| :: ids[i] == q.nextLeaseId + i)
            && q.nextLeaseId + |ids| <= Apply(q, r).0.nextLeaseId
  {
    hide TopicInv, PollTopic, AckAll;
    var lend := Call(r.topic, Lend(r.group, r.max, r.visibilityMs, r.tsMs));
    if r.topic in q.topics {
      LeasesOfPoll(q.topics[r.topic], r.group, r.max, r.visibilityMs, r.tsMs, q.nextLeaseId);
    }
    if r.PollAuto? {
      ScriptFits(q, r);
      hide *;
      AutoLeases(q, r, lend);
    }
  }

  lemma AutoLeases(q: QueueState, r: Request, lend: Call)
    requires r.PollAuto? && ConsumerOk(r.topic, r.group) && QueueInv(q)
    requires lend == Call(r.topic, Lend(r.group, r.max, r.visibilityMs, r.tsMs))
    requires Fits(q, Script(q, r))
    ensures Step(q, lend).nextLeaseId <= Apply(q, r).0.nextLeaseId
  {
    ScriptIsApply(q, r);
    var script := Script(q, r);
    assert script[0] == lend;
    StepKeeps(q, lend);
    assert Fits(Step(q, lend), script[1..]);
    StepsKeep(Step(q, lend), script[1..]);
  }

  lemma IncreasingJoin(a: seq<nat>, b: seq<nat>, lo: nat, mid: nat, hi: nat)
    requires lo <= mid <= hi && lo + |a| <= mid
    requires forall i | 0 <= i < |a| :: a[i] == lo + i
    requires Increasing(b) && forall l | l in b :: mid <= l < hi
    ensures Increasing(a + b) && forall l | l in a + b :: lo <= l < hi
  {
    forall i | 0 <= i < |b| ensures mid <= b[i] { assert b[i] in b; }
  }

  /** Lease ids never repeat: a run hands them out in strictly increasing order, from the counter up. */
  lemma {:induction false} LeaseIdsNeverRepeat(q: QueueState, requests: seq<Request>)
    requires QueueInv(q) && BelowCeiling(q, requests)
    ensures Increasing(HandedOut(q, requests))
    ensures forall l | l in HandedOut(q, requests) :: q.nextLeaseId <= l < Run(q, requests).nextLeaseId
    decreases |requests|
  {
    hide QueueInv, Apply, CountersBelow, LeaseIds, Increasing;
    if requests == [] {
      IncreasingJoin([], [], 0, 0, 0);
      assert [] + [] == HandedOut(q, requests);
    } else {
      var r := requests[0];
      var q' := Apply(q, r).0;
      assert BelowCeiling(q', requests[1..]);
      CountersGiveHeadroom(q);
      CountersGiveHeadroom(q');
      ApplyKeeps(q, r);
      RunKeeps(q', requests[1..]);
      LeaseIdsNeverRepeat(q', requests[1..]);
      var ids := if Apply(q, r).1.Polled? then LeaseIds(Apply(q, r).1.items) else [];
      if Apply(q, r).1.Polled? {
        ResponseLeases(q, r);
      }
      IncreasingJoin(ids, HandedOut(q', requests[1..]), q.nextLeaseId, q'.nextLeaseId, Run(q, requests).nextLeaseId);
    }
  }
}
