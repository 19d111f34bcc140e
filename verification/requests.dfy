/** The theorems over runs, stated for sequences of requests and their answers. */
module Requests {
  import opened Collections
  import opened Model
  import opened Topics
  import opened TopicFacts
  import opened Queue
  import opened Invariant
  import opened Runs
  import opened Delivery
  import opened Selection
  import opened Fairness
  import opened Consumers
  import opened Idempotence

  // ---------------------------------------------------------------- conservation

  /** In every state a run reaches from the empty queue, a topic retains exactly the offsets from its base to its next one,
      every group lies between the two, and each offset above a group's watermark is acknowledged, in flight or
      undelivered, and only one of them. */
  lemma EveryRunConserves(requests: seq<Request>, topic: Name, n: Name)
    requires BelowCeiling(EMPTY_QUEUE, requests)
    requires topic in Run(EMPTY_QUEUE, requests).topics && n in Run(EMPTY_QUEUE, requests).topics[topic].groups
    ensures var t := Run(EMPTY_QUEUE, requests).topics[topic];
            var g := t.groups[n];
            && (forall o: nat :: o in t.messages <==> Base(t) <= o < t.nextOffset)
            && Base(t) <= g.watermark <= t.nextOffset
            && t.nextOffset - g.watermark == |g.ackedAbove| + |g.inFlight| + |Undelivered(t, g)|
            && (forall l | l in g.inFlight :: g.inFlight[l].offset in t.messages)
  {
    hide BelowCeiling, Run, CountersBelow, GroupsInv, DedupInv;
    EmptyQueueInv();
    Invariant.RunKeeps(EMPTY_QUEUE, requests);
    var q := Run(EMPTY_QUEUE, requests);
    Conservation(q.topics[topic], n, q.nextLeaseId);
    Interval(q.topics[topic], q.nextLeaseId);
  }

  lemma Interval(t: TopicState, leases: nat)
    requires TopicInv(t, leases)
    ensures forall o: nat :: o in t.messages <==> Base(t) <= o < t.nextOffset
  {
    assert Retains(t.messages, Base(t), t.nextOffset);
  }

  // ---------------------------------------------------------------- done is for good

  /** Once done, an offset is in no answer to the group again while its record lives. */
  lemma DoneIsNeverAnswered(q: QueueState, requests: seq<Request>, topic: Name, n: Name, o: nat)
    requires QueueInv(q) && BelowCeiling(q, requests) && Lives(q, RunCalls(q, requests), topic, n)
    requires DoneIn(q, topic, n, o)
    ensures NeverAnswered(q, requests, topic, n, o)
  {
    hide QueueInv, BelowCeiling, Lives, DoneIn, RunCalls, NeverDelivered, NeverAnswered;
    RunFits(q, requests);
    DoneIsForever(q, RunCalls(q, requests), topic, n, o);
    UndeliveredIsUnanswered(q, requests, topic, n, o);
  }

  // ---------------------------------------------------------------- starvation

  lemma {:induction false} NeverDeliveredJoin(q: QueueState, a: seq<Call>, b: seq<Call>, topic: Name, n: Name, o: nat)
    requires NeverDelivered(q, a, topic, n, o) && NeverDelivered(Steps(q, a), b, topic, n, o)
    ensures NeverDelivered(q, a + b, topic, n, o)
    decreases |a|
  {
    hide Delivers, Step;
    if a == [] {
      assert a + b == b;
    } else {
      assert (a + b)[1..] == a[1..] + b;
      NeverDeliveredJoin(Step(q, a[0]), a[1..], b, topic, n, o);
    }
  }

  lemma {:induction false} NoLendDelivers(q: QueueState, calls: seq<Call>, topic: Name, n: Name, o: nat)
    requires forall c | c in calls :: !c.op.Lend?
    ensures NeverDelivered(q, calls, topic, n, o)
    decreases |calls|
  {
    hide Step;
    if calls != [] {
      assert calls[0] in calls;
      NoLendDelivers(Step(q, calls[0]), calls[1..], topic, n, o);
    }
  }

  lemma OnlyFirstLends(q: QueueState, r: Request)
    ensures forall i | 0 < i < |Script(q, r)| :: !Script(q, r)[i].op.Lend?
    ensures Script(q, r) != [] && Script(q, r)[0].op.Lend? ==>
            && (r.Poll? || r.PollAuto?) && ConsumerOk(r.topic, r.group)
            && Script(q, r)[0] == Call(r.topic, Lend(r.group, r.max, r.visibilityMs, r.tsMs))
  {
    hide Items, ProduceAllowed, ConsumerOk, NameOk, TopicAdmits;
    match r
    case ProduceMany(items) => StoresCalls(items); InScript(Script(q, r));
    case AckMany(topic, group, leaseIds) => SettlesCalls(topic, group, leaseIds); InScript(Settles(topic, group, leaseIds));
    case NackMany(topic, group, leaseIds) => ReleasesCalls(topic, group, leaseIds); InScript(Script(q, r));
    case PollAuto(topic, group, max, visibilityMs, tsMs) =>
      var ids := LeaseIds(Items(q, topic, group, max, visibilityMs, tsMs));
      SettlesCalls(topic, group, ids);
      InScript(Settles(topic, group, ids));
    case _ =>
  }

  lemma InScript(calls: seq<Call>)
    ensures forall i | 0 <= i < |calls| :: calls[i] in calls
  {
  }

  lemma UnansweredScript(q: QueueState, r: Request, topic: Name, n: Name, o: nat)
    requires !Answers(q, r, topic, n, o)
    ensures NeverDelivered(q, Script(q, r), topic, n, o)
  {
    hide Script, NeverDelivered, Step;
    OnlyFirstLends(q, r);
    var script := Script(q, r);
    if script != [] {
      var rest := script[1..];
      assert forall c | c in rest :: !c.op.Lend?;
      NoLendDelivers(Step(q, script[0]), rest, topic, n, o);
      assert !Delivers(q, script[0], topic, n, o) by { FirstIsUnanswered(q, r, topic, n, o); }
      FirstThenRest(q, script, topic, n, o);
    } else {
      assert NeverDelivered(q, [], topic, n, o) by { NoLendDelivers(q, [], topic, n, o); }
    }
  }

  lemma FirstThenRest(q: QueueState, calls: seq<Call>, topic: Name, n: Name, o: nat)
    requires calls != [] && !Delivers(q, calls[0], topic, n, o)
    requires NeverDelivered(Step(q, calls[0]), calls[1..], topic, n, o)
    ensures NeverDelivered(q, calls, topic, n, o)
  {
  }

  lemma FirstIsUnanswered(q: QueueState, r: Request, topic: Name, n: Name, o: nat)
    requires !Answers(q, r, topic, n, o) && Script(q, r) != []
    ensures !Delivers(q, Script(q, r)[0], topic, n, o)
  {
    hide Script, Items, HasItem;
    OnlyFirstLends(q, r);
  }

  lemma {:induction false} UnansweredIsUndelivered(q: QueueState, requests: seq<Request>, topic: Name, n: Name, o: nat)
    requires NeverAnswered(q, requests, topic, n, o)
    ensures NeverDelivered(q, RunCalls(q, requests), topic, n, o)
    decreases |requests|
  {
    hide Apply, Script, Answers, Step, Delivers;
    if requests != [] {
      UnansweredScript(q, requests[0], topic, n, o);
      ScriptIsApply(q, requests[0]);
      UnansweredIsUndelivered(Apply(q, requests[0]).0, requests[1..], topic, n, o);
      NeverDeliveredJoin(q, Script(q, requests[0]), RunCalls(Apply(q, requests[0]).0, requests[1..]), topic, n, o);
    }
  }

  /** Polls of the group among the requests. */
  function PollRequests(requests: seq<Request>, topic: Name, n: Name): nat
    decreases |requests|
  {
    if requests == [] then 0
    else (if (requests[0].Poll? || requests[0].PollAuto?) && requests[0].topic == topic && requests[0].group == n then 1 else 0)
         + PollRequests(requests[1..], topic, n)
  }

  lemma {:induction false} PollsOfAppend(a: seq<Call>, b: seq<Call>, topic: Name, n: Name)
    ensures PollsOf(a + b, topic, n) == PollsOf(a, topic, n) + PollsOf(b, topic, n)
    decreases |a|
  {
    if a == [] {
      assert a + b == b;
    } else {
      assert (a + b)[1..] == a[1..] + b;
      PollsOfAppend(a[1..], b, topic, n);
    }
  }

  lemma ScriptPolls(q: QueueState, r: Request, topic: Name, n: Name)
    requires ConsumerOk(topic, n)
    requires (r.Poll? || r.PollAuto?) && r.topic == topic && r.group == n
    ensures PollsOf(Script(q, r), topic, n) >= 1
  {
    hide Items;
  }

  lemma {:induction false} PollsOfRun(q: QueueState, requests: seq<Request>, topic: Name, n: Name)
    requires ConsumerOk(topic, n)
    ensures PollsOf(RunCalls(q, requests), topic, n) >= PollRequests(requests, topic, n)
    decreases |requests|
  {
    hide Apply, Script, ConsumerOk;
    if requests != [] {
      var rest := RunCalls(Apply(q, requests[0]).0, requests[1..]);
      PollsOfAppend(Script(q, requests[0]), rest, topic, n);
      PollsOfRun(Apply(q, requests[0]).0, requests[1..], topic, n);
      if (requests[0].Poll? || requests[0].PollAuto?) && requests[0].topic == topic && requests[0].group == n {
        ScriptPolls(q, requests[0], topic, n);
      }
    }
  }

  /** Every poll of the group asks for something. */
  predicate AllAskRequests(requests: seq<Request>, topic: Name, n: Name) {
    forall r | r in requests && (r.Poll? || r.PollAuto?) && r.topic == topic && r.group == n :: r.max >= 1
  }

  lemma AllAskRun(q: QueueState, requests: seq<Request>, topic: Name, n: Name)
    requires AllAskRequests(requests, topic, n)
    ensures AllAsk(RunCalls(q, requests), topic, n)
  {
    hide RunCalls;
    forall c | c in RunCalls(q, requests) && c.topic == topic && IsPollOf(c.op, n) ensures c.op.max >= 1 {
      RunCallsComeFrom(q, requests, c);
      var r :| r in requests && CallOf(r, c);
    }
  }

  /** Nobody starves: in any run of requests, a deliverable message is in an answer once the reserved places of its group's
      polls outnumber the deliverable messages below it and those that come back below it, however many messages of higher
      priority arrive, as long as neither it nor the group is removed first. */
  lemma SomePollAnswers(q: QueueState, requests: seq<Request>, topic: Name, n: Name, o: nat)
    requires QueueInv(q) && BelowCeiling(q, requests)
    requires var calls := RunCalls(q, requests);
             && Undisturbed(q, calls, topic, n, o)
             && ReservedIn(q, calls, topic, n) > |Below(q.topics[topic], n, o)| + BackIn(q, calls, topic, n, o)
    ensures !NeverAnswered(q, requests, topic, n, o)
  {
    hide QueueInv, BelowCeiling, RunCalls, NeverAnswered, NeverDelivered, Undisturbed, ReservedIn, BackIn, Fits;
    if NeverAnswered(q, requests, topic, n, o) {
      UnansweredIsUndelivered(q, requests, topic, n, o);
      RunFits(q, requests);
      NobodyStarves(q, RunCalls(q, requests), topic, n, o);
    }
  }

  lemma PollCountBelow(q: QueueState, topic: Name, n: Name)
    requires CountersBelow(q) && topic in q.topics && n in q.topics[topic].groups
    ensures q.topics[topic].groups[n].pollCount <= MAX_COUNTER
  {
  }

  lemma StartOfRun(q: QueueState, requests: seq<Request>, topic: Name, n: Name)
    requires BelowCeiling(q, requests) && Lives(q, RunCalls(q, requests), topic, n)
    ensures CountersBelow(q) && topic in q.topics && n in q.topics[topic].groups
  {
    hide CountersBelow, RunCalls, Apply, KeepsRecord, Step;
  }

  /** The ceiling bounds the polls of a group that lives through the run. */
  lemma PollsBelowCeiling(q: QueueState, requests: seq<Request>, topic: Name, n: Name)
    requires QueueInv(q) && BelowCeiling(q, requests) && Lives(q, RunCalls(q, requests), topic, n)
    ensures q.topics[topic].groups[n].pollCount + PollsOf(RunCalls(q, requests), topic, n) <= MAX_COUNTER
  {
    hide QueueInv, BelowCeiling, RunCalls, Lives, PollsOf, CountersBelow, Fits, Steps, Run;
    StartOfRun(q, requests, topic, n);
    RunFits(q, requests);
    RunIsSteps(q, requests);
    Invariant.RunKeeps(q, requests);
    PollCountBelow(q, topic, n);
    CountRun(q, RunCalls(q, requests), topic, n);
    PollCountBelow(Run(q, requests), topic, n);
  }

  /** In particular, if every poll of the group asks for something, 4(k+1) polls are enough for a message with `k` below it,
      and four more for each that comes back below it. */
  lemma FourPollsAnswer(q: QueueState, requests: seq<Request>, topic: Name, n: Name, o: nat)
    requires QueueInv(q) && BelowCeiling(q, requests) && ConsumerOk(topic, n)
    requires Undisturbed(q, RunCalls(q, requests), topic, n, o) && AllAskRequests(requests, topic, n)
    requires PollRequests(requests, topic, n) >=
             RESERVED_DEN * (|Below(q.topics[topic], n, o)| + BackIn(q, RunCalls(q, requests), topic, n, o) + 1)
    ensures !NeverAnswered(q, requests, topic, n, o)
  {
    hide QueueInv, BelowCeiling, RunCalls, PollRequests, NeverAnswered, NeverDelivered, PollsOf, ConsumerOk, BackIn, Lives,
      AllAskRequests, AllAsk, Fits;
    if NeverAnswered(q, requests, topic, n, o) {
      UnansweredIsUndelivered(q, requests, topic, n, o);
      RunFits(q, requests);
      PollsOfRun(q, requests, topic, n);
      AllAskRun(q, requests, topic, n);
      UndisturbedLives(q, RunCalls(q, requests), topic, n, o);
      PollsBelowCeiling(q, requests, topic, n);
      FourPollsEach(q, RunCalls(q, requests), topic, n, o);
    }
  }

  // ---------------------------------------------------------------- fan-out

  /** Consumption of the topic by other groups, and anything on other topics. */
  predicate ForeignRequest(r: Request, topic: Name, n: Name) {
    match r
    case Produce(item) => item.topic != topic
    case ProduceMany(items) => forall item | item in items :: item.topic != topic
    case CreateTopic(name) => name != topic
    case DeleteTopic(name) => name != topic
    case SetRateLimit(name, _, _) => name != topic
    case SetRetention(name, _, _) => name != topic
    case _ => r.topic != topic || r.group != n
  }

  lemma ForeignCall(r: Request, c: Call, topic: Name, n: Name)
    requires ForeignRequest(r, topic, n) && CallOf(r, c) && c.topic == topic
    ensures Foreign(c.op, n)
  {
  }

  lemma {:induction false} LivingForeignRun(q: QueueState, calls: seq<Call>, topic: Name, n: Name)
    requires Lives(q, calls, topic, n) && forall c | c in calls && c.topic == topic :: Foreign(c.op, n)
    ensures ForeignRun(q, calls, topic, n)
    decreases |calls|
  {
    hide KeepsRecord, Foreign, Step;
    if calls != [] {
      assert calls[0] in calls;
      LivingForeignRun(Step(q, calls[0]), calls[1..], topic, n);
    }
  }

  /** Whatever other groups poll, acknowledge, give back and commit, this group's next poll answers the same messages in
      the same order; only the lease ids differ. */
  lemma NextPollIsSame(q: QueueState, requests: seq<Request>, topic: Name, n: Name, max: u32, visibilityMs: u64, tsMs: u64)
    requires QueueInv(q) && BelowCeiling(q, requests) && Lives(q, RunCalls(q, requests), topic, n)
    requires forall r | r in requests :: ForeignRequest(r, topic, n)
    requires var after := Run(q, requests);
             topic in after.topics && n in after.topics[topic].groups && Survives(after.topics[topic].groups[n], tsMs)
    ensures Contents(Items(q, topic, n, max, visibilityMs, tsMs))
         == Contents(Items(Run(q, requests), topic, n, max, visibilityMs, tsMs))
  {
    hide QueueInv, BelowCeiling, RunCalls, Run, ForeignRequest, CallOf, Survives, Items, Contents, CountersBelow, Foreign;
    var calls := RunCalls(q, requests);
    RunFits(q, requests);
    RunIsSteps(q, requests);
    Invariant.RunKeeps(q, requests);
    CountersGiveHeadroom(Run(q, requests));
    forall c | c in calls && c.topic == topic ensures Foreign(c.op, n) {
      RunCallsComeFrom(q, requests, c);
      var r :| r in requests && CallOf(r, c);
      ForeignCall(r, c, topic, n);
    }
    LivingForeignRun(q, calls, topic, n);
    GroupsAreIndependent(q, calls, topic, n, max, visibilityMs, tsMs);
  }

  // ---------------------------------------------------------------- idempotent produce

  /** A key remembered under `offset` answers that offset when it is sent again at the end of any run that stores fewer
      than the window's worth of fresh keys and whose retention does not pass the offset; nothing is stored. A
      produce that does not pass the check is refused, this one like any other. */
  lemma ResendAfterRun(q: QueueState, requests: seq<Request>, item: ProduceItem, offset: nat, newer: nat)
    requires QueueInv(q) && BelowCeiling(q, requests) && item.producerId != ""
    requires RemembersIn(q, item.topic, (item.producerId, item.seqNo), offset, newer)
    requires var calls := RunCalls(q, requests);
             WindowKept(q, calls, item.topic, offset) && newer + FreshCount(q, calls, item.topic) < 100_000
    ensures var after := Run(q, requests);
            var (resent, response) := Apply(after, Produce(item));
            && item.topic in after.topics && item.topic in resent.topics
            && resent.topics[item.topic].nextOffset == after.topics[item.topic].nextOffset
            && response == if ProduceAllowed(after, [item]) then Produced(offset) else Rejected
  {
    hide ProduceAllowed, BelowCeiling, RunCalls, Run, WindowKept, FreshCount, Remembers, ProduceTo, TopicInv, CountersBelow;
    var calls := RunCalls(q, requests);
    var after := Run(q, requests);
    var aged := newer + FreshCount(q, calls, item.topic);
    RunFits(q, requests);
    RunIsSteps(q, requests);
    Invariant.RunKeeps(q, requests);
    KeyOutlivesRun(q, calls, item.topic, (item.producerId, item.seqNo), offset, newer);
    ResendAnswersOriginal(after.topics[item.topic], item, after.nextLeaseId, offset, aged);
  }
}
