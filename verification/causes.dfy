/** Which request of a run finished an offset for a group, and by what. */
module Causes {
  import opened Collections
  import opened Model
  import opened Groups
  import opened Topics
  import opened TopicFacts
  import opened Queue
  import opened Invariant
  import opened Progress
  import opened Runs
  import opened Delivery

  /** The lease is in flight in the group, on the offset. */
  predicate LeaseOn(q: QueueState, topic: Name, n: Name, l: nat, o: nat) {
    Leases(q, topic, n, l) && q.topics[topic].groups[n].inFlight[l].offset == o
  }

  /** What finishes the offset for a group of the topic: an acknowledgement of the lease it is in flight under, an
      auto-acknowledging poll that answers it, a commit above it, or a produce whose retention moves the topic's base
      past it. Nothing else does. */
  ghost predicate RequestFinishes(q: QueueState, r: Request, topic: Name, n: Name, o: nat) {
    && topic in q.topics && n in q.topics[topic].groups
    && var t := q.topics[topic];
    match r
    case Produce(_) => Base(t) <= o < Base(TopicOr(Apply(q, r).0, topic))
    case ProduceMany(_) => Base(t) <= o < Base(TopicOr(Apply(q, r).0, topic))
    case Ack(name, group, leaseId) => name == topic && group == n && LeaseOn(q, topic, n, leaseId, o)
    case AckMany(name, group, leaseIds) =>
      name == topic && group == n && exists l :: l in leaseIds && LeaseOn(q, topic, n, l, o)
    case PollAuto(_, _, _, _, _) => Answers(q, r, topic, n, o)
    case CommitOffset(name, group, offset) =>
      name == topic && group == n && ConsumerOk(topic, n) && o < Min(offset, t.nextOffset)
    case CommitOffsetAt(name, group, offset, _) =>
      name == topic && group == n && ConsumerOk(topic, n) && o < Min(offset, t.nextOffset)
    case _ => false
  }

  // ---------------------------------------------------------------- operations that finish nothing

  predicate Quiet(c: Call, topic: Name, n: Name) {
    c.topic == topic ==> !c.op.StoreItem? && !((c.op.Settle? || c.op.Advance?) && c.op.group == n)
  }

  lemma QuietStep(q: QueueState, c: Call, topic: Name, n: Name, o: nat)
    requires QueueInv(q) && Headroom(q) && KeepsRecord(q, c, topic, n) && Quiet(c, topic, n)
    ensures DoneIn(Step(q, c), topic, n, o) <==> DoneIn(q, topic, n, o)
  {
    hide QueueInv, Headroom, KeepsGroup, Step, DoneIn, TopicStep, Base;
    DoneStep(q, c, topic, n, o);
  }

  lemma {:induction false} QuietKeeps(q: QueueState, calls: seq<Call>, topic: Name, n: Name, o: nat)
    requires QueueInv(q) && Fits(q, calls) && Lives(q, calls, topic, n)
    requires forall c | c in calls :: Quiet(c, topic, n)
    ensures DoneIn(Steps(q, calls), topic, n, o) <==> DoneIn(q, topic, n, o)
    decreases |calls|
  {
    hide QueueInv, Headroom, Step, DoneIn, KeepsRecord, Quiet;
    if calls != [] {
      assert calls[0] in calls;
      StepKeeps(q, calls[0]);
      QuietStep(q, calls[0], topic, n, o);
      QuietKeeps(Step(q, calls[0]), calls[1..], topic, n, o);
    }
  }

  // ---------------------------------------------------------------- acknowledging

  lemma AckedRecord(g: GroupState, l: nat, base: nat, next: nat, leases: nat, o: nat)
    requires GroupInv(g, base, next, leases) && next <= U64_MAX
    ensures var h := AckLease(g, l);
            && h.inFlight == g.inFlight - {l}
            && (IsDone(h, o) <==> IsDone(g, o) || (l in g.inFlight && g.inFlight[l].offset == o))
  {
    hide GroupInv;
    if l in g.inFlight {
      AckFacts(g, l, base, next, leases);
    }
  }

  lemma SettleStep(q: QueueState, topic: Name, n: Name, l: nat, o: nat)
    requires QueueInv(q) && Headroom(q) && topic in q.topics && n in q.topics[topic].groups
    ensures var r := Step(q, Call(topic, Settle(n, l)));
            && (DoneIn(r, topic, n, o) <==> DoneIn(q, topic, n, o) || LeaseOn(q, topic, n, l, o))
            && forall k: nat :: LeaseOn(r, topic, n, k, o) <==> k != l && LeaseOn(q, topic, n, k, o)
  {
    hide TopicInv, GroupInv, Base, AckLease, IsDone;
    var t := q.topics[topic];
    GroupOf(t, q.nextLeaseId, n);
    AckedRecord(t.groups[n], l, Base(t), t.nextOffset, q.nextLeaseId, o);
  }

  /** Acknowledging leases one after the other finishes exactly the offsets they were on at the start. */
  lemma {:induction false} SettlesFinish(q: QueueState, topic: Name, n: Name, ids: seq<nat>, o: nat)
    requires var calls := Settles(topic, n, ids) + [Call(topic, DropDone)];
             QueueInv(q) && Fits(q, calls) && Lives(q, calls, topic, n)
    ensures DoneIn(Steps(q, Settles(topic, n, ids) + [Call(topic, DropDone)]), topic, n, o) <==>
            DoneIn(q, topic, n, o) || exists l :: l in ids && LeaseOn(q, topic, n, l, o)
    decreases |ids|
  {
    hide QueueInv, Headroom, Step, DoneIn, KeepsRecord, LeaseOn;
    var calls := Settles(topic, n, ids) + [Call(topic, DropDone)];
    if ids == [] {
      assert calls == [Call(topic, DropDone)];
      QuietKeeps(q, calls, topic, n, o);
    } else {
      assert calls[0] == Call(topic, Settle(n, ids[0])) && calls[1..] == Settles(topic, n, ids[1..]) + [Call(topic, DropDone)];
      var r := Step(q, calls[0]);
      StepKeeps(q, calls[0]);
      SettleStep(q, topic, n, ids[0], o);
      SettlesFinish(r, topic, n, ids[1..], o);
      FirstOrRest(q, r, topic, n, ids, o);
    }
  }

  lemma FirstOrRest(q: QueueState, r: QueueState, topic: Name, n: Name, ids: seq<nat>, o: nat)
    requires ids != [] && forall k: nat :: LeaseOn(r, topic, n, k, o) <==> k != ids[0] && LeaseOn(q, topic, n, k, o)
    ensures (exists l :: l in ids && LeaseOn(q, topic, n, l, o)) <==>
            LeaseOn(q, topic, n, ids[0], o) || exists l :: l in ids[1..] && LeaseOn(r, topic, n, l, o)
  {
    hide LeaseOn;
    if l :| l in ids && LeaseOn(q, topic, n, l, o) {
      if l != ids[0] {
        assert ids == [ids[0]] + ids[1..];
        assert l in ids[1..] && LeaseOn(r, topic, n, l, o);
      }
    }
    if l :| l in ids[1..] && LeaseOn(r, topic, n, l, o) {
      assert l in ids && LeaseOn(q, topic, n, l, o);
    }
  }

  /** What an auto-acknowledging poll lends and then acknowledges is what it answers. */
  lemma AnsweredIsLent(q: QueueState, lend: Call, o: nat)
    requires QueueInv(q) && Headroom(q) && lend.op.Lend?
    ensures var items := Items(q, lend.topic, lend.op.group, lend.op.max, lend.op.visibilityMs, lend.op.tsMs);
            HasItem(items, o) <==> exists l :: l in LeaseIds(items) && LeaseOn(Step(q, lend), lend.topic, lend.op.group, l, o)
  {
    hide QueueInv, Headroom, Items, Step, LeaseOn, HasItem;
    var topic, n := lend.topic, lend.op.group;
    var items := Items(q, topic, n, lend.op.max, lend.op.visibilityMs, lend.op.tsMs);
    var ids := LeaseIds(items);
    forall i | 0 <= i < |items| ensures LeaseOn(Step(q, lend), topic, n, ids[i], items[i].offset) {
      ItemIsLent(q, lend, i);
    }
    OneLeaseEach(Step(q, lend), topic, n, items, o);
  }

  lemma ItemIsLent(q: QueueState, lend: Call, i: nat)
    requires QueueInv(q) && Headroom(q) && lend.op.Lend?
    requires i < |Items(q, lend.topic, lend.op.group, lend.op.max, lend.op.visibilityMs, lend.op.tsMs)|
    ensures var item := Items(q, lend.topic, lend.op.group, lend.op.max, lend.op.visibilityMs, lend.op.tsMs)[i];
            LeaseOn(Step(q, lend), lend.topic, lend.op.group, item.leaseId, item.offset)
  {
    hide TopicInv, PollTopic;
    PollLends(q.topics[lend.topic], lend.op.group, lend.op.max, lend.op.visibilityMs, lend.op.tsMs, q.nextLeaseId, i);
  }

  lemma OneLeaseEach(r: QueueState, topic: Name, n: Name, items: seq<Delivered>, o: nat)
    requires forall i | 0 <= i < |items| :: LeaseOn(r, topic, n, LeaseIds(items)[i], items[i].offset)
    ensures HasItem(items, o) <==> exists l :: l in LeaseIds(items) && LeaseOn(r, topic, n, l, o)
  {
    hide LeaseIds, LeaseOn;
    var ids := LeaseIds(items);
    if HasItem(items, o) {
      var i :| 0 <= i < |items| && items[i].offset == o;
      assert ids[i] in ids && LeaseOn(r, topic, n, ids[i], o);
    }
    if l :| l in ids && LeaseOn(r, topic, n, l, o) {
      var i :| 0 <= i < |ids| && ids[i] == l;
      OneOffset(r, topic, n, l, o, items[i].offset);
    }
  }

  lemma OneOffset(q: QueueState, topic: Name, n: Name, l: nat, o: nat, p: nat)
    requires LeaseOn(q, topic, n, l, o) && LeaseOn(q, topic, n, l, p)
    ensures o == p
  {
  }

  // ---------------------------------------------------------------- storing

  lemma StoreStep(q: QueueState, item: ProduceItem, topic: Name, n: Name, o: nat)
    requires QueueInv(q) && Headroom(q) && topic in q.topics && n in q.topics[topic].groups
    ensures var r := Step(q, Call(item.topic, StoreItem(item)));
            && topic in r.topics && Base(q.topics[topic]) <= Base(r.topics[topic])
            && (DoneIn(r, topic, n, o) <==> DoneIn(q, topic, n, o) || o < Base(r.topics[topic]))
  {
    hide TopicInv, TopicStep, Base, IsDone;
    var c := Call(item.topic, StoreItem(item));
    DoneStep(q, c, topic, n, o);
    if item.topic == topic {
      BaseGrows(q.topics[topic], c.op, q.nextLeaseId);
    } else if o < Base(q.topics[topic]) {
      BaseIsDone(q, topic, n, o);
    }
  }

  /** Storing items one after the other finishes exactly the offsets their retention passes. */
  lemma {:induction false} StoresFinish(q: QueueState, items: seq<ProduceItem>, topic: Name, n: Name, o: nat)
    requires QueueInv(q) && Fits(q, Stores(items)) && Lives(q, Stores(items), topic, n)
    ensures var r := Steps(q, Stores(items));
            && topic in r.topics && Base(q.topics[topic]) <= Base(r.topics[topic])
            && (DoneIn(r, topic, n, o) <==> DoneIn(q, topic, n, o) || o < Base(r.topics[topic]))
    decreases |items|
  {
    hide QueueInv, Headroom, Step, DoneIn, KeepsRecord, Base;
    if items == [] {
      if o < Base(q.topics[topic]) {
        BaseIsDone(q, topic, n, o);
      }
    } else {
      var c := Stores(items)[0];
      StepKeeps(q, c);
      StoreStep(q, items[0], topic, n, o);
      StoresFinish(Step(q, c), items[1..], topic, n, o);
    }
  }

  lemma BaseIsDone(q: QueueState, topic: Name, n: Name, o: nat)
    requires QueueInv(q) && topic in q.topics && n in q.topics[topic].groups && o < Base(q.topics[topic])
    ensures DoneIn(q, topic, n, o)
  {
    hide TopicInv, Base;
    GroupOf(q.topics[topic], q.nextLeaseId, n);
  }

  // ---------------------------------------------------------------- one request

  lemma CommitCause(q: QueueState, c: Call, topic: Name, n: Name, o: nat)
    requires c.op.Advance? && QueueInv(q)
    requires var calls := [c, Call(c.topic, DropDone)]; Fits(q, calls) && Lives(q, calls, topic, n)
    ensures DoneIn(Steps(q, [c, Call(c.topic, DropDone)]), topic, n, o) <==>
            DoneIn(q, topic, n, o) || (c.topic == topic && c.op.group == n && o < Min(c.op.offset, q.topics[topic].nextOffset))
  {
    hide QueueInv, Headroom, Step, DoneIn, KeepsGroup, TopicStep, Base;
    var calls := [c, Call(c.topic, DropDone)];
    assert calls[1..] == [Call(c.topic, DropDone)];
    StepKeeps(q, c);
    DoneStep(q, c, topic, n, o);
    QuietKeeps(Step(q, c), calls[1..], topic, n, o);
  }

  lemma AutoCause(q: QueueState, lend: Call, topic: Name, n: Name, o: nat)
    requires QueueInv(q) && lend.op.Lend?
    requires var items := Items(q, lend.topic, lend.op.group, lend.op.max, lend.op.visibilityMs, lend.op.tsMs);
             var calls := [lend] + (Settles(lend.topic, lend.op.group, LeaseIds(items)) + [Call(lend.topic, DropDone)]);
             Fits(q, calls) && Lives(q, calls, topic, n)
    ensures var items := Items(q, lend.topic, lend.op.group, lend.op.max, lend.op.visibilityMs, lend.op.tsMs);
            var calls := [lend] + (Settles(lend.topic, lend.op.group, LeaseIds(items)) + [Call(lend.topic, DropDone)]);
            DoneIn(Steps(q, calls), topic, n, o) <==>
            DoneIn(q, topic, n, o) || (lend.topic == topic && lend.op.group == n && HasItem(items, o))
  {
    hide QueueInv, Headroom, Step, DoneIn, KeepsRecord, Items, Settles, LeaseIds, HasItem, LeaseOn, Quiet;
    var ids := LeaseIds(Items(q, lend.topic, lend.op.group, lend.op.max, lend.op.visibilityMs, lend.op.tsMs));
    var rest := Settles(lend.topic, lend.op.group, ids) + [Call(lend.topic, DropDone)];
    var calls := [lend] + rest;
    assert calls[0] == lend && calls[1..] == rest;
    StepKeeps(q, lend);
    LendIsQuiet(lend, topic, n);
    QuietStep(q, lend, topic, n, o);
    if lend.topic == topic && lend.op.group == n {
      SettlesFinish(Step(q, lend), topic, n, ids, o);
      AnsweredIsLent(q, lend, o);
    } else {
      OthersAreQuiet(lend.topic, lend.op.group, ids, topic, n);
      QuietKeeps(Step(q, lend), rest, topic, n, o);
    }
  }

  lemma LendIsQuiet(lend: Call, topic: Name, n: Name)
    requires lend.op.Lend?
    ensures Quiet(lend, topic, n)
  {
  }

  lemma OthersAreQuiet(name: Name, group: Name, ids: seq<nat>, topic: Name, n: Name)
    requires name != topic || group != n
    ensures forall c | c in Settles(name, group, ids) + [Call(name, DropDone)] :: Quiet(c, topic, n)
  {
    SettlesCalls(name, group, ids);
  }

  lemma ReleasesAreQuiet(name: Name, group: Name, ids: seq<nat>, topic: Name, n: Name)
    ensures forall c | c in Releases(name, group, ids) :: Quiet(c, topic, n)
  {
    ReleasesCalls(name, group, ids);
  }

  lemma AckManyCause(q: QueueState, name: Name, group: Name, ids: seq<nat>, topic: Name, n: Name, o: nat)
    requires var calls := Settles(name, group, ids) + [Call(name, DropDone)];
             QueueInv(q) && Fits(q, calls) && Lives(q, calls, topic, n)
    ensures DoneIn(Steps(q, Settles(name, group, ids) + [Call(name, DropDone)]), topic, n, o) <==>
            || DoneIn(q, topic, n, o)
            || (name == topic && group == n && exists l :: l in ids && LeaseOn(q, topic, n, l, o))
  {
    hide QueueInv, Fits, Lives, DoneIn, Steps, Settles, LeaseOn, Quiet;
    if name == topic && group == n {
      SettlesFinish(q, topic, n, ids, o);
    } else {
      OthersAreQuiet(name, group, ids, topic, n);
      QuietKeeps(q, Settles(name, group, ids) + [Call(name, DropDone)], topic, n, o);
    }
  }

  lemma AckCause(q: QueueState, name: Name, group: Name, l: nat, topic: Name, n: Name, o: nat)
    requires var calls := [Call(name, Settle(group, l)), Call(name, DropDone)];
             QueueInv(q) && Fits(q, calls) && Lives(q, calls, topic, n)
    ensures DoneIn(Steps(q, [Call(name, Settle(group, l)), Call(name, DropDone)]), topic, n, o) <==>
            DoneIn(q, topic, n, o) || (name == topic && group == n && LeaseOn(q, topic, n, l, o))
  {
    hide *;
    OneSettle(name, group, l);
    AckManyCause(q, name, group, [l], topic, n, o);
    if LeaseOn(q, topic, n, l, o) {
      assert l in [l];
    }
  }

  lemma OneSettle(name: Name, group: Name, l: nat)
    ensures Settles(name, group, [l]) + [Call(name, DropDone)] == [Call(name, Settle(group, l)), Call(name, DropDone)]
  {
    assert Settles(name, group, [l]) == [Call(name, Settle(group, l))] + Settles(name, group, []);
  }

  lemma StoreCause(q: QueueState, items: seq<ProduceItem>, topic: Name, n: Name, o: nat)
    requires QueueInv(q) && Fits(q, Stores(items)) && Lives(q, Stores(items), topic, n)
    ensures DoneIn(Steps(q, Stores(items)), topic, n, o) <==>
            DoneIn(q, topic, n, o) || Base(q.topics[topic]) <= o < Base(TopicOr(Steps(q, Stores(items)), topic))
  {
    hide QueueInv, DoneIn, Base, Stores, Steps, Fits;
    StoresFinish(q, items, topic, n, o);
    if o < Base(q.topics[topic]) {
      BaseIsDone(q, topic, n, o);
    }
  }

  /** One request: done stays done, and what becomes done has exactly the stated cause. */
  lemma RequestCause(q: QueueState, r: Request, topic: Name, n: Name, o: nat)
    requires QueueInv(q) && Fits(q, Script(q, r)) && Lives(q, Script(q, r), topic, n)
    ensures DoneIn(Apply(q, r).0, topic, n, o) <==> DoneIn(q, topic, n, o) || RequestFinishes(q, r, topic, n, o)
  {
    hide QueueInv, Fits, Steps, Step, DoneIn, Stores, Settles, Releases, ProduceAllowed, NameOk, TopicAdmits, ConsumerOk,
      Items, LeaseOn, KeepsRecord, HasItem, Base, ProduceTo, AckAll, NackAll, ProduceAll, LeaseIds;
    ScriptIsApply(q, r);
    match r
    case Produce(item) => OneStore(item); if ProduceAllowed(q, [item]) { StoreCause(q, [item], topic, n, o); }
    case ProduceMany(items) => if ProduceAllowed(q, items) { StoreCause(q, items, topic, n, o); }
    case Ack(name, group, l) => AckCause(q, name, group, l, topic, n, o);
    case AckMany(name, group, ids) => AckManyCause(q, name, group, ids, topic, n, o);
    case PollAuto(name, group, max, visibilityMs, tsMs) =>
      if ConsumerOk(name, group) { AutoCause(q, Call(name, Lend(group, max, visibilityMs, tsMs)), topic, n, o); }
    case CommitOffset(name, group, offset) =>
      if ConsumerOk(name, group) { CommitCause(q, Call(name, Advance(group, offset, None)), topic, n, o); }
    case CommitOffsetAt(name, group, offset, tsMs) =>
      if ConsumerOk(name, group) { CommitCause(q, Call(name, Advance(group, offset, Some(tsMs))), topic, n, o); }
    case NackMany(name, group, ids) =>
      ReleasesAreQuiet(name, group, ids, topic, n);
      QuietKeeps(q, Script(q, r), topic, n, o);
    case _ => QuietKeeps(q, Script(q, r), topic, n, o);
  }

  // ---------------------------------------------------------------- runs

  lemma {:induction false} LivesSplit(q: QueueState, a: seq<Call>, b: seq<Call>, topic: Name, n: Name)
    requires Lives(q, a + b, topic, n)
    ensures Lives(q, a, topic, n) && Lives(Steps(q, a), b, topic, n)
    decreases |a|
  {
    hide Step, KeepsRecord;
    if a == [] {
      assert a + b == b;
    } else {
      assert (a + b)[0] == a[0] && (a + b)[1..] == a[1..] + b;
      LivesSplit(Step(q, a[0]), a[1..], b, topic, n);
    }
  }

  /** The request at `k` finishes the offset, in the state it finds. */
  ghost predicate FinishedAt(q: QueueState, requests: seq<Request>, k: nat, topic: Name, n: Name, o: nat)
    requires k < |requests|
  {
    RequestFinishes(Run(q, requests[..k]), requests[k], topic, n, o)
  }

  lemma LaterRequest(q: QueueState, requests: seq<Request>, k: nat, topic: Name, n: Name, o: nat)
    requires requests != [] && k < |requests[1..]|
    ensures FinishedAt(Apply(q, requests[0]).0, requests[1..], k, topic, n, o) <==>
            FinishedAt(q, requests, k + 1, topic, n, o)
  {
    hide RequestFinishes, Apply;
    assert requests[..k + 1][0] == requests[0] && requests[..k + 1][1..] == requests[1..][..k];
  }

  lemma FirstOrLater(q: QueueState, requests: seq<Request>, topic: Name, n: Name, o: nat)
    requires requests != []
    ensures var q' := Apply(q, requests[0]).0;
            (exists k: nat :: k < |requests| && FinishedAt(q, requests, k, topic, n, o)) <==>
            || RequestFinishes(q, requests[0], topic, n, o)
            || exists k: nat :: k < |requests[1..]| && FinishedAt(q', requests[1..], k, topic, n, o)
  {
    assert FinishedAt(q, requests, 0, topic, n, o) <==> RequestFinishes(q, requests[0], topic, n, o) by {
      assert requests[..0] == [];
    }
    var q' := Apply(q, requests[0]).0;
    hide FinishedAt, RequestFinishes, Apply;
    forall k: nat | k < |requests[1..]|
      ensures FinishedAt(q', requests[1..], k, topic, n, o) <==> FinishedAt(q, requests, k + 1, topic, n, o)
    {
      LaterRequest(q, requests, k, topic, n, o);
    }
    if k: nat :| k < |requests| && FinishedAt(q, requests, k, topic, n, o) {
      if k > 0 {
        assert FinishedAt(q', requests[1..], k - 1, topic, n, o);
      }
    }
  }

  /** No silent loss: while a group's record lives, an offset is done at the end of a run exactly when it was done at the
      start or some request of the run finished it in the state that request found. */
  lemma {:induction false} DoneHasCause(q: QueueState, requests: seq<Request>, topic: Name, n: Name, o: nat)
    requires QueueInv(q) && BelowCeiling(q, requests) && Lives(q, RunCalls(q, requests), topic, n)
    ensures DoneIn(Run(q, requests), topic, n, o) <==>
            DoneIn(q, topic, n, o) || exists k: nat :: k < |requests| && FinishedAt(q, requests, k, topic, n, o)
    decreases |requests|
  {
    hide QueueInv, Apply, Script, CountersBelow, Headroom, Lives, DoneIn, FinishedAt, RequestFinishes, Fits;
    if requests != [] {
      var q' := Apply(q, requests[0]).0;
      assert BelowCeiling(q', requests[1..]);
      CountersGiveHeadroom(q);
      CountersGiveHeadroom(q');
      ScriptFits(q, requests[0]);
      ScriptIsApply(q, requests[0]);
      LivesSplit(q, Script(q, requests[0]), RunCalls(q', requests[1..]), topic, n);
      ApplyKeeps(q, requests[0]);
      RequestCause(q, requests[0], topic, n, o);
      DoneHasCause(q', requests[1..], topic, n, o);
      FirstOrLater(q, requests, topic, n, o);
    }
  }
}
