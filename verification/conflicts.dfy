/** Exactly when regrouping a batch of acknowledgements preserves its meaning, also when a lease is both acknowledged and
    given back in it.

    The first job on a lease decides it and the later ones find nothing. So a batch can be rewritten, without changing
    what it does, to one in which the later, contradicting jobs name leases nobody holds; that one has no conflict. */
module Conflicts {
  import opened Collections
  import opened Model
  import opened Selection
  import opened Groups
  import opened Topics
  import opened TopicFacts
  import opened Queue
  import opened Invariant
  import opened Batching
  import opened Delivery
  import opened Consumers

  function Opposite(j: AckJob): AckJob { j.(nack := !j.nack) }

  predicate Flies(q: QueueState, j: AckJob) { Leases(q, j.topic, j.group, j.leaseId) }

  // ---------------------------------------------------------------- rewriting the batch

  /** The job, or one of its kind on a lease from `idle` on, if the opposite job came before. */
  function Decide(seen: set<AckJob>, j: AckJob, idle: nat): AckJob {
    if Opposite(j) in seen then j.(leaseId := if j.nack then idle + 1 else idle) else j
  }

  function Decided(seen: set<AckJob>, jobs: seq<AckJob>, idle: nat): seq<AckJob>
    decreases |jobs|
  {
    if jobs == [] then [] else [Decide(seen, jobs[0], idle)] + Decided(seen + {jobs[0]}, jobs[1..], idle)
  }

  /** `j` comes up in the jobs before its opposite does, if that ever does. */
  predicate Leads(jobs: seq<AckJob>, j: AckJob)
    decreases |jobs|
  {
    jobs != [] && (jobs[0] == j || (jobs[0] != Opposite(j) && Leads(jobs[1..], j)))
  }

  lemma {:induction false} LeadsIsIn(jobs: seq<AckJob>, j: AckJob)
    ensures Leads(jobs, j) ==> j in jobs
    ensures j in jobs ==> Leads(jobs, j) || Leads(jobs, Opposite(j))
    ensures !(Leads(jobs, j) && Leads(jobs, Opposite(j)))
    ensures Leads(jobs, Opposite(j)) ==> Opposite(j) in jobs
    decreases |jobs|
  {
    if jobs != [] {
      assert jobs == [jobs[0]] + jobs[1..];
      LeadsIsIn(jobs[1..], j);
    }
  }

  /** What the rewritten batch holds: of the leases in use, the jobs that lead; on idle leases, one kind each. */
  lemma {:induction false} DecidedMembers(seen: set<AckJob>, jobs: seq<AckJob>, idle: nat, j: AckJob)
    requires forall k | k in jobs :: k.leaseId < idle
    ensures j.leaseId < idle ==> (j in Decided(seen, jobs, idle) <==> Opposite(j) !in seen && Leads(jobs, j))
    ensures j.leaseId >= idle && j in Decided(seen, jobs, idle) ==> j.leaseId == if j.nack then idle + 1 else idle
    decreases |jobs|
  {
    if jobs != [] {
      assert jobs[0] in jobs;
      assert forall k | k in jobs[1..] :: k in jobs;
      DecidedMembers(seen + {jobs[0]}, jobs[1..], idle, j);
    }
  }

  lemma DecidedHasNoConflict(jobs: seq<AckJob>, idle: nat)
    requires forall k | k in jobs :: k.leaseId < idle
    ensures NoConflict(Elements(Decided({}, jobs, idle)))
  {
    hide Decided, Leads;
    var decided := Decided({}, jobs, idle);
    forall j, k | j in decided && k in decided && j.topic == k.topic && j.group == k.group && j.leaseId == k.leaseId
      ensures j.nack == k.nack
    {
      DecidedMembers({}, jobs, idle, j);
      DecidedMembers({}, jobs, idle, k);
      LeadsIsIn(jobs, j);
      assert j.nack != k.nack ==> k == Opposite(j);
    }
  }

  lemma {:induction false} DecidedAcks(seen: set<AckJob>, jobs: seq<AckJob>, idle: nat, topic: Name)
    ensures HasAck(Elements(Decided(seen, jobs, idle)), topic) <==> HasAck(Elements(jobs), topic)
    decreases |jobs|
  {
    if jobs != [] {
      var rest := Decided(seen + {jobs[0]}, jobs[1..], idle);
      assert jobs == [jobs[0]] + jobs[1..];
      DecidedAcks(seen + {jobs[0]}, jobs[1..], idle, topic);
      HasAckFirst(jobs[0], jobs[1..], topic);
      HasAckFirst(Decide(seen, jobs[0], idle), rest, topic);
    }
  }

  lemma HasAckFirst(j: AckJob, jobs: seq<AckJob>, topic: Name)
    ensures HasAck(Elements([j] + jobs), topic) <==> (j.topic == topic && !j.nack) || HasAck(Elements(jobs), topic)
  {
    assert Elements([j] + jobs) == {j} + Elements(jobs);
    if HasAck(Elements(jobs), topic) {
      var k :| k in Elements(jobs) && k.topic == topic && !k.nack;
      assert k in Elements([j] + jobs);
    }
    if j.topic == topic && !j.nack {
      assert j in Elements([j] + jobs);
    }
  }

  // ---------------------------------------------------------------- which does the same

  /** Every lease in flight has an id below `idle`, and nothing seen is in flight. */
  ghost predicate Spent(q: QueueState, seen: set<AckJob>, idle: nat) {
    && (forall topic, group, l: nat | Leases(q, topic, group, l) :: l < idle)
    && (forall j | j in seen :: !Flies(q, j))
  }

  /** Two jobs of one kind on leases not in flight do the same. */
  lemma IdleJobs(q: QueueState, j: AckJob, k: AckJob)
    requires !Flies(q, j) && !Flies(q, k) && j.topic == k.topic && j.group == k.group && j.nack == k.nack
    ensures Apply(q, JobRequest(j)).0 == Apply(q, JobRequest(k)).0
  {
    hide Reclaim;
    if j.topic in q.topics && j.group in q.topics[j.topic].groups {
      var g := q.topics[j.topic].groups[j.group];
      assert AckLease(g, j.leaseId) == g == AckLease(g, k.leaseId);
      assert Unlease(g, j.leaseId) == g == Unlease(g, k.leaseId);
    }
  }

  lemma JobShrinksTopic(t: TopicState, j: AckJob, leases: nat, group: Name, l: nat)
    requires TopicInv(t, leases)
    ensures var r := if j.nack then NackTopic(t, j.group, j.leaseId) else Reclaim(AckTopic(t, j.group, j.leaseId));
            group in r.groups && l in r.groups[group].inFlight ==>
              && group in t.groups && l in t.groups[group].inFlight
              && !(group == j.group && l == j.leaseId)
  {
    hide TopicInv, Reclaim, DropConsumed, AckLease, Unlease;
    if !j.nack {
      AckKeeps(t, j.group, j.leaseId, leases);
      ReclaimSize(AckTopic(t, j.group, j.leaseId), leases);
    }
    if j.group in t.groups {
      AckShrinks(t.groups[j.group], j.leaseId);
    }
  }

  lemma AckShrinks(g: GroupState, l: nat)
    ensures AckLease(g, l).inFlight == g.inFlight - {l} && Unlease(g, l).inFlight == g.inFlight - {l}
  {
  }

  /** A job only takes leases away, and always its own. */
  lemma JobShrinks(q: QueueState, j: AckJob, topic: Name, group: Name, l: nat)
    requires QueueInv(q) && Leases(Apply(q, JobRequest(j)).0, topic, group, l)
    ensures Leases(q, topic, group, l) && !(topic == j.topic && group == j.group && l == j.leaseId)
  {
    hide TopicInv, Reclaim, AckTopic, NackTopic;
    if j.topic in q.topics {
      JobShrinksTopic(q.topics[j.topic], j, q.nextLeaseId, group, l);
    }
  }

  lemma SpentMore(q: QueueState, seen: set<AckJob>, idle: nat, j: AckJob)
    requires QueueInv(q) && Spent(q, seen, idle)
    ensures Spent(Apply(q, JobRequest(j)).0, seen + {j}, idle)
  {
    hide QueueInv, Apply, Leases;
    var r := Apply(q, JobRequest(j)).0;
    forall topic, group, l: nat | Leases(r, topic, group, l)
      ensures Leases(q, topic, group, l) && !(topic == j.topic && group == j.group && l == j.leaseId)
    {
      JobShrinks(q, j, topic, group, l);
    }
  }

  lemma {:induction false} RunDecided(q: QueueState, seen: set<AckJob>, jobs: seq<AckJob>, idle: nat)
    requires QueueInv(q) && Spent(q, seen, idle)
    ensures Run(q, JobRequests(jobs)) == Run(q, JobRequests(Decided(seen, jobs, idle)))
    decreases |jobs|
  {
    hide QueueInv, Apply, Spent;
    if jobs != [] {
      var j, k := jobs[0], Decide(seen, jobs[0], idle);
      var r := Apply(q, JobRequest(j)).0;
      assert Apply(q, JobRequest(k)).0 == r by {
        if Opposite(j) in seen {
          SpentJobs(q, seen, idle, j);
          IdleJobs(q, j, k);
        }
      }
      JobKeeps(q, j);
      SpentMore(q, seen, idle, j);
      RunDecided(r, seen + {j}, jobs[1..], idle);
    }
  }

  lemma SpentJobs(q: QueueState, seen: set<AckJob>, idle: nat, j: AckJob)
    requires Spent(q, seen, idle) && Opposite(j) in seen
    ensures !Flies(q, j) && !Flies(q, Decide(seen, j, idle))
  {
    hide Leases;
    assert !Flies(q, Opposite(j));
  }

  /** Every batch does what the closed form of its rewriting says. */
  lemma BatchMeans(q: QueueState, jobs: seq<AckJob>, idle: nat)
    requires QueueInv(q) && Spent(q, {}, idle) && forall k | k in jobs :: k.leaseId < idle
    ensures Run(q, JobRequests(jobs)) == SettledQueue(q, Elements(Decided({}, jobs, idle)))
  {
    hide QueueInv, Spent, NoConflict, Run, SettledQueue, Decided;
    RunDecided(q, {}, jobs, idle);
    DecidedHasNoConflict(jobs, idle);
    JobsOneByOne(q, Decided({}, jobs, idle));
  }

  // ---------------------------------------------------------------- comparing two batches

  /** Settling looks only at leases in flight. */
  lemma SettleGroupLooks(g: GroupState, acks: set<nat>, nacks: set<nat>, acks': set<nat>, nacks': set<nat>)
    requires forall l | l in g.inFlight :: (l in acks <==> l in acks') && (l in nacks <==> l in nacks')
    ensures SettleGroup(g, acks, nacks) == SettleGroup(g, acks', nacks')
  {
    hide Slid;
    assert OffsetsOf(g, acks) == OffsetsOf(g, acks');
    assert g.inFlight - (acks + nacks) == g.inFlight - (acks' + nacks');
    assert OffsetsOf(g, acks + nacks) == OffsetsOf(g, acks' + nacks');
    assert DropLeases(g, acks + nacks) == DropLeases(g, acks' + nacks');
  }

  /** The two sets of jobs ask the same of every lease in flight, and acknowledge on the same topics. */
  ghost predicate Agree(q: QueueState, a: set<AckJob>, b: set<AckJob>) {
    && (forall j | Flies(q, j) :: j in a <==> j in b)
    && (forall topic | topic in q.topics :: HasAck(a, topic) <==> HasAck(b, topic))
  }

  lemma AgreeingSettles(q: QueueState, a: set<AckJob>, b: set<AckJob>)
    requires Agree(q, a, b)
    ensures SettledQueue(q, a) == SettledQueue(q, b)
  {
    hide Agree, SettledTopic;
    forall n | n in q.topics ensures SettledTopic(q.topics[n], n, a) == SettledTopic(q.topics[n], n, b) {
      AgreeingTopic(q, a, b, n);
    }
  }

  lemma AgreeingTopic(q: QueueState, a: set<AckJob>, b: set<AckJob>, n: Name)
    requires Agree(q, a, b) && n in q.topics
    ensures SettledTopic(q.topics[n], n, a) == SettledTopic(q.topics[n], n, b)
  {
    hide Agree, SettleGroup, DropConsumed, LeasesFor, HasAck;
    var groups := q.topics[n].groups;
    forall g | g in groups ensures SettledGroups(groups, n, a)[g] == SettledGroups(groups, n, b)[g] {
      LeasesAgree(q, a, b, n, g);
      SettleGroupLooks(groups[g], LeasesFor(a, n, g, false), LeasesFor(a, n, g, true),
                       LeasesFor(b, n, g, false), LeasesFor(b, n, g, true));
    }
    assert SettledGroups(groups, n, a) == SettledGroups(groups, n, b);
    AgreeAcks(q, a, b, n);
  }

  lemma AgreeAcks(q: QueueState, a: set<AckJob>, b: set<AckJob>, topic: Name)
    requires Agree(q, a, b) && topic in q.topics
    ensures HasAck(a, topic) <==> HasAck(b, topic)
  {
  }

  lemma LeasesAgree(q: QueueState, a: set<AckJob>, b: set<AckJob>, topic: Name, group: Name)
    requires Agree(q, a, b) && topic in q.topics && group in q.topics[topic].groups
    ensures forall l | l in q.topics[topic].groups[group].inFlight ::
              && (l in LeasesFor(a, topic, group, false) <==> l in LeasesFor(b, topic, group, false))
              && (l in LeasesFor(a, topic, group, true) <==> l in LeasesFor(b, topic, group, true))
  {
    forall l | l in q.topics[topic].groups[group].inFlight
      ensures l in LeasesFor(a, topic, group, false) <==> l in LeasesFor(b, topic, group, false)
      ensures l in LeasesFor(a, topic, group, true) <==> l in LeasesFor(b, topic, group, true)
    {
      assert Flies(q, AckJob(topic, group, l, false)) && Flies(q, AckJob(topic, group, l, true));
      InLeasesFor(a, topic, group, l);
      InLeasesFor(b, topic, group, l);
    }
  }

  lemma InLeasesFor(jobs: set<AckJob>, topic: Name, group: Name, l: nat)
    ensures l in LeasesFor(jobs, topic, group, false) <==> AckJob(topic, group, l, false) in jobs
    ensures l in LeasesFor(jobs, topic, group, true) <==> AckJob(topic, group, l, true) in jobs
  {
  }

  /** In the closed form, the offset of a lease in flight is done exactly if the lease is acknowledged. */
  lemma SettledDone(q: QueueState, jobs: set<AckJob>, j: AckJob)
    requires QueueInv(q) && Flies(q, j) && !j.nack
    ensures DoneIn(SettledQueue(q, jobs), j.topic, j.group, q.topics[j.topic].groups[j.group].inFlight[j.leaseId].offset)
       <==> j in jobs
  {
    hide TopicInv, SettleGroup, LeasesFor, DropConsumed, IsDone;
    var t := q.topics[j.topic];
    SettledGroupDone(t, j.group, LeasesFor(jobs, j.topic, j.group, false), LeasesFor(jobs, j.topic, j.group, true),
                     j.leaseId, q.nextLeaseId);
    InLeasesFor(jobs, j.topic, j.group, j.leaseId);
    GroupsUntouched(t.(groups := SettledGroups(t.groups, j.topic, jobs)));
  }

  lemma SettledGroupDone(t: TopicState, group: Name, acks: set<nat>, nacks: set<nat>, l: nat, leases: nat)
    requires TopicInv(t, leases) && group in t.groups && l in t.groups[group].inFlight
    ensures IsDone(SettleGroup(t.groups[group], acks, nacks), t.groups[group].inFlight[l].offset) <==> l in acks
  {
    var g := t.groups[group];
    assert GroupInv(g, Base(t), t.nextOffset, leases);
    SettleGroupFacts(g, acks, nacks, Base(t), t.nextOffset, leases);
    hide TopicInv, SettleGroup, Base;
    assert !IsDone(g, g.inFlight[l].offset);
  }

  // ---------------------------------------------------------------- the regrouped batch

  /** In key order the acknowledgements of a group come before what it gives back. */
  predicate AcksFirst(keys: seq<GroupKey>) {
    forall i, j | 0 <= i < j < |keys| :: keys[i] == keys[j].(nack := !keys[j].nack) ==> keys[j].nack
  }

  lemma {:induction false} LeadsAppend(a: seq<AckJob>, b: seq<AckJob>, j: AckJob)
    requires Opposite(j) !in a
    ensures Leads(a + b, j) <==> j in a || Leads(b, j)
    decreases |a|
  {
    if a == [] {
      assert a + b == b;
    } else {
      assert (a + b)[1..] == a[1..] + b && a == [a[0]] + a[1..];
      LeadsAppend(a[1..], b, j);
    }
  }

  lemma {:induction false} AcksLead(groups: map<GroupKey, seq<nat>>, keys: seq<GroupKey>, j: AckJob)
    requires (forall k | k in keys :: k in groups) && AcksFirst(keys) && !j.nack && j in Flat(groups, keys)
    ensures Leads(Flat(groups, keys), j)
    decreases |keys|
  {
    if keys != [] {
      var own, rest := JobsOf(keys[0], groups[keys[0]]), Flat(groups, keys[1..]);
      JobsOfMembers(keys[0], groups[keys[0]]);
      FlatMembers(groups, keys[1..]);
      assert keys == [keys[0]] + keys[1..];
      if j in own {
        assert Opposite(j) !in own;
      } else {
        var i :| 0 <= i < |keys[1..]| && keys[1..][i] == KeyOf(j);
        assert keys[i + 1] == KeyOf(j);
        assert AcksFirst(keys[1..]) by {
          forall a, b | 0 <= a < b < |keys[1..]| ensures keys[1..][a] == keys[1..][b].(nack := !keys[1..][b].nack) ==> keys[1..][b].nack {
            assert keys[a + 1] == keys[1..][a] && keys[b + 1] == keys[1..][b];
          }
        }
        AcksLead(groups, keys[1..], j);
      }
      LeadsAppend(own, rest, j);
    }
  }

  // ---------------------------------------------------------------- the exact condition

  /** Of a lease in flight that the batch both acknowledges and gives back, the acknowledgement comes first. */
  ghost predicate AckComesFirst(q: QueueState, jobs: seq<AckJob>) {
    forall j | j in jobs && Opposite(j) in jobs && !j.nack && Flies(q, j) :: Leads(jobs, j)
  }

  function Above(jobs: seq<AckJob>): (n: nat)
    ensures forall j | j in jobs :: j.leaseId < n
  {
    if jobs == [] then 0 else Max(jobs[0].leaseId + 1, Above(jobs[1..]))
  }

  lemma NothingSpent(q: QueueState, idle: nat)
    requires QueueInv(q) && idle >= q.nextLeaseId
    ensures Spent(q, {}, idle)
  {
    forall topic, group, l: nat | Leases(q, topic, group, l) ensures l < idle {
      var t := q.topics[topic];
      assert GroupInv(t.groups[group], Base(t), t.nextOffset, q.nextLeaseId);
    }
  }

  lemma SameDecisions(q: QueueState, jobs: seq<AckJob>, flat: seq<AckJob>, idle: nat)
    requires AckComesFirst(q, jobs) && AckComesFirst(q, flat) && Elements(flat) == Elements(jobs)
    requires (forall k | k in jobs :: k.leaseId < idle) && (forall k | k in flat :: k.leaseId < idle)
    requires Spent(q, {}, idle)
    ensures Agree(q, Elements(Decided({}, jobs, idle)), Elements(Decided({}, flat, idle)))
  {
    hide Decided, Leads;
    var a, b := Decided({}, jobs, idle), Decided({}, flat, idle);
    forall j | Flies(q, j) ensures j in a <==> j in b {
      assert j.leaseId < idle;
      SameDecision(q, jobs, flat, idle, j);
    }
    forall topic | topic in q.topics ensures HasAck(Elements(a), topic) <==> HasAck(Elements(b), topic) {
      DecidedAcks({}, jobs, idle, topic);
      DecidedAcks({}, flat, idle, topic);
    }
  }

  lemma SameDecision(q: QueueState, jobs: seq<AckJob>, flat: seq<AckJob>, idle: nat, j: AckJob)
    requires AckComesFirst(q, jobs) && AckComesFirst(q, flat) && Elements(flat) == Elements(jobs)
    requires (forall k | k in jobs :: k.leaseId < idle) && (forall k | k in flat :: k.leaseId < idle)
    requires Flies(q, j) && j.leaseId < idle
    ensures j in Decided({}, jobs, idle) <==> j in Decided({}, flat, idle)
  {
    hide Decided, Leads;
    DecidedMembers({}, jobs, idle, j);
    DecidedMembers({}, flat, idle, j);
    LeadsIsIn(jobs, j);
    LeadsIsIn(flat, j);
    assert j in Elements(jobs) <==> j in Elements(flat);
    assert Opposite(j) in Elements(jobs) <==> Opposite(j) in Elements(flat);
    assert Flies(q, Opposite(j)) && Opposite(Opposite(j)) == j;
  }

  lemma FlatComesFirst(q: QueueState, groups: map<GroupKey, seq<nat>>, keys: seq<GroupKey>)
    requires (forall k | k in keys :: k in groups) && AcksFirst(keys)
    ensures AckComesFirst(q, Flat(groups, keys))
  {
    var flat := Flat(groups, keys);
    forall j | j in flat && !j.nack ensures Leads(flat, j) {
      AcksLead(groups, keys, j);
    }
  }

  /** Writing the groups in key order gives the state of applying the jobs one by one if and only if, of every lease in
      flight that the batch both acknowledges and gives back, the acknowledgement comes first. */
  lemma RegroupingPreservesIff(q: QueueState, jobs: seq<AckJob>, keys: seq<GroupKey>)
    requires QueueInv(q) && Elements(keys) == Partition(jobs).Keys && AcksFirst(keys)
    ensures forall k | k in keys :: k in Partition(jobs)
    ensures Run(q, GroupRequests(Partition(jobs), keys)) == Run(q, JobRequests(jobs)) <==> AckComesFirst(q, jobs)
  {
    hide QueueInv, Partition, Run, Flat, Spent, SettledQueue, Decided, Agree;
    var groups := Partition(jobs);
    PartitionFacts(jobs);
    assert forall k | k in keys :: k in Elements(keys);
    GroupsAreFlat(q, groups, keys);
    var flat := Flat(groups, keys);
    FlatIsJobs(jobs, keys);
    FlatComesFirst(q, groups, keys);
    var idle := q.nextLeaseId + Above(jobs);
    NothingSpent(q, idle);
    forall k | k in flat ensures k.leaseId < idle {
      assert k in Elements(flat) && k in Elements(jobs);
    }
    BatchMeans(q, jobs, idle);
    BatchMeans(q, flat, idle);
    if AckComesFirst(q, jobs) {
      SameDecisions(q, jobs, flat, idle);
      AgreeingSettles(q, Elements(Decided({}, jobs, idle)), Elements(Decided({}, flat, idle)));
    } else {
      DecisionsDiffer(q, jobs, flat, idle);
    }
  }

  lemma DecisionsDiffer(q: QueueState, jobs: seq<AckJob>, flat: seq<AckJob>, idle: nat)
    requires QueueInv(q) && !AckComesFirst(q, jobs) && AckComesFirst(q, flat) && Elements(flat) == Elements(jobs)
    requires (forall k | k in jobs :: k.leaseId < idle) && (forall k | k in flat :: k.leaseId < idle)
    ensures SettledQueue(q, Elements(Decided({}, jobs, idle))) != SettledQueue(q, Elements(Decided({}, flat, idle)))
  {
    hide QueueInv, Decided, Leads, SettledQueue, DoneIn;
    var j :| j in jobs && Opposite(j) in jobs && !j.nack && Flies(q, j) && !Leads(jobs, j);
    DecidedMembers({}, jobs, idle, j);
    DecidedMembers({}, flat, idle, j);
    assert j in Elements(flat) && Opposite(j) in Elements(jobs) && Opposite(j) in Elements(flat);
    SettledDone(q, Elements(Decided({}, jobs, idle)), j);
    SettledDone(q, Elements(Decided({}, flat, idle)), j);
  }

  /** Whatever else is in the batch, the offset of a lease in flight is done after it if and only if the lease is
      acknowledged in it before it is given back. */
  lemma BatchFinishes(q: QueueState, jobs: seq<AckJob>, j: AckJob)
    requires QueueInv(q) && Flies(q, j) && !j.nack
    ensures DoneIn(Run(q, JobRequests(jobs)), j.topic, j.group, q.topics[j.topic].groups[j.group].inFlight[j.leaseId].offset)
       <==> Leads(jobs, j)
  {
    hide QueueInv, Run, Spent, SettledQueue, Decided, DoneIn, Leads;
    var idle := q.nextLeaseId + Above(jobs) + j.leaseId + 1;
    NothingSpent(q, idle);
    BatchMeans(q, jobs, idle);
    SettledDone(q, Elements(Decided({}, jobs, idle)), j);
    DecidedMembers({}, jobs, idle, j);
  }

  // ---------------------------------------------------------------- a batch that changes its meaning

  /** A first poll of a topic that has messages leases one under the next lease id. */
  lemma NewGroupLeases(t: TopicState, group: Name, max: u32, visibilityMs: nat, tsMs: nat, lease: nat)
    requires TopicInv(t, lease) && lease <= MAX_COUNTER && max >= 1 && t.groups == map[] && t.messages != map[]
    ensures var r := PollTopic(t, group, max, visibilityMs, tsMs, lease).topic;
            && group in r.groups && lease in r.groups[group].inFlight
            && r.groups[group].inFlight[lease].offset in t.messages
  {
    assert Sweep(t, tsMs) == t && Admits(t, group) by { NobodySwept(t, tsMs); }
    hide TopicInv, Sweep, Chosen, IssueLeases, Issued, Refreshed, Candidates, Base;
    var entry := GroupEntry(t, group, Some(tsMs));
    NewRecordOpen(t, group, tsMs);
    CandidatesFacts(t.messages, Refreshed(entry, tsMs));
    var o :| o in t.messages;
    assert Item(t.messages[o].priority, o) in Candidates(t.messages, Refreshed(entry, tsMs));
    ChosenFacts(t.messages, entry, max, tsMs);
    var chosen := Chosen(t.messages, entry, max, tsMs);
    assert chosen[0] in chosen;
    PolledFacts(t, group, max, visibilityMs, tsMs, lease);
    FirstIssued(TopicFacts.Polled(t, group, max, visibilityMs, tsMs, lease), Refreshed(entry, tsMs), chosen, lease,
                DeadlineOf(tsMs, visibilityMs));
  }

  lemma FirstIssued(h: GroupState, g: GroupState, chosen: seq<Item>, lease: nat, deadline: nat)
    requires Issued(h, g, chosen, lease, deadline) && chosen != []
    ensures lease in h.inFlight && h.inFlight[lease].offset == chosen[0].offset
  {
    assert h.inFlight[lease + 0] == Lease(chosen[0].offset, deadline);
  }

  const ITEM := ProduceItem("t", 1, Raw, [], "", 0, 1)
  const STORED := Apply(EMPTY_QUEUE, Produce(ITEM)).0
  const LENT := Apply(STORED, Poll("t", "g", 1, 1000, 1)).0
  const CONFLICT := [AckJob("t", "g", 0, true), AckJob("t", "g", 0, false)]
  const IN_ORDER := [GroupKey("t", "g", false), GroupKey("t", "g", true)]

  lemma OneStored()
    ensures QueueInv(STORED) && STORED.nextLeaseId == 0 && "t" in STORED.topics
    ensures STORED.topics["t"].groups == map[] && STORED.topics["t"].messages.Keys == {0} && Headroom(STORED)
  {
    var t := Stored(EMPTY_TOPIC, ITEM);
    assert ProduceAllowed(EMPTY_QUEUE, [ITEM]) by { OneAllowed(); }
    assert t.messages.Keys == {0} && |t.messages| == |t.messages.Keys|;
    assert PurgeCount(t, 1) == 0;
    assert PurgeRetained(t, 1) == t;
    EmptyQueueInv();
    assert TopicOr(EMPTY_QUEUE, "t") == EMPTY_TOPIC && !IsDuplicate(EMPTY_TOPIC, ITEM);
    assert Step(EMPTY_QUEUE, Call("t", StoreItem(ITEM))) == STORED;
    assert STORED.topics["t"] == t;
    StepKeeps(EMPTY_QUEUE, Call("t", StoreItem(ITEM)));
  }

  lemma OneAllowed()
    ensures ProduceAllowed(EMPTY_QUEUE, [ITEM])
  {
    var created := NewTopics(EMPTY_QUEUE, [ITEM]);
    assert created <= {"t"};
    SubsetSize(created, {"t"});
  }

  lemma FirstLent(q: QueueState, topic: Name, group: Name, max: u32, visibilityMs: u64, tsMs: u64)
    requires QueueInv(q) && Headroom(q) && topic in q.topics && ConsumerOk(topic, group) && max >= 1
    requires q.topics[topic].groups == map[] && q.topics[topic].messages != map[]
    ensures var r := Apply(q, Poll(topic, group, max, visibilityMs, tsMs)).0;
            && QueueInv(r) && Leases(r, topic, group, q.nextLeaseId)
            && r.topics[topic].groups[group].inFlight[q.nextLeaseId].offset in q.topics[topic].messages
  {
    hide QueueInv, TopicInv, PollTopic, Headroom;
    StepKeeps(q, Call(topic, Lend(group, max, visibilityMs, tsMs)));
    TopicOf(q, topic);
    assert q.nextLeaseId <= MAX_COUNTER by { LeaseRoom(q); }
    NewGroupLeases(q.topics[topic], group, max, visibilityMs, tsMs, q.nextLeaseId);
  }

  lemma LeaseRoom(q: QueueState)
    requires Headroom(q)
    ensures q.nextLeaseId <= MAX_COUNTER
  {
  }

  lemma OneLent()
    ensures QueueInv(LENT) && Leases(LENT, "t", "g", 0) && LENT.topics["t"].groups["g"].inFlight[0].offset == 0
  {
    OneStored();
    hide Apply, QueueInv, Headroom;
    FirstLent(STORED, "t", "g", 1, 1000, 1);
  }

  /** A real batch that means something else once it is regrouped. From the empty queue one message is produced and polled;
      the batch gives its lease back and then acknowledges it. Job by job the message is still to be delivered; written by
      groups in key order it is done. */
  lemma ConflictChangesMeaning()
    ensures LENT == Run(EMPTY_QUEUE, [Produce(ITEM), Poll("t", "g", 1, 1000, 1)])
    ensures Elements(IN_ORDER) == Partition(CONFLICT).Keys && forall k | k in IN_ORDER :: k in Partition(CONFLICT)
    ensures !DoneIn(Run(LENT, JobRequests(CONFLICT)), "t", "g", 0)
    ensures DoneIn(Run(LENT, GroupRequests(Partition(CONFLICT), IN_ORDER)), "t", "g", 0)
  {
    OneLent();
    hide Apply, QueueInv, Leases, DoneIn, Run;
    assert LENT == Run(EMPTY_QUEUE, [Produce(ITEM), Poll("t", "g", 1, 1000, 1)]) by {
      TwoRequests(EMPTY_QUEUE, Produce(ITEM), Poll("t", "g", 1, 1000, 1));
    }
    var ack, nack := AckJob("t", "g", 0, false), AckJob("t", "g", 0, true);
    PartitionOfTwo(nack, ack);
    var groups := Partition(CONFLICT);
    BatchFinishes(LENT, CONFLICT, ack);
    assert CONFLICT[0] == Opposite(ack) && CONFLICT[0] != ack;
    GroupsAreFlat(LENT, groups, IN_ORDER);
    var flat := Flat(groups, IN_ORDER);
    assert flat[0] == ack by { assert JobsOf(IN_ORDER[0], [0]) == [ack] + JobsOf(IN_ORDER[0], [0][1..]); }
    BatchFinishes(LENT, flat, ack);
  }

  lemma TwoRequests(q: QueueState, a: Request, b: Request)
    ensures Run(q, [a, b]) == Apply(Apply(q, a).0, b).0
  {
    hide Apply;
    assert [a, b][1..] == [b] && [b][1..] == [];
    assert Run(Apply(q, a).0, [b]) == Run(Apply(Apply(q, a).0, b).0, []);
  }

  lemma PartitionOfTwo(a: AckJob, b: AckJob)
    requires KeyOf(a) != KeyOf(b)
    ensures Partition([a, b]) == map[KeyOf(a) := [a.leaseId], KeyOf(b) := [b.leaseId]]
  {
    assert [a, b][..1] == [a] && [a][..0] == [];
    assert Partition([]) == map[];
    assert Partition([a]) == Push(map[], a);
    assert [] + [a.leaseId] == [a.leaseId] && [] + [b.leaseId] == [b.leaseId];
    assert Partition([a, b]) == Push(Partition([a]), b);
  }
}
