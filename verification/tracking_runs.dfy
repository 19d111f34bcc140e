/** What a subscription's bookkeeping keeps over whole runs, when the queue never repeats a lease id. */
module TrackingRuns {
  import opened Collections
  import opened Tracking
  import opened Model
  import opened Groups
  import opened Topics
  import TopicFacts
  import opened Queue
  import opened Invariant
  import Runs
  import opened Delivery

  ghost predicate TrackOk(k: Track) {
    && 1 <= |k.leases| <= MAX_LEASE_ALIASES
    && Distinct(k.leases)
    && k.leaseId == k.leases[|k.leases| - 1]
    && k.refreshes <= MAX_LEASE_REFRESHES
  }

  /** The lease index is the exact inverse of the alias lists. */
  ghost predicate Inverse(tracks: map<nat, Track>, aliases: map<nat, nat>) {
    && (forall l | l in aliases :: aliases[l] in tracks && l in tracks[aliases[l]].leases)
    && (forall o, l | o in tracks && l in tracks[o].leases :: l in aliases && aliases[l] == o)
  }

  ghost predicate TrackInv(t: Tracked, used: set<nat>) {
    && (forall o | o in t.byOffset :: TrackOk(t.byOffset[o]))
    && Inverse(t.byOffset, t.leaseToOffset)
    && t.ackedRecently.Keys !! t.byOffset.Keys
    && t.leaseToOffset.Keys <= used
  }

  // ---------------------------------------------------------------- every operation keeps it

  lemma RenewedOk(k: Track, lease: nat, deadline: u64)
    requires TrackOk(k) && lease !in k.leases
    ensures TrackOk(Renewed(k, lease, deadline))
    ensures forall l :: l in Renewed(k, lease, deadline).leases
                   <==> (l in k.leases || l == lease) && l !in Forgotten(k.leases + [lease])
  {
    var grown := k.leases + [lease];
    assert Distinct(grown);
    assert grown == [grown[0]] + grown[1..];
    forall l ensures l in Renewed(k, lease, deadline).leases
                <==> (l in k.leases || l == lease) && l !in Forgotten(grown) {
      assert l in grown <==> l in k.leases || l == lease;
      if |grown| > MAX_LEASE_ALIASES {
        assert grown[0] !in grown[1..];
        assert l in grown <==> l == grown[0] || l in grown[1..];
      }
    }
  }

  lemma InverseWithout(tracks: map<nat, Track>, aliases: map<nat, nat>, offsets: set<nat>)
    requires Inverse(tracks, aliases)
    ensures Inverse(tracks - offsets, aliases - AliasesOf(tracks, offsets))
  {
    var left := aliases - AliasesOf(tracks, offsets);
    forall o, l | o in tracks - offsets && l in tracks[o].leases ensures l in left && left[l] == o {
      assert l in aliases && aliases[l] == o;
      assert l !in AliasesOf(tracks, offsets);
    }
    forall l | l in left ensures left[l] in tracks - offsets && l in tracks[left[l]].leases {
      assert l in tracks[aliases[l]].leases;
    }
  }

  lemma InverseNew(tracks: map<nat, Track>, aliases: map<nat, nat>, offset: nat, lease: nat, k: Track)
    requires Inverse(tracks, aliases) && offset !in tracks && lease !in aliases && k.leases == [lease]
    ensures Inverse(tracks[offset := k], aliases[lease := offset])
  {
  }

  lemma InverseRenewed(tracks: map<nat, Track>, aliases: map<nat, nat>, offset: nat, lease: nat, k: Track, gone: set<nat>)
    requires Inverse(tracks, aliases) && offset in tracks && lease !in aliases
    requires forall l :: l in k.leases <==> (l in tracks[offset].leases || l == lease) && l !in gone
    requires lease !in gone && forall l | l in gone :: l in tracks[offset].leases
    ensures Inverse(tracks[offset := k], (aliases - gone)[lease := offset])
  {
    var tracks', aliases' := tracks[offset := k], (aliases - gone)[lease := offset];
    forall o, l | o in tracks' && l in tracks'[o].leases ensures l in aliases' && aliases'[l] == o {
      if o != offset {
        assert l in aliases && aliases[l] == o;
      }
    }
  }

  lemma DeliverKeeps(t: Tracked, used: set<nat>, offset: nat, lease: nat, deadline: u64, now: u64)
    requires TrackInv(t, used) && lease !in used
    ensures TrackInv(Deliver(t, offset, lease, deadline, now).0, used + {lease})
  {
    if offset in t.byOffset {
      var k := t.byOffset[offset];
      assert lease !in k.leases;
      RenewedOk(k, lease, deadline);
      assert forall l | l in Forgotten(k.leases + [lease]) :: l == k.leases[0];
      InverseRenewed(t.byOffset, t.leaseToOffset, offset, lease, Renewed(k, lease, deadline), Forgotten(k.leases + [lease]));
    } else {
      InverseNew(t.byOffset, t.leaseToOffset, offset, lease, Track(lease, deadline, 0, [lease]));
    }
    hide Inverse, Renewed, Forgotten, Distinct;
  }

  lemma DroppedKeeps(t: Tracked, used: set<nat>, offset: nat)
    requires TrackInv(t, used) && offset in t.byOffset
    ensures TrackInv(Dropped(t, offset), used)
  {
    hide TrackOk, Inverse, AliasesOf;
    InverseWithout(t.byOffset, t.leaseToOffset, {offset});
    NoAliases(t.byOffset);
    MoreAliases(t.byOffset, {}, offset);
    assert {} + {offset} == {offset};
    assert AliasesOf(t.byOffset, {offset}) == Elements(t.byOffset[offset].leases);
  }

  lemma ResolveKeeps(t: Tracked, used: set<nat>, lease: nat, ackedUntil: Option<u64>)
    requires TrackInv(t, used)
    ensures TrackInv(Resolve(t, lease, ackedUntil).0, used)
  {
    hide TrackOk, Inverse;
    if lease in t.leaseToOffset && t.leaseToOffset[lease] in t.byOffset {
      DroppedKeeps(t, used, t.leaseToOffset[lease]);
    }
  }

  lemma ExpiredKeeps(t: Tracked, used: set<nat>, now: u64, grace: u64)
    requires TrackInv(t, used)
    ensures TrackInv(Expired(t, now, grace), used)
  {
    hide TrackOk, Inverse, AliasesOf, Stale;
    InverseWithout(t.byOffset, t.leaseToOffset, Stale(t, now, grace));
  }

  // ---------------------------------------------------------------- runs

  datatype Act =
    | Hand(offset: nat, lease: nat, deadline: u64, now: u64)
    | Answer(lease: nat, ackedUntil: Option<u64>)
    | Close
    | Sweep(now: u64, grace: u64)

  function Acted(t: Tracked, a: Act): Tracked {
    match a
    case Hand(offset, lease, deadline, now) => Deliver(t, offset, lease, deadline, now).0
    case Answer(lease, ackedUntil) => Resolve(t, lease, ackedUntil).0
    case Close => NOTHING
    case Sweep(now, grace) => Expired(t, now, grace)
  }

  function ActedAll(t: Tracked, acts: seq<Act>): Tracked
    decreases |acts|
  {
    if acts == [] then t else ActedAll(Acted(t, acts[0]), acts[1..])
  }

  function Using(a: Act): set<nat> { if a.Hand? then {a.lease} else {} }

  /** No lease id is handed over twice. */
  predicate Unrepeated(used: set<nat>, acts: seq<Act>)
    decreases |acts|
  {
    acts != [] ==> Using(acts[0]) !! used && Unrepeated(used + Using(acts[0]), acts[1..])
  }

  function UsedBy(used: set<nat>, acts: seq<Act>): set<nat>
    decreases |acts|
  {
    if acts == [] then used else UsedBy(used + Using(acts[0]), acts[1..])
  }

  lemma ActKeeps(t: Tracked, used: set<nat>, a: Act)
    requires TrackInv(t, used) && Using(a) !! used
    ensures TrackInv(Acted(t, a), used + Using(a))
  {
    hide TrackOk, Inverse;
    match a
    case Hand(offset, lease, deadline, now) => DeliverKeeps(t, used, offset, lease, deadline, now);
    case Answer(lease, ackedUntil) => ResolveKeeps(t, used, lease, ackedUntil);
    case Close => assert Inverse(map[], map[]) by { NothingTracked(); }
    case Sweep(now, grace) => ExpiredKeeps(t, used, now, grace);
  }

  lemma NothingTracked()
    ensures TrackInv(NOTHING, {}) && Inverse(map[], map[])
  {
  }

  /** From nothing, under never-repeating lease ids, every run of the four operations keeps the three maps consistent. */
  lemma {:induction false} TrackingKeeps(t: Tracked, used: set<nat>, acts: seq<Act>)
    requires TrackInv(t, used) && Unrepeated(used, acts)
    ensures TrackInv(ActedAll(t, acts), UsedBy(used, acts))
    decreases |acts|
  {
    hide TrackInv, Acted;
    if acts != [] {
      ActKeeps(t, used, acts[0]);
      TrackingKeeps(Acted(t, acts[0]), used + Using(acts[0]), acts[1..]);
    }
  }

  // ---------------------------------------------------------------- lease ids from the queue

  /** The leases handed over, in order. */
  function HandedOver(acts: seq<Act>): seq<nat>
    decreases |acts|
  {
    if acts == [] then [] else (if acts[0].Hand? then [acts[0].lease] else []) + HandedOver(acts[1..])
  }

  lemma {:induction false} DistinctIsUnrepeated(used: set<nat>, acts: seq<Act>)
    requires Distinct(HandedOver(acts)) && forall l | l in HandedOver(acts) :: l !in used
    ensures Unrepeated(used, acts)
    decreases |acts|
  {
    if acts != [] {
      var here, rest := if acts[0].Hand? then [acts[0].lease] else [], HandedOver(acts[1..]);
      assert HandedOver(acts) == here + rest;
      forall i, j | 0 <= i < j < |rest| ensures rest[i] != rest[j] {
        assert rest[i] == (here + rest)[|here| + i] && rest[j] == (here + rest)[|here| + j];
      }
      forall l | l in rest ensures l !in used + Using(acts[0]) {
        var j :| 0 <= j < |rest| && rest[j] == l;
        assert l == (here + rest)[|here| + j] && l in HandedOver(acts);
        assert acts[0].Hand? ==> (here + rest)[0] == acts[0].lease;
      }
      assert acts[0].Hand? ==> acts[0].lease in here + rest;
      DistinctIsUnrepeated(used + Using(acts[0]), acts[1..]);
    }
  }

  lemma {:induction false} IncreasingOnce(s: seq<nat>, x: nat)
    requires Increasing(s)
    ensures multiset(s)[x] <= 1
    decreases |s|
  {
    if s != [] {
      var rest := s[1..];
      assert s == [s[0]] + rest;
      assert Increasing(rest);
      IncreasingOnce(rest, x);
      if x == s[0] {
        assert x !in rest;
      }
    }
  }

  lemma TakenOnce(a: seq<nat>, b: seq<nat>)
    requires Increasing(b) && multiset(a) <= multiset(b)
    ensures Distinct(a)
  {
    forall i, j | 0 <= i < j < |a| ensures a[i] != a[j] {
      if a[i] == a[j] {
        assert a == a[..j] + [a[j]] + a[j + 1..];
        assert a[i] == a[..j][i] && a[i] in multiset(a[..j]);
        assert multiset(a)[a[i]] >= 2;
        IncreasingOnce(b, a[i]);
      }
    }
  }

  /** The queue and a subscription together: if each message of the queue's answers is handed over at most once, in whatever
      order, the three maps stay consistent over every run of the queue and everything the subscription does. */
  lemma TrackingOfQueue(q: QueueState, requests: seq<Request>, acts: seq<Act>)
    requires QueueInv(q) && BelowCeiling(q, requests)
    requires multiset(HandedOver(acts)) <= multiset(Runs.HandedOut(q, requests))
    ensures Unrepeated({}, acts)
    ensures TrackInv(ActedAll(NOTHING, acts), UsedBy({}, acts))
  {
    hide QueueInv, BelowCeiling, Runs.HandedOut, HandedOver, Increasing, TrackInv;
    Runs.LeaseIdsNeverRepeat(q, requests);
    TakenOnce(HandedOver(acts), Runs.HandedOut(q, requests));
    DistinctIsUnrepeated({}, acts);
    NothingTracked();
    TrackingKeeps(NOTHING, {}, acts);
  }

  // ---------------------------------------------------------------- one offset, from its first delivery

  /** The offset is tracked after every act of the run. */
  predicate Stays(t: Tracked, acts: seq<Act>, offset: nat)
    decreases |acts|
  {
    acts != [] ==> offset in Acted(t, acts[0]).byOffset && Stays(Acted(t, acts[0]), acts[1..], offset)
  }

  /** The leases under which the run hands the offset over, oldest first. */
  function Handed(acts: seq<Act>, offset: nat): seq<nat>
    decreases |acts|
  {
    if acts == [] then []
    else (if acts[0].Hand? && acts[0].offset == offset then [acts[0].lease] else []) + Handed(acts[1..], offset)
  }

  function LastEight(leases: seq<nat>): seq<nat> {
    if |leases| > 8 then leases[|leases| - 8..] else leases
  }

  /** The track is what the deliveries so far make it: the aliases are the last eight, the count is theirs modulo three. */
  ghost predicate TellsOf(k: Track, handed: seq<nat>) {
    handed != [] && k.leases == LastEight(handed) && k.refreshes == (|handed| - 1) % 3
  }

  lemma HandTells(t: Tracked, used: set<nat>, offset: nat, lease: nat, deadline: u64, now: u64, handed: seq<nat>)
    requires TrackInv(t, used) && offset in t.byOffset && TellsOf(t.byOffset[offset], handed)
    ensures var (r, outcome) := Deliver(t, offset, lease, deadline, now);
            && offset in r.byOffset && TellsOf(r.byOffset[offset], handed + [lease])
            && outcome == if |handed| % 3 == 0 then Push else Refreshed
  {
    hide Inverse, TrackOk;
    var grown := t.byOffset[offset].leases + [lease];
    assert Trimmed(grown) == LastEight(handed + [lease]);
  }

  lemma OtherActs(t: Tracked, a: Act, offset: nat)
    requires offset in t.byOffset && offset in Acted(t, a).byOffset && !(a.Hand? && a.offset == offset)
    ensures Acted(t, a).byOffset[offset] == t.byOffset[offset]
  {
  }

  /** While an offset stays tracked its track tells of all its deliveries, whatever happens to other offsets. */
  lemma {:induction false} TrackTells(t: Tracked, used: set<nat>, acts: seq<Act>, offset: nat, handed: seq<nat>)
    requires TrackInv(t, used) && Unrepeated(used, acts) && Stays(t, acts, offset)
    requires offset in t.byOffset && TellsOf(t.byOffset[offset], handed)
    ensures offset in ActedAll(t, acts).byOffset
    ensures TellsOf(ActedAll(t, acts).byOffset[offset], handed + Handed(acts, offset))
    decreases |acts|
  {
    hide TrackInv, TellsOf;
    if acts == [] {
      assert handed + [] == handed;
    } else {
      var a := acts[0];
      var r := Acted(t, a);
      ActKeeps(t, used, a);
      var more := if a.Hand? && a.offset == offset then [a.lease] else [];
      if a.Hand? && a.offset == offset {
        HandTells(t, used, offset, a.lease, a.deadline, a.now, handed);
      } else {
        OtherActs(t, a, offset);
        assert handed + more == handed;
      }
      TrackTells(r, used + Using(a), acts[1..], offset, handed + more);
      assert handed + more + Handed(acts[1..], offset) == handed + Handed(acts, offset);
    }
  }

  lemma FirstTells(t: Tracked, first: Act)
    requires first.Hand? && first.offset !in t.byOffset && !Remembered(t, first.offset, first.now)
    ensures first.offset in Acted(t, first).byOffset && TellsOf(Acted(t, first).byOffset[first.offset], [first.lease])
  {
  }

  /** The n-th delivery of an offset since it was first handed over, counted from zero, is pushed to the client exactly
      when n is a multiple of three; the others only renew the lease. */
  lemma EveryThirdIsPushed(t: Tracked, used: set<nat>, first: Act, acts: seq<Act>, last: Act)
    requires TrackInv(t, used) && Unrepeated(used, [first] + acts)
    requires first.Hand? && last.Hand? && first.offset == last.offset
    requires first.offset !in t.byOffset && !Remembered(t, first.offset, first.now)
    requires Stays(t, [first] + acts, first.offset)
    ensures Deliver(t, first.offset, first.lease, first.deadline, first.now).1 == Push
    ensures Deliver(ActedAll(t, [first] + acts), last.offset, last.lease, last.deadline, last.now).1
         == if (1 + |Handed(acts, first.offset)|) % 3 == 0 then Push else Refreshed
  {
    hide TrackInv, TellsOf, Handed, Remembered;
    var r := Acted(t, first);
    assert ([first] + acts)[1..] == acts;
    ActKeeps(t, used, first);
    FirstTells(t, first);
    TrackTells(r, used + Using(first), acts, first.offset, [first.lease]);
    TrackingKeeps(r, used + Using(first), acts);
    HandTells(ActedAll(r, acts), UsedBy(used + Using(first), acts), last.offset, last.lease, last.deadline, last.now,
              [first.lease] + Handed(acts, first.offset));
  }

  /** An answer for any of the last eight leases of a tracked offset is taken for the newest one, and no lease of the
      offset is known afterwards. */
  lemma AnyAliasGivesNewest(t: Tracked, used: set<nat>, offset: nat, handed: seq<nat>, alias: nat, until: Option<u64>)
    requires TrackInv(t, used) && offset in t.byOffset && TellsOf(t.byOffset[offset], handed)
    requires alias in LastEight(handed)
    ensures Resolve(t, alias, until).1 == Some(handed[|handed| - 1])
    ensures offset !in Resolve(t, alias, until).0.byOffset
    ensures forall l | l in LastEight(handed) :: l !in Resolve(t, alias, until).0.leaseToOffset
  {
    assert TrackOk(t.byOffset[offset]);
    assert t.leaseToOffset[alias] == offset;
  }

  // ---------------------------------------------------------------- after an acknowledgement

  predicate AckedUntil(t: Tracked, offset: nat, until: u64) {
    offset in t.ackedRecently && t.ackedRecently[offset] == until
  }

  /** The act happens before `until` and does not close the subscription. */
  predicate Before(a: Act, until: u64) {
    !a.Close? && (a.Hand? || a.Sweep? ==> a.now < until)
  }

  /** Every delivery of the offset in the run is answered as acknowledged already. */
  predicate NeverHanded(t: Tracked, acts: seq<Act>, offset: nat)
    decreases |acts|
  {
    acts != [] ==>
      && (acts[0].Hand? && acts[0].offset == offset ==>
            Deliver(t, offset, acts[0].lease, acts[0].deadline, acts[0].now) == (t, AlreadyAcked))
      && NeverHanded(Acted(t, acts[0]), acts[1..], offset)
  }

  lemma ActKeepsAcked(t: Tracked, used: set<nat>, a: Act, offset: nat, until: u64)
    requires TrackInv(t, used) && AckedUntil(t, offset, until) && Before(a, until)
    ensures AckedUntil(Acted(t, a), offset, until)
  {
    assert offset !in t.byOffset;
    hide TrackOk, Inverse, AliasesOf, Stale;
  }

  /** An acknowledged offset is not handed to the client again before the time it is remembered until, whatever else
      happens on the subscription. */
  lemma {:induction false} AckedStaysAcked(t: Tracked, used: set<nat>, acts: seq<Act>, offset: nat, until: u64)
    requires TrackInv(t, used) && Unrepeated(used, acts) && AckedUntil(t, offset, until)
    requires forall a | a in acts :: Before(a, until)
    ensures AckedUntil(ActedAll(t, acts), offset, until) && NeverHanded(t, acts, offset)
    decreases |acts|
  {
    hide TrackInv;
    if acts != [] {
      assert acts[0] in acts;
      ActKeeps(t, used, acts[0]);
      ActKeepsAcked(t, used, acts[0], offset, until);
      AckedStaysAcked(Acted(t, acts[0]), used + Using(acts[0]), acts[1..], offset, until);
    }
  }

  /** Resolving a lease as acknowledged is what makes its offset so. */
  lemma ResolveAcks(t: Tracked, used: set<nat>, lease: nat, until: u64)
    requires TrackInv(t, used) && lease in t.leaseToOffset
    ensures AckedUntil(Resolve(t, lease, Some(until)).0, t.leaseToOffset[lease], until)
  {
  }

  // ---------------------------------------------------------------- and in the queue

  lemma AckDone(t: TopicState, group: Name, lease: nat, leases: nat)
    requires TopicFacts.TopicInv(t, leases) && group in t.groups && lease in t.groups[group].inFlight
    ensures group in Reclaim(AckTopic(t, group, lease)).groups
    ensures IsDone(Reclaim(AckTopic(t, group, lease)).groups[group], t.groups[group].inFlight[lease].offset)
  {
    var g, acked := t.groups[group], AckTopic(t, group, lease);
    assert GroupInv(g, Base(t), t.nextOffset, leases);
    TopicFacts.AckKeeps(t, group, lease, leases);
    hide GroupInv, AckLease, IsDone;
    AckFacts(g, lease, Base(t), t.nextOffset, leases);
    TopicFacts.ReclaimIsDropConsumed(acked);
    TopicFacts.DropConsumedFacts(acked, leases);
    hide TopicFacts.TopicInv, DropConsumed, Reclaim;
    assert acked.groups[group] == AckLease(g, lease);
  }

  /** Acknowledging a lease in flight finishes its offset for the group, also after the messages done everywhere have
      been dropped. */
  lemma AckCompletes(q: QueueState, topic: Name, group: Name, lease: nat)
    requires QueueInv(q) && Leases(q, topic, group, lease)
    ensures DoneIn(Apply(q, Ack(topic, group, lease)).0, topic, group, q.topics[topic].groups[group].inFlight[lease].offset)
  {
    hide TopicFacts.TopicInv, Reclaim, AckTopic, IsDone;
    AckDone(q.topics[topic], group, lease, q.nextLeaseId);
  }

  /** A late answer completes the message: the client acknowledges any of the last eight leases it was given for the
      offset, and as long as the newest is still in flight the message is done for the group. */
  lemma LateAckCompletes(t: Tracked, used: set<nat>, offset: nat, handed: seq<nat>, alias: nat, until: Option<u64>,
                         q: QueueState, topic: Name, group: Name)
    requires TrackInv(t, used) && offset in t.byOffset && TellsOf(t.byOffset[offset], handed) && alias in LastEight(handed)
    requires QueueInv(q) && Leases(q, topic, group, handed[|handed| - 1])
    requires q.topics[topic].groups[group].inFlight[handed[|handed| - 1]].offset == offset
    ensures Resolve(t, alias, until).1.Some?
    ensures DoneIn(Apply(q, Ack(topic, group, Resolve(t, alias, until).1.value)).0, topic, group, offset)
  {
    hide TrackInv, QueueInv, DoneIn, Apply;
    AnyAliasGivesNewest(t, used, offset, handed, alias, until);
    AckCompletes(q, topic, group, handed[|handed| - 1]);
  }
}
