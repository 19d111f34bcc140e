/** A topic's record, updated in place by the loops of the source. A group is taken out, changed, and put back, as a
    borrowed entry of the map is. */
module TopicObject {
  import opened Collections
  import opened Model
  import opened Groups
  import opened Topics
  import opened Selection
  import opened GroupObject

  class Topic {
    var nextOffset: nat
    var messages: map<nat, Message>
    var dedup: Dedup
    var groups: map<Name, GroupState>
    var rateMilliPerSec: nat
    var burst: nat
    var retainMaxMessages: nat
    var retainMaxAgeMs: nat

    constructor (t: TopicState)
      ensures State() == t
    {
      nextOffset, messages, dedup, groups := t.nextOffset, t.messages, t.dedup, t.groups;
      rateMilliPerSec, burst := t.rateMilliPerSec, t.burst;
      retainMaxMessages, retainMaxAgeMs := t.retainMaxMessages, t.retainMaxAgeMs;
    }

    function State(): TopicState
      reads this
    {
      TopicState(nextOffset, messages, dedup, groups, rateMilliPerSec, burst, retainMaxMessages, retainMaxAgeMs)
    }

    // -------------------------------------------------------------- retention

    method CountAged(nowMs: nat, maxAgeMs: nat) returns (n: nat)
      ensures n == AgedOut(SortedKeys(messages.Keys), messages, nowMs, maxAgeMs)
    {
      hide SortedKeys;
      var keys := SortedKeys(messages.Keys);
      n := 0;
      while n < |keys| && SatSub(nowMs, messages[keys[n]].tsMs) > maxAgeMs
        invariant n <= |keys|
        invariant AgedOut(keys, messages, nowMs, maxAgeMs) == n + AgedOut(keys[n..], messages, nowMs, maxAgeMs)
      {
        assert keys[n..][0] == keys[n] && keys[n..][1..] == keys[n + 1..];
        n := n + 1;
      }
    }

    /** The offsets retention removes, gathered by age and then by count. */
    method GatherPurge(nowMs: nat) returns (purge: set<nat>)
      ensures purge == Elements(SortedKeys(messages.Keys)[..PurgeCount(State(), nowMs)])
    {
      hide SortedKeys, AgedOut, Elements;
      var maxMessages, maxAgeMs := retainMaxMessages, retainMaxAgeMs;
      if maxMessages == 0 && maxAgeMs == 0 {
        maxMessages := DEFAULT_RETAIN_MAX_MESSAGES;
      }
      var keys := SortedKeys(messages.Keys);
      var n := 0;
      if maxAgeMs > 0 {
        n := CountAged(nowMs, maxAgeMs);
      }
      assert n <= |keys| && |keys| == |messages|;
      purge := Elements(keys[..n]);
      PrefixSize(keys, n);
      if maxMessages > 0 {
        var kept := |messages| - |purge|;
        if kept > maxMessages {
          purge := GatherOldest(keys, n, kept - maxMessages);
        }
      }
    }

    /** Of the keys after the first `n`, which are gathered already, gather `need` more. */
    static method GatherOldest(keys: seq<nat>, n: nat, need: nat) returns (purge: set<nat>)
      requires Increasing(keys) && n + need <= |keys|
      ensures purge == Elements(keys[..n + need])
    {
      hide Elements;
      purge := Elements(keys[..n]);
      var i, left := 0, need;
      while i < |keys| && left > 0
        invariant 0 <= i <= |keys| && left == n + need - Max(n, i)
        invariant purge == Elements(keys[..Max(n, i)])
      {
        PrefixGrows(keys, n, i);
        if keys[i] !in purge {
          purge := purge + {keys[i]};
          left := left - 1;
        }
        i := i + 1;
      }
    }

    method RaiseAll(boundary: nat)
      modifies this`groups
      ensures groups == RaiseGroups(old(groups), boundary)
    {
      hide AdvanceWatermark;
      var left := groups.Keys;
      while left != {}
        invariant left <= old(groups).Keys && groups.Keys == old(groups).Keys
        invariant forall n | n in left :: groups[n] == old(groups)[n]
        invariant forall n | n in groups && n !in left :: groups[n] == RaiseGroups(old(groups), boundary)[n]
        decreases |left|
      {
        var n :| n in left;
        if boundary > groups[n].watermark {
          var g := new Group(groups[n]);
          g.Advance(boundary);
          groups := groups[n := g.State()];
        }
        left := left - {n};
      }
    }

    method Prune(boundary: nat)
      modifies this`dedup
      ensures dedup == PruneDedup(old(dedup), boundary)
    {
      while dedup.order != [] && (dedup.order[0] in dedup.entries ==> dedup.entries[dedup.order[0]] < boundary)
        invariant PruneDedup(dedup, boundary) == PruneDedup(old(dedup), boundary)
        decreases |dedup.order|
      {
        dedup := Dedup(dedup.entries - {dedup.order[0]}, dedup.order[1..]);
      }
    }

    method Purge(nowMs: nat)
      modifies this`messages, this`groups, this`dedup
      ensures State() == PurgeRetained(old(State()), nowMs)
    {
      hide RaiseGroups, PruneDedup, PurgeCount;
      var purge := GatherPurge(nowMs);
      NothingToPurge(SortedKeys(messages.Keys), PurgeCount(State(), nowMs));
      hide SortedKeys;
      if purge == {} {
        return;
      }
      messages := messages - purge;
      var boundary := FirstOffset(messages, nextOffset);
      RaiseAll(boundary);
      Prune(boundary);
    }

    // -------------------------------------------------------------- produce

    method Evict()
      modifies this`dedup
      ensures dedup == EvictDedup(old(dedup))
    {
      while |dedup.order| > DEDUP_CAPACITY
        invariant EvictDedup(dedup) == EvictDedup(old(dedup))
        decreases |dedup.order|
      {
        dedup := Dedup(dedup.entries - {dedup.order[0]}, dedup.order[1..]);
      }
    }

    method ProduceOne(item: ProduceItem) returns (offset: nat)
      modifies this`nextOffset, this`messages, this`groups, this`dedup
      ensures (State(), offset) == ProduceTo(old(State()), item)
    {
      hide PurgeRetained, EvictDedup;
      var key := (item.producerId, item.seqNo);
      if item.producerId != "" {
        if key in dedup.entries {
          offset := dedup.entries[key];
          Purge(item.tsMs);
          return;
        }
      }
      offset := nextOffset;
      nextOffset := SatAdd(nextOffset, 1);
      messages := messages[offset := Message(offset, item.priority, item.contentType, item.payload, item.tsMs)];
      if item.producerId != "" {
        dedup := Dedup(dedup.entries[key := offset], dedup.order + [key]);
        Evict();
      }
      assert State() == Stored(old(State()), item);
      Purge(item.tsMs);
    }

    // -------------------------------------------------------------- reclaiming and idle groups

    method ReclaimDone()
      modifies this`messages, this`groups
      ensures State() == Reclaim(old(State()))
    {
      if groups != map[] {
        ghost var n :| n in groups;
        assert groups[n].watermark in Watermarks(groups);
        var boundary := MinOf(Watermarks(groups));
        if messages != map[] && boundary > MinOf(messages.Keys) {
          messages := map o | o in messages && o >= boundary :: messages[o];
        }
      } else {
        assert Watermarks(groups) == {};
      }
      assert State() == DropConsumed(old(State()));
      hide DropConsumed;
      if |groups| <= GROUP_GC_THRESHOLD || messages != map[] {
        return;
      }
      groups := map n | n in groups && !(groups[n].watermark >= nextOffset && groups[n].inFlight == map[] &&
                                         groups[n].leasedOffsets == map[] && groups[n].ackedAbove == {})
                :: groups[n];
    }

    method StampAll(nowMs: nat)
      modifies this`groups
      ensures groups == AllStamped(old(groups), nowMs)
    {
      groups := map n | n in groups ::
        if groups[n].lastActiveMs == 0 then groups[n].(lastActiveMs := nowMs) else groups[n];
    }

    method KeepActive(nowMs: nat)
      modifies this`groups
      ensures groups == Active(old(groups), nowMs)
    {
      groups := map n | n in groups && (SatSub(nowMs, groups[n].lastActiveMs) <= GROUP_IDLE_EXPIRE_MS ||
                                        exists l | l in groups[n].inFlight :: groups[n].inFlight[l].deadlineMs > nowMs)
                :: groups[n];
    }

    /** Stamp the unstamped, then keep the groups that are active or hold a running lease. */
    method SweepIdle(nowMs: nat) returns (changed: bool)
      modifies this`groups
      ensures State() == SweepIdleGroups(old(State()), nowMs)
      ensures changed <==> |groups| != |old(groups)|
    {
      hide AllStamped, Active, SweepIdleGroups;
      StampAll(nowMs);
      var before := |groups|;
      KeepActive(nowMs);
      StampThenKeep(old(State()), nowMs);
      changed := |groups| != before;
    }

    method SweepAndReclaim(nowMs: nat)
      modifies this`messages, this`groups
      ensures State() == Sweep(old(State()), nowMs)
    {
      hide Reclaim, SweepIdleGroups;
      var changed := SweepIdle(nowMs);
      if changed {
        ReclaimDone();
      }
    }

    // -------------------------------------------------------------- consuming

    method Open(g: GroupState) returns (candidates: seq<Item>)
      ensures candidates == Candidates(messages, g)
    {
      hide SortedKeys;
      var keys := SortedKeys(messages.Keys);
      candidates := [];
      for i := 0 to |keys|
        invariant candidates + OpenItems(keys[i..], messages, g) == OpenItems(keys, messages, g)
      {
        assert keys[i..][0] == keys[i] && keys[i..][1..] == keys[i + 1..];
        if keys[i] >= g.watermark && keys[i] !in g.ackedAbove && keys[i] !in g.leasedOffsets {
          candidates := candidates + [Item(messages[keys[i]].priority, keys[i])];
        }
      }
      assert keys[|keys|..] == [];
    }

    method Choose(entry: GroupState, max: nat, tsMs: nat) returns (chosen: seq<Item>)
      ensures chosen == Chosen(messages, entry, max, tsMs)
    {
      hide Candidates, ReferenceSelection, Refreshed;
      var g := Refreshed(entry, tsMs);
      CandidatesFacts(messages, g);
      if max == 0 {
        SelectionFacts(Candidates(messages, g), max, entry.pollCount);
        return [];
      }
      var candidates := Open(g);
      chosen := Select(candidates, max, entry.pollCount);
    }

    method PollGroup(group: Name, max: nat, visibilityMs: nat, tsMs: nat, firstLease: u64)
      returns (items: seq<Delivered>, nextLease: u64)
      modifies this`messages, this`groups
      ensures PollResult(State(), items, nextLease) == PollTopic(old(State()), group, max, visibilityMs, tsMs, firstLease)
    {
      hide Sweep, Chosen, Expire, IssueLeases, Deliveries;
      SweepAndReclaim(tsMs);
      if group !in groups && |groups| >= MAX_GROUPS_PER_TOPIC {
        return [], firstLease;
      }
      var first := if messages == map[] then nextOffset else MinOf(messages.Keys);
      var entry := if group in groups then groups[group] else GroupState(first, {}, map[], map[], 0, tsMs);
      assert entry == GroupEntry(State(), group, Some(tsMs));
      var g := new Group(entry);
      g.ReleaseDue(tsMs);
      g.lastActiveMs := Max(g.lastActiveMs, tsMs);
      g.pollCount := SatAdd(g.pollCount, 1);
      ExpireKeepsRest(entry, tsMs);
      assert g.State() == Refreshed(entry, tsMs);
      var chosen := Choose(entry, max, tsMs);
      items, nextLease := g.Issue(messages, chosen, firstLease, SatAdd(tsMs, Min(visibilityMs, MAX_VISIBILITY_MS)));
      groups := groups[group := g.State()];
    }

    method AckLeaseOf(group: Name, leaseId: nat)
      modifies this`groups
      ensures State() == AckTopic(old(State()), group, leaseId)
    {
      hide AckLease;
      if group in groups {
        var g := new Group(groups[group]);
        g.Settle(leaseId);
        groups := groups[group := g.State()];
      }
    }

    method NackLeaseOf(group: Name, leaseId: nat)
      modifies this`groups
      ensures State() == NackTopic(old(State()), group, leaseId)
    {
      hide Unlease;
      if group in groups {
        var g := new Group(groups[group]);
        g.Release(leaseId);
        groups := groups[group := g.State()];
      }
    }

    method Commit(group: Name, offset: nat, nowMs: Option<nat>)
      modifies this`messages, this`groups
      ensures State() == CommitTopic(old(State()), group, offset, nowMs)
    {
      hide Sweep, AdvanceWatermark;
      if nowMs.Some? {
        SweepAndReclaim(nowMs.value);
      }
      var to := Min(offset, nextOffset);
      if group !in groups && |groups| >= MAX_GROUPS_PER_TOPIC {
        return;
      }
      var first := if messages == map[] then nextOffset else MinOf(messages.Keys);
      var stamp := if nowMs.Some? then nowMs.value else 0;
      var entry := if group in groups then groups[group] else GroupState(first, {}, map[], map[], 0, stamp);
      assert entry == GroupEntry(State(), group, nowMs);
      var g := new Group(entry);
      g.Advance(to);
      if nowMs.Some? {
        g.lastActiveMs := Max(g.lastActiveMs, nowMs.value);
      }
      groups := groups[group := g.State()];
    }
  }

  function AllStamped(groups: map<Name, GroupState>, nowMs: nat): map<Name, GroupState> {
    map n | n in groups :: Stamped(groups[n], nowMs)
  }

  /** The groups active within the idle limit, or holding a lease that still runs. */
  function Active(groups: map<Name, GroupState>, nowMs: nat): map<Name, GroupState> {
    map n | n in groups && (SatSub(nowMs, groups[n].lastActiveMs) <= GROUP_IDLE_EXPIRE_MS || HoldsRunning(groups[n], nowMs))
          :: groups[n]
  }

  predicate HoldsRunning(g: GroupState, nowMs: nat) {
    exists l | l in g.inFlight :: g.inFlight[l].deadlineMs > nowMs
  }

  /** Stamping first and keeping afterwards is the sweep, and stamping loses no group. */
  lemma StampThenKeep(t: TopicState, nowMs: nat)
    ensures SweepIdleGroups(t, nowMs) == t.(groups := Active(AllStamped(t.groups, nowMs), nowMs))
    ensures |AllStamped(t.groups, nowMs)| == |t.groups|
  {
    var stamped := AllStamped(t.groups, nowMs);
    assert stamped.Keys == t.groups.Keys && |stamped| == |stamped.Keys| && |t.groups| == |t.groups.Keys|;
    forall n | n in t.groups
      ensures Survives(t.groups[n], nowMs) <==>
              SatSub(nowMs, stamped[n].lastActiveMs) <= GROUP_IDLE_EXPIRE_MS || HoldsRunning(stamped[n], nowMs)
    {
      assert stamped[n].inFlight == t.groups[n].inFlight;
    }
    hide Survives, HoldsRunning;
  }

  lemma ExpireKeepsRest(g: GroupState, nowMs: nat)
    ensures var e := Expire(g, nowMs); e.lastActiveMs == g.lastActiveMs && e.pollCount == g.pollCount
  {
  }

  lemma PrefixSize(keys: seq<nat>, n: nat)
    requires Increasing(keys) && n <= |keys|
    ensures |Elements(keys[..n])| == n
  {
    DistinctSize(keys[..n]);
  }

  lemma PrefixGrows(keys: seq<nat>, n: nat, i: nat)
    requires Increasing(keys) && i < |keys| && n <= |keys|
    ensures keys[i] in Elements(keys[..Max(n, i)]) <==> i < n
    ensures i >= n ==> Elements(keys[..i + 1]) == Elements(keys[..i]) + {keys[i]}
  {
    if i < n {
      assert keys[i] in keys[..n];
    } else {
      assert keys[..i + 1] == keys[..i] + [keys[i]];
      assert keys[i] !in keys[..i];
    }
  }

  lemma NothingToPurge(keys: seq<nat>, n: nat)
    requires n <= |keys|
    ensures Elements(keys[..n]) == {} <==> n == 0
  {
    if n > 0 {
      assert keys[..n][0] in Elements(keys[..n]);
    }
  }
}
