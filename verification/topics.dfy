/** One topic: its message log, its dedup table and its consumer groups. */
module Topics {
  import opened Collections
  import opened Model
  import opened Groups
  import opened Selection

  // ---------------------------------------------------------------- the message log

  /** The first retained offset, or the next one when nothing is retained. */
  function FirstOffset(messages: map<nat, Message>, next: nat): nat {
    if messages == map[] then next else MinOf(messages.Keys)
  }

  function Base(t: TopicState): nat {
    FirstOffset(t.messages, t.nextOffset)
  }

  function EffectiveRetention(t: TopicState): (nat, nat) {
    if t.retainMaxMessages == 0 && t.retainMaxAgeMs == 0
    then (DEFAULT_RETAIN_MAX_MESSAGES, 0)
    else (t.retainMaxMessages, t.retainMaxAgeMs)
  }

  /** Length of the leading run of messages past their age. */
  function AgedOut(keys: seq<nat>, messages: map<nat, Message>, nowMs: nat, maxAgeMs: nat): (n: nat)
    requires forall k | k in keys :: k in messages
    ensures n <= |keys|
  {
    if keys == [] || SatSub(nowMs, messages[keys[0]].tsMs) <= maxAgeMs then 0
    else 1 + AgedOut(keys[1..], messages, nowMs, maxAgeMs)
  }

  /** How many of the oldest messages retention removes. */
  function PurgeCount(t: TopicState, nowMs: nat): (n: nat)
    ensures n <= |t.messages|
  {
    var (maxMessages, maxAgeMs) := EffectiveRetention(t);
    var keys := SortedKeys(t.messages.Keys);
    var aged := if maxAgeMs > 0 then AgedOut(keys, t.messages, nowMs, maxAgeMs) else 0;
    if maxMessages > 0 then Max(aged, SatSub(|keys|, maxMessages)) else aged
  }

  function DropOldest(messages: map<nat, Message>, n: nat): map<nat, Message>
    requires n <= |messages|
  {
    messages - Elements(SortedKeys(messages.Keys)[..n])
  }

  function RaiseGroups(groups: map<Name, GroupState>, boundary: nat): map<Name, GroupState> {
    map n | n in groups ::
      if boundary > groups[n].watermark then AdvanceWatermark(groups[n], boundary) else groups[n]
  }

  /** The oldest dedup key leaves both structures. */
  function DropFront(d: Dedup): Dedup
    requires d.order != []
  {
    Dedup(d.entries - {d.order[0]}, d.order[1..])
  }

  /** Drop the leading dedup keys whose message lies below the boundary. */
  function PruneDedup(d: Dedup, boundary: nat): Dedup
    decreases |d.order|
  {
    if d.order != [] && (d.order[0] in d.entries ==> d.entries[d.order[0]] < boundary)
    then PruneDedup(DropFront(d), boundary)
    else d
  }

  function PurgeRetained(t: TopicState, nowMs: nat): TopicState {
    var n := PurgeCount(t, nowMs);
    if n == 0 then t else
      var messages := DropOldest(t.messages, n);
      var boundary := FirstOffset(messages, t.nextOffset);
      t.(messages := messages, groups := RaiseGroups(t.groups, boundary), dedup := PruneDedup(t.dedup, boundary))
  }

  // ---------------------------------------------------------------- produce

  function EvictDedup(d: Dedup): Dedup
    decreases |d.order|
  {
    if |d.order| > DEDUP_CAPACITY then EvictDedup(DropFront(d)) else d
  }

  function RememberKey(d: Dedup, key: DedupKey, offset: nat): Dedup {
    EvictDedup(Dedup(d.entries[key := offset], d.order + [key]))
  }

  function MessageOf(item: ProduceItem, offset: nat): Message {
    Message(offset, item.priority, item.contentType, item.payload, item.tsMs)
  }

  function AppendMessage(t: TopicState, item: ProduceItem): TopicState {
    t.(nextOffset := SatAdd(t.nextOffset, 1),
       messages := t.messages[t.nextOffset := MessageOf(item, t.nextOffset)])
  }

  predicate IsDuplicate(t: TopicState, item: ProduceItem) {
    item.producerId != "" && (item.producerId, item.seqNo) in t.dedup.entries
  }

  /** The topic with the item stored and its key remembered, before retention runs. */
  function Stored(t: TopicState, item: ProduceItem): TopicState {
    var appended := AppendMessage(t, item);
    if item.producerId == "" then appended
    else appended.(dedup := RememberKey(t.dedup, (item.producerId, item.seqNo), t.nextOffset))
  }

  function ProduceTo(t: TopicState, item: ProduceItem): (TopicState, nat) {
    if IsDuplicate(t, item)
    then (PurgeRetained(t, item.tsMs), t.dedup.entries[(item.producerId, item.seqNo)])
    else (PurgeRetained(Stored(t, item), item.tsMs), t.nextOffset)
  }

  // ---------------------------------------------------------------- reclaiming

  function Watermarks(groups: map<Name, GroupState>): set<nat> {
    set n | n in groups :: groups[n].watermark
  }

  function MessagesFrom(messages: map<nat, Message>, boundary: nat): map<nat, Message> {
    map o | o in messages && o >= boundary :: messages[o]
  }

  /** Drop the messages every group is past. */
  function DropConsumed(t: TopicState): TopicState {
    if Watermarks(t.groups) == {} then t else
      var boundary := MinOf(Watermarks(t.groups));
      if t.messages != map[] && boundary > MinOf(t.messages.Keys)
      then t.(messages := MessagesFrom(t.messages, boundary))
      else t
  }

  predicate IsDrained(g: GroupState, next: nat) {
    g.watermark >= next && g.inFlight == map[] && g.leasedOffsets == map[] && g.ackedAbove == {}
  }

  function GcIdleGroups(t: TopicState): TopicState {
    if |t.groups| <= GROUP_GC_THRESHOLD || t.messages != map[] then t
    else t.(groups := map n | n in t.groups && !IsDrained(t.groups[n], t.nextOffset) :: t.groups[n])
  }

  function Reclaim(t: TopicState): TopicState {
    GcIdleGroups(DropConsumed(t))
  }

  // ---------------------------------------------------------------- idle groups

  function Stamped(g: GroupState, nowMs: nat): GroupState {
    if g.lastActiveMs == 0 then g.(lastActiveMs := nowMs) else g
  }

  /** Whether a sweep at `nowMs` keeps the group. */
  predicate Survives(g: GroupState, nowMs: nat) {
    || SatSub(nowMs, Stamped(g, nowMs).lastActiveMs) <= GROUP_IDLE_EXPIRE_MS
    || exists l :: l in g.inFlight && g.inFlight[l].deadlineMs > nowMs
  }

  function SweepIdleGroups(t: TopicState, nowMs: nat): TopicState {
    t.(groups := map n | n in t.groups && Survives(t.groups[n], nowMs) :: Stamped(t.groups[n], nowMs))
  }

  /** The sweep that opens every poll and timestamped commit, with its reclaim. */
  function Sweep(t: TopicState, nowMs: nat): TopicState {
    var swept := SweepIdleGroups(t, nowMs);
    if |swept.groups| != |t.groups| then Reclaim(swept) else swept
  }

  // ---------------------------------------------------------------- consuming

  predicate Admits(t: TopicState, group: Name) {
    group in t.groups || |t.groups| < MAX_GROUPS_PER_TOPIC
  }

  /** The group's record, or the one a first request creates. */
  function GroupEntry(t: TopicState, group: Name, nowMs: Option<nat>): GroupState {
    if group in t.groups then t.groups[group]
    else GroupState(Base(t), {}, map[], map[], 0, if nowMs.Some? then nowMs.value else 0)
  }

  function Put(t: TopicState, group: Name, g: GroupState): TopicState {
    t.(groups := t.groups[group := g])
  }

  /** Deliverable messages in offset order. */
  function OpenItems(keys: seq<nat>, messages: map<nat, Message>, g: GroupState): seq<Item>
    requires forall k | k in keys :: k in messages
  {
    if keys == [] then []
    else if IsOpen(g, keys[0])
    then [Item(messages[keys[0]].priority, keys[0])] + OpenItems(keys[1..], messages, g)
    else OpenItems(keys[1..], messages, g)
  }

  function Candidates(messages: map<nat, Message>, g: GroupState): seq<Item> {
    OpenItems(SortedKeys(messages.Keys), messages, g)
  }

  function Leased(g: GroupState, leaseId: nat, offset: nat, deadlineMs: nat): GroupState {
    g.(inFlight := g.inFlight[leaseId := Lease(offset, deadlineMs)],
       leasedOffsets := g.leasedOffsets[offset := deadlineMs])
  }

  function IssueLeases(g: GroupState, chosen: seq<Item>, leaseId: nat, deadlineMs: nat): GroupState
    decreases |chosen|
  {
    if chosen == [] then g
    else IssueLeases(Leased(g, leaseId, chosen[0].offset, deadlineMs), chosen[1..], SatAdd(leaseId, 1), deadlineMs)
  }

  function Delivery(leaseId: nat, offset: nat, m: Message): Delivered {
    Delivered(leaseId, offset, m.priority, m.contentType, m.payload, m.tsMs)
  }

  function Deliveries(messages: map<nat, Message>, chosen: seq<Item>, leaseId: nat): (r: seq<Delivered>)
    requires forall x | x in chosen :: x.offset in messages
    ensures |r| == |chosen|
  {
    if chosen == [] then []
    else [Delivery(leaseId, chosen[0].offset, messages[chosen[0].offset])] + Deliveries(messages, chosen[1..], SatAdd(leaseId, 1))
  }

  datatype PollResult = PollResult(topic: TopicState, items: seq<Delivered>, nextLease: nat)

  /** The group as the poll's selection sees it: due leases returned, activity and count updated. */
  function Refreshed(g: GroupState, tsMs: nat): GroupState {
    Expire(g, tsMs).(lastActiveMs := Max(g.lastActiveMs, tsMs), pollCount := SatAdd(g.pollCount, 1))
  }

  /** The messages a poll hands to the group whose record is `entry`. */
  function Chosen(messages: map<nat, Message>, entry: GroupState, max: nat, tsMs: nat): (chosen: seq<Item>)
    ensures forall x | x in chosen :: x.offset in messages
  {
    var candidates := Candidates(messages, Refreshed(entry, tsMs));
    CandidatesFacts(messages, Refreshed(entry, tsMs));
    SelectionFacts(candidates, max, entry.pollCount);
    var chosen := ReferenceSelection(candidates, max, entry.pollCount);
    assert forall x | x in chosen :: x in Elements(chosen) && x in Elements(candidates);
    chosen
  }

  function DeadlineOf(tsMs: nat, visibilityMs: nat): nat {
    SatAdd(tsMs, Min(visibilityMs, MAX_VISIBILITY_MS))
  }

  function PollTopic(t: TopicState, group: Name, max: nat, visibilityMs: nat, tsMs: nat, nextLease: nat): PollResult {
    var swept := Sweep(t, tsMs);
    if !Admits(swept, group) then PollResult(swept, [], nextLease) else
      var entry := GroupEntry(swept, group, Some(tsMs));
      var chosen := Chosen(swept.messages, entry, max, tsMs);
      PollResult(
        Put(swept, group, IssueLeases(Refreshed(entry, tsMs), chosen, nextLease, DeadlineOf(tsMs, visibilityMs))),
        Deliveries(swept.messages, chosen, nextLease),
        SatAdd(nextLease, |chosen|))
  }

  function CommitTopic(t: TopicState, group: Name, offset: nat, nowMs: Option<nat>): TopicState {
    var swept := if nowMs.Some? then Sweep(t, nowMs.value) else t;
    if !Admits(swept, group) then swept else
      var g := AdvanceWatermark(GroupEntry(swept, group, nowMs), Min(offset, swept.nextOffset));
      Put(swept, group, if nowMs.Some? then g.(lastActiveMs := Max(g.lastActiveMs, nowMs.value)) else g)
  }

  function AckTopic(t: TopicState, group: Name, leaseId: nat): TopicState {
    if group in t.groups then Put(t, group, AckLease(t.groups[group], leaseId)) else t
  }

  function NackTopic(t: TopicState, group: Name, leaseId: nat): TopicState {
    if group in t.groups then Put(t, group, Unlease(t.groups[group], leaseId)) else t
  }

  // ---------------------------------------------------------------- candidates

  lemma {:induction false} OpenItemsFacts(keys: seq<nat>, messages: map<nat, Message>, g: GroupState)
    requires Increasing(keys) && forall k | k in keys :: k in messages
    ensures ByOffset(OpenItems(keys, messages, g))
    ensures forall x :: x in OpenItems(keys, messages, g) <==>
      x.offset in keys && IsOpen(g, x.offset) && x.priority == messages[x.offset].priority
  {
    if keys != [] {
      var tail := keys[1..];
      assert keys == [keys[0]] + tail;
      OpenItemsFacts(tail, messages, g);
      var rest := OpenItems(tail, messages, g);
      forall i | 0 <= i < |rest| ensures keys[0] < rest[i].offset {
        assert rest[i] in rest;
        var j :| 0 <= j < |tail| && tail[j] == rest[i].offset;
        assert keys[j + 1] == tail[j];
      }
    }
  }

  /** The candidates are exactly the retained open messages, in offset order. */
  lemma CandidatesFacts(messages: map<nat, Message>, g: GroupState)
    ensures ByOffset(Candidates(messages, g))
    ensures forall x :: x in Candidates(messages, g) <==>
      x.offset in messages && IsOpen(g, x.offset) && x.priority == messages[x.offset].priority
  {
    OpenItemsFacts(SortedKeys(messages.Keys), messages, g);
  }
}
