/** The replicated state machine: applying committed entries, taking and installing snapshots, and starting again from
    what is on disk. The binary codec is a parameter. */
module Restart {
  import opened Collections
  import opened Model
  import opened Groups
  import opened TopicFacts
  import opened Queue
  import opened Invariant
  import opened LogStore
  import LogRuns
  import LogCrash
  import opened Recovery

  datatype StoredMembership = StoredMembership(logId: Option<LogId>, nodes: set<nat>)

  datatype StateMachineData =
    StateMachineData(lastApplied: Option<LogId>, lastMembership: StoredMembership, queue: QueueState)

  const DEFAULT := StateMachineData(None, StoredMembership(None, {}), EMPTY_QUEUE)

  /** Encoding and decoding of a state, and decoding of the older format. */
  datatype Codec = Codec(
    encode: StateMachineData -> Bytes,
    decode: Bytes -> Option<StateMachineData>,
    decodeV0: Bytes -> Option<StateMachineData>)

  ghost predicate Inverts(codec: Codec) {
    forall d :: codec.decode(codec.encode(d)) == Some(d)
  }

  // ---------------------------------------------------------------- applying

  function ApplyEntry(d: StateMachineData, e: Entry): (StateMachineData, Response) {
    var d := d.(lastApplied := Some(e.logId));
    match e.payload
    case Blank => (d, NoOp)
    case Membership(nodes) => (d.(lastMembership := StoredMembership(Some(e.logId), nodes)), NoOp)
    case Normal(request) => var (q, r) := Apply(d.queue, request); (d.(queue := q), r)
  }

  function ApplyAll(d: StateMachineData, entries: seq<Entry>): StateMachineData
    decreases |entries|
  {
    if entries == [] then d else ApplyAll(ApplyEntry(d, entries[0]).0, entries[1..])
  }

  function Answers(d: StateMachineData, entries: seq<Entry>): seq<Response>
    decreases |entries|
  {
    if entries == [] then [] else [ApplyEntry(d, entries[0]).1] + Answers(ApplyEntry(d, entries[0]).0, entries[1..])
  }

  // ---------------------------------------------------------------- snapshots

  const SNAPSHOT_FORMAT: Bytes := [0xFF, 1]

  function NormalizedGroup(g: GroupState, next: nat): GroupState {
    if g.watermark > next then g.(watermark := next) else g
  }

  function NormalizedTopic(t: TopicState): TopicState {
    t.(groups := map n | n in t.groups :: NormalizedGroup(t.groups[n], t.nextOffset))
  }

  /** `Queue::normalize`. */
  function Normalized(q: QueueState): QueueState {
    q.(topics := map n | n in q.topics :: NormalizedTopic(q.topics[n]))
  }

  function EncodeState(codec: Codec, d: StateMachineData): Bytes {
    SNAPSHOT_FORMAT + codec.encode(d)
  }

  function DecodeState(codec: Codec, bytes: Bytes): Option<StateMachineData> {
    var raw := if SNAPSHOT_FORMAT <= bytes then codec.decode(bytes[2..]) else codec.decodeV0(bytes);
    if raw.None? then None
    else
      var d := raw.value.(queue := Normalized(raw.value.queue));
      if Validate(d.queue) then Some(d) else None
  }

  /** What the store starts from. */
  function Load(codec: Codec, record: SnapshotRecord): Option<StateMachineData> {
    match record
    case NoSnapshot => Some(DEFAULT)
    case UnreadableSnapshot => None
    case Snapshot(_, data) => DecodeState(codec, data)
  }

  function SnapshotOf(codec: Codec, d: StateMachineData): SnapshotRecord {
    Snapshot(d.lastApplied, EncodeState(codec, d))
  }

  /** `StateMachineStore`: the live state, beside the disk its snapshots go to. */
  class StateMachineStore {
    var data: StateMachineData
    var snapshotSeq: nat
    const codec: Codec
    const disk: Disk

    constructor (disk: Disk, codec: Codec, data: StateMachineData)
      ensures this.disk == disk && this.codec == codec && this.data == data && snapshotSeq == 0
    {
      this.disk, this.codec, this.data, snapshotSeq := disk, codec, data, 0;
    }

    /** Opening fails exactly when the snapshot on disk cannot be read or is not one the queue could have produced. */
    static method Open(disk: Disk, codec: Codec) returns (r: Option<StateMachineStore>)
      ensures r.None? <==> Load(codec, disk.snapshot).None?
      ensures r.Some? ==> fresh(r.value) && r.value.disk == disk && r.value.codec == codec
      ensures r.Some? ==> r.value.data == Load(codec, disk.snapshot).value
    {
      var loaded := Load(codec, disk.snapshot);
      if loaded.None? {
        return None;
      }
      var store := new StateMachineStore(disk, codec, loaded.value);
      return Some(store);
    }

    method ApplyEntries(entries: seq<Entry>) returns (responses: seq<Response>)
      modifies this`data
      ensures data == ApplyAll(old(data), entries)
      ensures responses == Answers(old(data), entries)
    {
      hide ApplyEntry;
      responses := [];
      for i := 0 to |entries|
        invariant ApplyAll(data, entries[i..]) == ApplyAll(old(data), entries)
        invariant responses + Answers(data, entries[i..]) == Answers(old(data), entries)
      {
        assert entries[i..][0] == entries[i] && entries[i..][1..] == entries[i + 1..];
        var (d, response) := ApplyEntry(data, entries[i]);
        data := d;
        responses := responses + [response];
      }
      assert entries[|entries|..] == [];
    }

    /** What a builder does under the lock: number the snapshot and copy the state. */
    method CaptureSnapshot() returns (record: SnapshotRecord)
      modifies this`snapshotSeq
      ensures snapshotSeq == old(snapshotSeq) + 1
      ensures record == SnapshotOf(codec, data)
    {
      snapshotSeq := snapshotSeq + 1;
      record := Snapshot(data.lastApplied, EncodeState(codec, data));
    }

    /** What it does afterwards, whatever has become of the state and of the stored record since. */
    method PersistSnapshot(record: SnapshotRecord)
      modifies disk`snapshot
      ensures disk.snapshot == record
    {
      disk.snapshot := record;
    }

    /** A snapshot that does not decode to a valid state changes neither the disk nor the live state. */
    method InstallSnapshot(lastLogId: Option<LogId>, bytes: Bytes) returns (ok: bool)
      modifies this`data, disk`snapshot
      ensures ok <==> DecodeState(codec, bytes).Some?
      ensures ok ==> data == DecodeState(codec, bytes).value && disk.snapshot == Snapshot(lastLogId, bytes)
      ensures !ok ==> data == old(data) && disk.snapshot == old(disk.snapshot)
    {
      var decoded := DecodeState(codec, bytes);
      if decoded.None? {
        return false;
      }
      disk.snapshot := Snapshot(lastLogId, bytes);
      data := decoded.value;
      return true;
    }
  }

  // ---------------------------------------------------------------- a snapshot is the state

  lemma NormalizedTopicIsSame(t: TopicState, leases: nat)
    requires TopicInv(t, leases)
    ensures NormalizedTopic(t) == t
  {
    forall n | n in t.groups ensures NormalizedGroup(t.groups[n], t.nextOffset) == t.groups[n] {
      assert t.groups[n].watermark <= t.nextOffset;
    }
  }

  lemma NormalizedIsSame(q: QueueState)
    requires QueueInv(q)
    ensures Normalized(q) == q
  {
    hide TopicInv, NormalizedTopic;
    forall n | n in q.topics ensures NormalizedTopic(q.topics[n]) == q.topics[n] {
      NormalizedTopicIsSame(q.topics[n], q.nextLeaseId);
    }
  }

  /** Lowering a watermark leaves the group where its commit would have left it, had it been cut off at the end of the topic as
      commits now are. */
  lemma LoweredIsClamped(g: GroupState, to: nat, base: nat, next: nat, leases: nat)
    requires GroupInv(g, base, next, leases) && next <= to
    ensures NormalizedGroup(AdvanceWatermark(g, to), next) == AdvanceWatermark(g, next)
  {
    PassedAll(g, to, base, next, leases);
    PassedAll(g, next, base, next, leases);
  }

  /** A watermark at or past the end leaves nothing else in the record. */
  lemma PassedAll(g: GroupState, to: nat, base: nat, next: nat, leases: nat)
    requires GroupInv(g, base, next, leases) && next <= to
    ensures AdvanceWatermark(g, to) == GroupState(to, {}, map[], map[], g.pollCount, g.lastActiveMs)
  {
    assert AckedFrom(g.ackedAbove, to) == {};
    var kept := g.(watermark := to, ackedAbove := {});
    var ids := LeasesBelow(kept, to);
    assert forall l | l in g.inFlight :: l in ids;
    assert g.inFlight - ids == map[];
    var offsets := set l | l in ids && l in g.inFlight :: g.inFlight[l].offset;
    forall o | o in g.leasedOffsets ensures o in offsets {
      var l :| l in g.inFlight && g.inFlight[l].offset == o;
    }
    assert g.leasedOffsets - offsets == map[];
  }

  /** The same state, but for watermarks past the end of their topic, which are at the end. */
  ghost predicate Lowered(r: QueueState, q: QueueState) {
    && r.nextLeaseId == q.nextLeaseId && r.topics.Keys == q.topics.Keys
    && forall n | n in q.topics ::
         var t := q.topics[n];
         && r.topics[n] == t.(groups := r.topics[n].groups) && r.topics[n].groups.Keys == t.groups.Keys
         && forall g | g in t.groups ::
              r.topics[n].groups[g] == t.groups[g].(watermark := Min(t.groups[g].watermark, t.nextOffset))
  }

  lemma NormalizedIsLowered(q: QueueState, r: QueueState)
    ensures r == Normalized(q) <==> Lowered(r, q)
  {
    if Lowered(r, q) {
      forall n | n in q.topics ensures r.topics[n] == NormalizedTopic(q.topics[n]) {
        assert r.topics[n].groups == NormalizedTopic(q.topics[n]).groups;
      }
      assert r.topics == Normalized(q).topics;
    }
  }

  /** Exactly what snapshot bytes decode to: with the two bytes 255 and 1 in front, what the codec makes of the rest; without
      them, what it makes of the older format; with its watermarks lowered; and nothing unless the validator accepts it. */
  lemma DecodedIff(codec: Codec, bytes: Bytes, d: StateMachineData)
    ensures DecodeState(codec, bytes) == Some(d) <==>
            var marked := |bytes| >= 2 && bytes[0] == 255 && bytes[1] == 1;
            var raw := if marked then codec.decode(bytes[2..]) else codec.decodeV0(bytes);
            && raw.Some? && Validate(d.queue) && Lowered(d.queue, raw.value.queue)
            && d.lastApplied == raw.value.lastApplied && d.lastMembership == raw.value.lastMembership
  {
    hide Validate, Normalized, Lowered;
    assert SNAPSHOT_FORMAT <= bytes <==> |bytes| >= 2 && bytes[0] == 255 && bytes[1] == 1;
    var raw := if SNAPSHOT_FORMAT <= bytes then codec.decode(bytes[2..]) else codec.decodeV0(bytes);
    if raw.Some? {
      NormalizedIsLowered(raw.value.queue, d.queue);
    }
  }

  /** Encoding and decoding a state that keeps the invariant gives it back exactly when its counters are below the
      ceiling; otherwise it is refused. */
  lemma SnapshotRoundTrip(codec: Codec, d: StateMachineData)
    requires Inverts(codec) && QueueInv(d.queue)
    ensures DecodeState(codec, EncodeState(codec, d)) == if CountersBelow(d.queue) then Some(d) else None
  {
    hide QueueInv, CountersBelow, Validate, Normalized;
    var bytes := EncodeState(codec, d);
    assert SNAPSHOT_FORMAT <= bytes && bytes[2..] == codec.encode(d);
    NormalizedIsSame(d.queue);
    InvariantValidates(d.queue);
    assert d.(queue := d.queue) == d;
  }

  // ---------------------------------------------------------------- the committed history

  /** Raft numbers the committed entries from zero. */
  predicate Numbered(history: seq<Entry>) {
    forall k | 0 <= k < |history| :: history[k].logId.index == k
  }

  /** The state of a node that has applied the first `n` committed entries and never stopped. */
  function At(history: seq<Entry>, n: nat): StateMachineData
    requires n <= |history|
  {
    ApplyAll(DEFAULT, history[..n])
  }

  /** Every state of the uninterrupted run has its counters below the ceiling. */
  ghost predicate Moderate(history: seq<Entry>) {
    forall n: nat | n <= |history| :: CountersBelow(At(history, n).queue)
  }

  lemma {:induction false} ApplyAllAppend(d: StateMachineData, a: seq<Entry>, b: seq<Entry>)
    ensures ApplyAll(d, a + b) == ApplyAll(ApplyAll(d, a), b)
    decreases |a|
  {
    hide ApplyEntry;
    if a == [] {
      assert a + b == b;
    } else {
      assert (a + b)[1..] == a[1..] + b;
      ApplyAllAppend(ApplyEntry(d, a[0]).0, a[1..], b);
    }
  }

  lemma AtNext(history: seq<Entry>, n: nat)
    requires n < |history|
    ensures At(history, n + 1) == ApplyEntry(At(history, n), history[n]).0
  {
    hide ApplyEntry;
    assert history[..n + 1] == history[..n] + [history[n]];
    ApplyAllAppend(DEFAULT, history[..n], [history[n]]);
    assert [history[n]][1..] == [];
    assert ApplyAll(ApplyEntry(At(history, n), history[n]).0, []) == ApplyEntry(At(history, n), history[n]).0;
  }

  /** Applying a stretch of the history to the state before it gives the state after it. */
  lemma AtSpan(history: seq<Entry>, n: nat, m: nat)
    requires n <= m <= |history|
    ensures ApplyAll(At(history, n), history[n..m]) == At(history, m)
  {
    assert history[..m] == history[..n] + history[n..m];
    ApplyAllAppend(DEFAULT, history[..n], history[n..m]);
  }

  lemma {:induction false} AtIsSound(history: seq<Entry>, n: nat)
    requires n <= |history| && Moderate(history)
    ensures QueueInv(At(history, n).queue) && CountersBelow(At(history, n).queue)
    decreases n
  {
    hide QueueInv, CountersBelow, Apply, At;
    if n == 0 {
      assert At(history, 0) == DEFAULT by { AtZero(history); }
      EmptyQueueInv();
    } else {
      AtIsSound(history, n - 1);
      AtNext(history, n - 1);
      if history[n - 1].payload.Normal? {
        KeepsBelow(At(history, n - 1).queue, history[n - 1].payload.request);
      }
    }
  }

  lemma AtZero(history: seq<Entry>)
    ensures At(history, 0) == DEFAULT
  {
    assert history[..0] == [];
  }

  lemma KeepsBelow(q: QueueState, request: Request)
    requires QueueInv(q) && CountersBelow(q) && CountersBelow(Apply(q, request).0)
    ensures QueueInv(Apply(q, request).0)
  {
    hide QueueInv, Apply;
    assert BelowCeiling(q, [request]) by {
      assert [request][1..] == [];
      assert BelowCeiling(Apply(q, request).0, []);
    }
    RunKeeps(q, [request]);
    assert Run(q, [request]) == Apply(q, request).0 by {
      assert [request][1..] == [];
      assert Run(Apply(q, request).0, []) == Apply(q, request).0;
    }
  }

  /** The state knows how far it is. */
  lemma AppliedCount(history: seq<Entry>, n: nat)
    requires n <= |history| && Numbered(history)
    ensures At(history, n).lastApplied == if n == 0 then None else Some(history[n - 1].logId)
  {
    hide Apply, At;
    if n == 0 {
      AtZero(history);
    } else {
      AtNext(history, n - 1);
    }
  }

  /** The queue requests among the entries. */
  function RequestsIn(entries: seq<Entry>): seq<Request>
    decreases |entries|
  {
    if entries == [] then []
    else RequestsIn(entries[..|entries| - 1]) +
         (if entries[|entries| - 1].payload.Normal? then [entries[|entries| - 1].payload.request] else [])
  }

  /** The last membership among the entries. */
  function MembershipIn(entries: seq<Entry>): StoredMembership
    decreases |entries|
  {
    if entries == [] then StoredMembership(None, {})
    else
      var last := entries[|entries| - 1];
      if last.payload.Membership? then StoredMembership(Some(last.logId), last.payload.nodes)
      else MembershipIn(entries[..|entries| - 1])
  }

  /** What applying a history means: the queue its requests make, the last membership in it and the id of its last entry. */
  lemma {:induction false} AtMeans(history: seq<Entry>, n: nat)
    requires n <= |history|
    ensures At(history, n) == StateMachineData(
              if n == 0 then None else Some(history[n - 1].logId),
              MembershipIn(history[..n]),
              Run(EMPTY_QUEUE, RequestsIn(history[..n])))
    decreases n
  {
    hide At, Apply, Run;
    if n == 0 {
      AtZero(history);
      assert history[..0] == [];
      assert Run(EMPTY_QUEUE, []) == EMPTY_QUEUE by { RunNothing(EMPTY_QUEUE); }
    } else {
      AtMeans(history, n - 1);
      AtNext(history, n - 1);
      assert history[..n][..n - 1] == history[..n - 1] && history[..n][n - 1] == history[n - 1];
      if history[n - 1].payload.Normal? {
        RunOneMore(EMPTY_QUEUE, RequestsIn(history[..n - 1]), history[n - 1].payload.request);
      } else {
        assert RequestsIn(history[..n]) == RequestsIn(history[..n - 1]);
      }
    }
  }

  /** And what it answers: to each request what the queue answers in the state the requests before it make, and nothing to
      the other entries. */
  lemma {:induction false} AnswersMean(history: seq<Entry>, n: nat, m: nat, k: nat)
    requires n <= k < m <= |history|
    ensures |Answers(At(history, n), history[n..m])| == m - n
    ensures Answers(At(history, n), history[n..m])[k - n] ==
            if history[k].payload.Normal? then Apply(Run(EMPTY_QUEUE, RequestsIn(history[..k])), history[k].payload.request).1
            else NoOp
    decreases m - n
  {
    hide At, Apply, Run, RequestsIn;
    var entries := history[n..m];
    assert entries[0] == history[n] && entries[1..] == history[n + 1..m];
    AtNext(history, n);
    AtMeans(history, n);
    if k == n {
      AnswersSize(ApplyEntry(At(history, n), history[n]).0, entries[1..]);
    } else {
      AnswersMean(history, n + 1, m, k);
    }
  }

  lemma {:induction false} AnswersSize(d: StateMachineData, entries: seq<Entry>)
    ensures |Answers(d, entries)| == |entries|
    decreases |entries|
  {
    hide ApplyEntry;
    if entries != [] {
      AnswersSize(ApplyEntry(d, entries[0]).0, entries[1..]);
    }
  }

  // ---------------------------------------------------------------- starting again

  /** The snapshot on disk was taken after the first `n` entries, on this node or on another. */
  ghost predicate TakenAt(codec: Codec, record: SnapshotRecord, history: seq<Entry>, n: nat) {
    && n <= |history|
    && ((record == NoSnapshot && n == 0) || record == SnapshotOf(codec, At(history, n)))
  }

  lemma LoadTaken(codec: Codec, record: SnapshotRecord, history: seq<Entry>, n: nat)
    requires Inverts(codec) && Numbered(history) && Moderate(history) && TakenAt(codec, record, history, n)
    ensures Load(codec, record) == Some(At(history, n))
    ensures ReplayStart(record) == n
  {
    hide Moderate, QueueInv, CountersBelow, At, DecodeState, EncodeState;
    AtZero(history);
    AtIsSound(history, n);
    SnapshotRoundTrip(codec, At(history, n));
    AppliedCount(history, n);
  }

  /** Restart equivalence: for every history and every snapshot point in it, decoding the snapshot and replaying the
      rest gives the queue, last applied id and membership of the run that never stopped. */
  lemma RestartEquivalence(codec: Codec, history: seq<Entry>, n: nat, m: nat)
    requires Inverts(codec) && Numbered(history) && Moderate(history) && n <= m <= |history|
    ensures DecodeState(codec, EncodeState(codec, At(history, n))) == Some(At(history, n))
    ensures ApplyAll(DecodeState(codec, EncodeState(codec, At(history, n))).value, history[n..m]) == At(history, m)
  {
    hide Moderate, QueueInv, CountersBelow, At, DecodeState, EncodeState;
    AtIsSound(history, n);
    SnapshotRoundTrip(codec, At(history, n));
    AtSpan(history, n, m);
  }

  /** The log entries with indices from `start` up to `end`, without `end`. */
  function Stretch(log: Log, start: nat, end: nat): seq<Entry>
    requires forall i | start <= i < end :: i in log
    decreases if start < end then end - start else 0
  {
    if start >= end then [] else [log[start]] + Stretch(log, start + 1, end)
  }

  /** A start: repair the disk, load the snapshot, replay up to the commit pointer. It fails if a record cannot be read and,
      as Raft stops when an entry it is to apply is missing, if the log has a hole in what is to be replayed. */
  function Started(codec: Codec, d: DiskState): Option<StateMachineData> {
    var r := Repaired(d);
    var loaded := Load(codec, d.snapshot);
    if !Repairable(d) || loaded.None? || !Replayable(d) then None
    else Some(ApplyAll(loaded.value, Stretch(r.log, ReplayStart(d.snapshot), ReplayEnd(r))))
  }

  /** What the disk has of the entries to be replayed is the history's, and the recorded commit is in the history. Below the
      snapshot and above the commit pointer the log may hold anything. */
  ghost predicate Faithful(d: DiskState, history: seq<Entry>) {
    && (forall i | i in d.log && ReplayStart(d.snapshot) <= i < ReplayEnd(Repaired(d)) && i < |history| ::
          d.log[i] == history[i])
    && (d.committed.Commit? && d.committed.at.Some? ==> d.committed.at.value.index < |history|)
  }

  lemma {:induction false} StretchIsHistory(log: Log, history: seq<Entry>, start: nat, end: nat)
    requires start <= end <= |history|
    requires forall i | start <= i < end :: i in log && log[i] == history[i]
    ensures Stretch(log, start, end) == history[start..end]
    decreases end - start
  {
    if start < end {
      StretchIsHistory(log, history, start + 1, end);
    }
  }

  lemma ReplayEndIsCommitted(d: DiskState, history: seq<Entry>)
    requires Faithful(d, history) && !d.snapshot.UnreadableSnapshot?
    ensures ReplayEnd(Repaired(d)) <= |history|
    ensures forall i | i in Repaired(d).log && ReplayStart(d.snapshot) <= i < ReplayEnd(Repaired(d)) ::
              Repaired(d).log[i] == history[i]
  {
    hide LastIndex, FirstIndex;
  }

  /** Whatever of the log survived a crash, with whatever snapshot and commit pointer: if every entry to be replayed is there,
      starting again gives the state of a node that applied the same entries and never stopped, as far as the commit
      pointer if the log can serve it and otherwise as far as the snapshot. If one is missing the start fails. */
  lemma StartRestores(codec: Codec, d: DiskState, history: seq<Entry>, n: nat)
    requires Inverts(codec) && Numbered(history) && Moderate(history)
    requires TakenAt(codec, d.snapshot, history, n) && Faithful(d, history)
    ensures ReplayEnd(Repaired(d)) <= |history|
    ensures Started(codec, d) ==
            if Repairable(d) && Replayable(d) then Some(At(history, Max(n, ReplayEnd(Repaired(d))))) else None
  {
    hide Moderate, At, Load, Repaired, ReplayEnd, Inverts, Faithful;
    LoadTaken(codec, d.snapshot, history, n);
    ReplayEndIsCommitted(d, history);
    var r := Repaired(d);
    var end := ReplayEnd(r);
    if Replayable(d) {
      if n < end {
        StretchIsHistory(r.log, history, n, end);
        AtSpan(history, n, end);
      } else {
        assert Stretch(r.log, n, end) == [];
      }
    }
  }

  /** If the entry at the recorded commit pointer is on disk and the log reaches back to the snapshot, the start
      replays all of what was committed. */
  lemma CommittedIsReplayed(d: DiskState, c: LogId)
    requires Repairable(d) && d.committed == Commit(Some(c)) && c.index in d.log && ReachesBack(d)
    ensures ReplayEnd(Repaired(d)) == c.index + 1
  {
    hide LastIndex, FirstIndex, ReachesBack;
    ReplayEndIs(d);
  }

  /** A healthy disk: a snapshot of the first `n` entries, a log that starts at or below the next one and has the rest up to
      the commit pointer. The repair leaves it alone, and the node starts where it stopped. */
  lemma HealthyStart(codec: Codec, d: DiskState, history: seq<Entry>, n: nat, c: LogId)
    requires Inverts(codec) && Numbered(history) && Moderate(history) && TakenAt(codec, d.snapshot, history, n)
    requires d.committed == Commit(Some(c)) && c.index < |history| && c.index in d.log
    requires (exists i :: i in d.log && i <= n) && forall i | n <= i <= c.index :: i in d.log && d.log[i] == history[i]
    ensures Repaired(d) == d
    ensures Started(codec, d) == Some(At(history, Max(n, c.index + 1)))
  {
    hide Moderate, Inverts, At, Repaired, Started, ReplayEnd, TakenAt;
    LoadTaken(codec, d.snapshot, history, n);
    TakenReaches(codec, d, history, n);
    RepairTouchesOnlyDamage(d);
    CommittedIsReplayed(d, c);
    StartRestores(codec, d, history, n);
  }

  lemma TakenReaches(codec: Codec, d: DiskState, history: seq<Entry>, n: nat)
    requires Numbered(history) && TakenAt(codec, d.snapshot, history, n) && exists i :: i in d.log && i <= n
    ensures ReachesBack(d) && !d.snapshot.UnreadableSnapshot?
  {
    hide At, EncodeState;
    AppliedCount(history, n);
  }

  /** The log a crash leaves, at any instant of any run with Raft's append discipline, can be replayed if and only if no
      index lost to a failed write is among those to be replayed. */
  lemma CrashIsReplayableIff(db: Log, purged: Option<nat>, tail: nat, events: seq<Event>, d: DiskState)
    requires LogRuns.Openable(db, purged, tail) && LogCrash.Dense(db, tail) && !d.snapshot.UnreadableSnapshot?
    requires var o := Opened(db, purged, tail);
             Possible(o, events) && LogCrash.Consecutive(o, events) && d.log == After(o, events).db
    ensures Replayable(d) <==> forall i | i in LogCrash.Lost({}, Opened(db, purged, tail), events) ::
              !(ReplayStart(d.snapshot) <= i < ReplayEnd(Repaired(d)))
  {
    hide After, LogCrash.Lost, LogCrash.Dense, LogCrash.Consecutive, StoreInv, LogRuns.Frontier, Replayable, Kept;
    var o := Opened(db, purged, tail);
    var w := After(o, events);
    LogRuns.OpenedInv(db, purged, tail);
    LogCrash.RunDense(o, events);
    LogCrash.CrashLeaves(db, purged, tail, events);
    LogCrash.LostIsLogged(db, purged, tail, events);
    CutIsReplayableIff(w.log, w.tail, LogCrash.Lost({}, o, events), LogRuns.Frontier(w), d);
  }

  /** Log store and state machine together: crash at any instant of any run of the log store, then start again. If no index
      lost to a failed write is to be replayed, the state is that of a node which never stopped; otherwise the start
      fails. */
  lemma CrashThenStart(codec: Codec, db: Log, purged: Option<nat>, tail: nat, events: seq<Event>, d: DiskState,
                       history: seq<Entry>, n: nat)
    requires LogRuns.Openable(db, purged, tail) && LogCrash.Dense(db, tail)
    requires var o := Opened(db, purged, tail);
             Possible(o, events) && LogCrash.Consecutive(o, events) && d.log == After(o, events).db
    requires Inverts(codec) && Numbered(history) && Moderate(history)
    requires TakenAt(codec, d.snapshot, history, n) && Faithful(d, history)
    ensures ReplayEnd(Repaired(d)) <= |history|
    ensures var lost := LogCrash.Lost({}, Opened(db, purged, tail), events);
            Started(codec, d) ==
            if Repairable(d) && forall i | i in lost :: !(ReplayStart(d.snapshot) <= i < ReplayEnd(Repaired(d)))
            then Some(At(history, Max(n, ReplayEnd(Repaired(d))))) else None
  {
    hide Moderate, Faithful, Inverts, At, Repaired, Started, Replayable, After, LogCrash.Lost, LogCrash.Consecutive;
    CrashIsReplayableIff(db, purged, tail, events, d);
    StartRestores(codec, d, history, n);
  }

  /** The disk of a crash after the write of index 1 failed and that of index 2 succeeded, with 2 committed. */
  const HOLED_DISK := DiskState(LogCrash.HOLED.db, None, Commit(Some(LogCrash.TWO.logId)), NoSnapshot)

  /** The condition can fail: the repair finds nothing to mend, the log store hands out the commit pointer, and the entry
      before it is missing. */
  lemma HoledDiskCannotStart(codec: Codec)
    ensures Possible(Opened(map[0 := LogCrash.ZERO], None, 1), LogCrash.FAILING)
    ensures var failed := After(Opened(map[0 := LogCrash.ZERO], None, 1), LogCrash.FAILING);
            Possible(failed, LogCrash.REFILLING) && After(failed, LogCrash.REFILLING).db == HOLED_DISK.log
    ensures Repaired(HOLED_DISK) == HOLED_DISK && ReplayEnd(HOLED_DISK) == 3 && 1 !in HOLED_DISK.log
    ensures Started(codec, HOLED_DISK) == None
  {
    hide LastIndex, FirstIndex, Possible, After;
    LogCrash.FailingRun();
    LogCrash.RefillingRun();
    var log := HOLED_DISK.log;
    assert 0 in log && 2 in log;
    assert FirstIndex(log) == Some(0) && LastIndex(log) == Some(2);
    ReplayEndIs(HOLED_DISK);
    assert ReplayStart(HOLED_DISK.snapshot) <= 1 < ReplayEnd(Repaired(HOLED_DISK)) && 1 !in Repaired(HOLED_DISK).log;
  }
}
