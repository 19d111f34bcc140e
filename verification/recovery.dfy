/** Startup repair of what is on disk, before the log store and the state machine are opened. */
module Recovery {
  import opened Collections
  import opened Model
  import opened LogStore
  import opened LogCrash

  /** The stored commit pointer; `Unreadable` stands for bytes that do not decode. */
  datatype CommitRecord = NoCommit | UnreadableCommit | Commit(at: Option<LogId>)

  /** The stored snapshot: the last log id it covers and the encoded state. */
  datatype SnapshotRecord = NoSnapshot | UnreadableSnapshot | Snapshot(lastLogId: Option<LogId>, data: Bytes)

  datatype DiskState = DiskState(log: Log, purged: Option<LogId>, committed: CommitRecord, snapshot: SnapshotRecord)

  // ---------------------------------------------------------------- indices

  function FirstIndex(log: Log): (r: Option<nat>)
    ensures r.None? <==> log == map[]
    ensures r.Some? ==> r.value in log && forall i | i in log :: r.value <= i
  {
    if log == map[] then None else Some(MinOf(log.Keys))
  }

  function LastIndex(log: Log): (r: Option<nat>)
    ensures r.None? <==> log == map[]
    ensures r.Some? ==> r.value in log && forall i | i in log :: i <= r.value
  {
    var keys := SortedKeys(log.Keys);
    if keys == [] then None else LastIsGreatest(keys); Some(keys[|keys| - 1])
  }

  lemma LastIsGreatest(keys: seq<nat>)
    requires Increasing(keys) && keys != []
    ensures forall i | i in keys :: i <= keys[|keys| - 1]
  {
    forall i | i in keys ensures i <= keys[|keys| - 1] {
      var k :| 0 <= k < |keys| && keys[k] == i;
    }
  }

  function Later(a: Option<nat>, b: Option<nat>): Option<nat> {
    if a.None? then b else if b.None? then a else Some(Max(a.value, b.value))
  }

  /** The index up to which the snapshot has the log applied. */
  function SnapshotIndex(r: SnapshotRecord): Option<nat> {
    if r.Snapshot? && r.lastLogId.Some? then Some(r.lastLogId.value.index) else None
  }

  /** Where replay must begin. */
  function ReplayStart(r: SnapshotRecord): nat {
    if SnapshotIndex(r).Some? then SnapshotIndex(r).value + 1 else 0
  }

  predicate Orphaned(d: DiskState) {
    FirstIndex(d.log).Some? && FirstIndex(d.log).value > ReplayStart(d.snapshot)
  }

  predicate Unbacked(d: DiskState) {
    && d.committed.Commit? && d.committed.at.Some?
    && var reachable := Later(SnapshotIndex(d.snapshot), LastIndex(d.log));
       reachable.None? || d.committed.at.value.index > reachable.value
  }

  // ---------------------------------------------------------------- the repair

  function Relogged(d: DiskState): DiskState {
    if Orphaned(d) then d.(log := map[], purged := None) else d
  }

  function Repaired(d: DiskState): DiskState {
    if d.snapshot.UnreadableSnapshot? then d
    else
      var e := Relogged(d);
      if Unbacked(e) then e.(committed := NoCommit) else e
  }

  predicate Repairable(d: DiskState) {
    !d.snapshot.UnreadableSnapshot? && !d.committed.UnreadableCommit?
  }

  /** The commit pointer the log store hands to Raft: never one past the last entry it holds. */
  function ReadCommitted(committed: CommitRecord, db: Log, pending: Log): Option<LogId> {
    if committed.Commit? && committed.at.Some? then
      var last := Later(LastIndex(db), LastIndex(pending));
      if last.Some? && committed.at.value.index <= last.value then committed.at else None
    else None
  }

  /** One past the last index to replay. */
  function ReplayEnd(d: DiskState): nat {
    var c := ReadCommitted(d.committed, d.log, map[]);
    if c.Some? then c.value.index + 1 else 0
  }

  /** After the repair, every entry that is to be replayed is there. */
  predicate Replayable(d: DiskState) {
    forall i | ReplayStart(d.snapshot) <= i < ReplayEnd(Repaired(d)) :: i in Repaired(d).log
  }

  lemma NothingAbove(log: Log, last: nat)
    requires forall i | i in log :: i <= last
    ensures Kept(log, Purge(last)) == map[]
  {
  }

  /** The key-value store and log table, changed in place. */
  class Disk {
    var log: Log
    var purged: Option<LogId>
    var committed: CommitRecord
    var snapshot: SnapshotRecord

    constructor (s: DiskState)
      ensures State() == s
    {
      log, purged, committed, snapshot := s.log, s.purged, s.committed, s.snapshot;
    }

    function State(): DiskState
      reads this
    {
      DiskState(log, purged, committed, snapshot)
    }

    method PurgeLogUpto(upto: nat)
      modifies this`log
      ensures log == Kept(old(log), Purge(upto))
    {
      log := Kept(log, Purge(upto));
    }

    /** `recover_consistency`: it fails on a record that does not decode, after the steps before that one. */
    method RecoverConsistency() returns (ok: bool)
      modifies this
      ensures ok == Repairable(old(State()))
      ensures State() == Repaired(old(State()))
    {
      hide LastIndex, FirstIndex;
      if snapshot.UnreadableSnapshot? {
        return false;
      }
      var snapIndex := SnapshotIndex(snapshot);
      var baseNext := if snapIndex.Some? then snapIndex.value + 1 else 0;
      var first := FirstIndex(log);
      if first.Some? && first.value > baseNext {
        var last := LastIndex(log);
        PurgeLogUpto(last.value);
        assert log == map[] by { NothingAbove(old(log), last.value); }
        purged := None;
      }
      var reachable := Later(snapIndex, LastIndex(log));
      if committed.UnreadableCommit? {
        return false;
      }
      if committed.Commit? && committed.at.Some? {
        if reachable.None? || committed.at.value.index > reachable.value {
          committed := NoCommit;
        }
      }
      return true;
    }
  }

  // ---------------------------------------------------------------- what the repair is for

  /** The overlay's last index is the later of the two halves'. */
  lemma LastOfOverlay(db: Log, pending: Log)
    ensures Later(LastIndex(db), LastIndex(pending)) == LastIndex(db + pending)
  {
    hide LastIndex;
    var last := LastIndex(db + pending);
    assert forall i :: i in db || i in pending <==> i in db + pending;
    if last.Some? {
      assert last.value in db || last.value in pending;
    } else {
      assert forall i :: i !in db && i !in pending;
    }
  }

  lemma OverlayIsLog(w: World)
    requires StoreInv(w) && !w.writer.Trimmed?
    ensures w.db + w.pending == w.log
  {
  }

  /** After the repair, every index Raft will replay, from the one after the snapshot up to the commit pointer the log
      store then reports, is in the log. */
  lemma RepairIsSound(d: DiskState, i: nat)
    requires Repairable(d) && Contiguous(d.log)
    requires var r := Repaired(d);
             var c := ReadCommitted(r.committed, r.log, map[]);
             c.Some? && ReplayStart(r.snapshot) <= i <= c.value.index
    ensures i in Repaired(d).log && Repaired(d).log[i] == d.log[i]
  {
    hide LastIndex, FirstIndex;
    var r := Repaired(d);
    LastOfOverlay(r.log, map[]);
    assert r.log + map[] == r.log;
    var last := LastIndex(r.log);
    assert !Orphaned(d);
    var first := FirstIndex(d.log);
    assert first.value in d.log && last.value in d.log;
  }

  /** So a contiguous log can always be replayed. */
  lemma ContiguousIsReplayable(d: DiskState)
    requires Repairable(d) && Contiguous(d.log)
    ensures Replayable(d)
  {
    hide LastIndex, FirstIndex, Repaired, Contiguous;
    RepairKeepsSnapshot(d);
    forall i | ReplayStart(d.snapshot) <= i < ReplayEnd(Repaired(d)) ensures i in Repaired(d).log {
      RepairIsSound(d, i);
    }
  }

  lemma RepairKeepsSnapshot(d: DiskState)
    ensures Repaired(d).snapshot == d.snapshot
  {
  }

  /** The log has an entry at or below the one right after the snapshot, which is the first of all without a snapshot. */
  predicate ReachesBack(d: DiskState) {
    exists i :: i in d.log && i <= if d.snapshot.Snapshot? && d.snapshot.lastLogId.Some? then d.snapshot.lastLogId.value.index + 1 else 0
  }

  /** The log reaches back to the snapshot and forward to the recorded commit pointer. */
  predicate Served(d: DiskState) {
    && d.committed.Commit? && d.committed.at.Some? && ReachesBack(d)
    && exists i :: i in d.log && i >= d.committed.at.value.index
  }

  lemma OrphanedIff(d: DiskState)
    ensures Orphaned(d) <==> d.log != map[] && !ReachesBack(d)
  {
    hide FirstIndex;
    var first := FirstIndex(d.log);
    if first.Some? {
      assert first.value in d.log;
    }
  }

  /** Replay goes up to the commit pointer if the log serves it, and does not happen otherwise. */
  lemma ReplayEndIs(d: DiskState)
    requires !d.snapshot.UnreadableSnapshot?
    ensures ReplayEnd(Repaired(d)) == if Served(d) then d.committed.at.value.index + 1 else 0
  {
    hide LastIndex, FirstIndex, Orphaned, ReachesBack;
    OrphanedIff(d);
    LastOfOverlay(d.log, map[]);
    assert d.log + map[] == d.log;
    var last := LastIndex(d.log);
    if last.Some? {
      assert last.value in d.log;
    }
    if ReachesBack(d) {
      assert d.log != map[] by { NotEmpty(d); }
    }
  }

  lemma NotEmpty(d: DiskState)
    requires ReachesBack(d)
    ensures d.log != map[]
  {
  }

  /** What survives of a log without other gaps can be replayed if and only if nothing lost to a failed write is to be. */
  lemma CutIsReplayableIff(log: Log, tail: nat, lost: set<nat>, n: nat, d: DiskState)
    requires Dense(log, tail) && BelowTail(log, tail) && lost <= log.Keys && d.log == Kept(log - lost, Truncate(n))
    requires !d.snapshot.UnreadableSnapshot?
    ensures Replayable(d) <==> forall i | i in lost :: !(ReplayStart(d.snapshot) <= i < ReplayEnd(Repaired(d)))
  {
    hide LastIndex, FirstIndex, ReplayEnd, ReadCommitted;
    ReplayEndIs(d);
    if Served(d) {
      var first, last := FirstIndex(d.log).value, LastIndex(d.log).value;
      assert first in d.log && last in d.log;
      forall i | ReplayStart(d.snapshot) <= i < ReplayEnd(Repaired(d)) ensures i in Repaired(d).log <==> i !in lost {
        assert first <= i <= last;
        assert i in log;
      }
    }
  }

  lemma RepairIsIdempotent(d: DiskState)
    ensures Repaired(Repaired(d)) == Repaired(d)
  {
    var e := Relogged(d);
    assert !Orphaned(e);
  }

  /** The commit pointer is at or below the last index the snapshot or the log has. */
  predicate Backed(d: DiskState, log: Log) {
    d.committed.Commit? && d.committed.at.Some? ==>
      || (d.snapshot.Snapshot? && d.snapshot.lastLogId.Some? && d.committed.at.value.index <= d.snapshot.lastLogId.value.index)
      || exists i :: i in log && d.committed.at.value.index <= i
  }

  lemma UnbackedIff(d: DiskState)
    ensures Unbacked(d) <==> !Backed(d, d.log)
  {
    hide LastIndex;
    var last := LastIndex(d.log);
    if last.Some? {
      assert last.value in d.log;
    }
  }

  /** Exactly what the repair does: it keeps the snapshot; it keeps the log if it is empty or reaches back to the snapshot, and
      otherwise drops all of it and the purge marker; and it keeps the commit pointer if what is then left reaches it, and
      otherwise drops it. */
  lemma RepairTouchesOnlyDamage(d: DiskState)
    requires !d.snapshot.UnreadableSnapshot?
    ensures var r := Repaired(d);
            var log := if d.log == map[] || ReachesBack(d) then d.log else map[];
            && r.snapshot == d.snapshot && r.log == log
            && r.purged == (if d.log == map[] || ReachesBack(d) then d.purged else None)
            && r.committed == (if Backed(d, log) then d.committed else NoCommit)
  {
    hide Orphaned, ReachesBack, Unbacked, Backed;
    OrphanedIff(d);
    UnbackedIff(Relogged(d));
    SameBacking(d, Relogged(d));
  }

  lemma SameBacking(d: DiskState, e: DiskState)
    requires e.committed == d.committed && e.snapshot == d.snapshot
    ensures Backed(e, e.log) <==> Backed(d, e.log)
  {
  }
}
