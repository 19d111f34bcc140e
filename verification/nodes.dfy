/** A node over any number of snapshots and restarts, beside the committed history it is working through. */
module Nodes {
  import opened Collections
  import opened Invariant
  import opened LogStore
  import LogCrash
  import opened Recovery
  import opened Restart

  /** A node beside the committed history it is working through: its live state unless its last start failed, the snapshot
      on its disk, the snapshots its builders have captured and not stored yet, and a state it has stored as a snapshot
      and not switched to yet. */
  datatype Node = Node(
    history: seq<Entry>,
    live: Option<StateMachineData>,
    record: SnapshotRecord,
    captured: set<SnapshotRecord>,
    incoming: Option<StateMachineData>)

  /** The history grows; the node applies; a builder captures the state, and later stores what it captured; a snapshot of
      the first `upto` entries comes from a peer and is stored, and later becomes the live state; or the node goes down
      and tries to start again from its snapshot and whatever else is on its disk by then. */
  datatype Turn =
    | Learn(entry: Entry)
    | ApplyNext
    | Capture
    | Persist(record: SnapshotRecord)
    | Accept(upto: nat)
    | Switch
    | Bounce(log: Log, purged: Option<LogId>, committed: CommitRecord)

  function Applied(d: StateMachineData): nat {
    if d.lastApplied.None? then 0 else d.lastApplied.value.index + 1
  }

  ghost predicate CanTurn(node: Node, turn: Turn) {
    match turn
    case Learn(entry) => entry.logId.index == |node.history|
    case ApplyNext => node.live.Some? && Applied(node.live.value) < |node.history|
    case Capture => node.live.Some?
    case Persist(record) => record in node.captured
    case Accept(upto) => node.live.Some? && upto <= |node.history|
    case Switch => node.incoming.Some?
    case Bounce(log, purged, committed) => Faithful(DiskState(log, purged, committed, node.record), node.history)
  }

  ghost function Turned(codec: Codec, node: Node, turn: Turn): Node
    requires CanTurn(node, turn)
  {
    match turn
    case Learn(entry) => node.(history := node.history + [entry])
    case ApplyNext =>
      node.(live := Some(ApplyEntry(node.live.value, node.history[Applied(node.live.value)]).0))
    case Capture => node.(captured := node.captured + {SnapshotOf(codec, node.live.value)})
    case Persist(record) => node.(record := record, captured := node.captured - {record})
    case Accept(upto) =>
      var bytes := EncodeState(codec, At(node.history, upto));
      if DecodeState(codec, bytes).None? then node
      else node.(record := Snapshot(At(node.history, upto).lastApplied, bytes), incoming := DecodeState(codec, bytes))
    case Switch => node.(live := node.incoming, incoming := None)
    case Bounce(log, purged, committed) =>
      node.(live := Started(codec, DiskState(log, purged, committed, node.record)), captured := {}, incoming := None)
  }

  ghost predicate CanTurnAll(codec: Codec, node: Node, turns: seq<Turn>)
    decreases |turns|
  {
    turns != [] ==> CanTurn(node, turns[0]) && CanTurnAll(codec, Turned(codec, node, turns[0]), turns[1..])
  }

  ghost function TurnedAll(codec: Codec, node: Node, turns: seq<Turn>): Node
    requires CanTurnAll(codec, node, turns)
    decreases |turns|
  {
    if turns == [] then node else TurnedAll(codec, Turned(codec, node, turns[0]), turns[1..])
  }

  /** The state of a node that applied as many entries and never stopped. */
  ghost predicate OnCourse(history: seq<Entry>, d: StateMachineData) {
    Applied(d) <= |history| && d == At(history, Applied(d))
  }

  ghost predicate Taken(codec: Codec, record: SnapshotRecord, history: seq<Entry>) {
    exists n: nat :: TakenAt(codec, record, history, n)
  }

  ghost predicate NodeInv(codec: Codec, node: Node) {
    && Numbered(node.history)
    && (node.live.Some? ==> OnCourse(node.history, node.live.value))
    && Taken(codec, node.record, node.history)
    && (forall c | c in node.captured :: Taken(codec, c, node.history))
    && (node.incoming.Some? ==> OnCourse(node.history, node.incoming.value))
  }

  lemma AtIsOnCourse(history: seq<Entry>, n: nat)
    requires n <= |history| && Numbered(history)
    ensures Applied(At(history, n)) == n && OnCourse(history, At(history, n))
  {
    hide At;
    AppliedCount(history, n);
  }

  lemma CaptureIsTaken(codec: Codec, history: seq<Entry>, d: StateMachineData)
    requires OnCourse(history, d)
    ensures Taken(codec, SnapshotOf(codec, d), history)
  {
    assert TakenAt(codec, SnapshotOf(codec, d), history, Applied(d));
  }

  lemma LongerHistory(history: seq<Entry>, entry: Entry, n: nat)
    requires n <= |history|
    ensures At(history + [entry], n) == At(history, n)
  {
    assert (history + [entry])[..n] == history[..n];
  }

  lemma LearnKeeps(codec: Codec, history: seq<Entry>, entry: Entry)
    requires Numbered(history) && entry.logId.index == |history|
    ensures Numbered(history + [entry])
    ensures forall d | OnCourse(history, d) :: OnCourse(history + [entry], d)
    ensures forall c | Taken(codec, c, history) :: Taken(codec, c, history + [entry])
  {
    hide At;
    forall d | OnCourse(history, d) ensures OnCourse(history + [entry], d) {
      LongerHistory(history, entry, Applied(d));
    }
    forall c | Taken(codec, c, history) ensures Taken(codec, c, history + [entry]) {
      var n: nat :| TakenAt(codec, c, history, n);
      LongerHistory(history, entry, n);
      assert TakenAt(codec, c, history + [entry], n);
    }
  }

  lemma AcceptKeeps(codec: Codec, history: seq<Entry>, upto: nat)
    requires Inverts(codec) && Moderate(history) && Numbered(history) && upto <= |history|
    ensures var bytes := EncodeState(codec, At(history, upto));
            && DecodeState(codec, bytes).Some? && OnCourse(history, DecodeState(codec, bytes).value)
            && Taken(codec, Snapshot(At(history, upto).lastApplied, bytes), history)
  {
    hide At, DecodeState, EncodeState, Inverts, Moderate;
    RestartEquivalence(codec, history, upto, upto);
    AtIsOnCourse(history, upto);
    CaptureIsTaken(codec, history, At(history, upto));
  }

  lemma BounceKeeps(codec: Codec, d: DiskState, history: seq<Entry>)
    requires Inverts(codec) && Moderate(history) && Numbered(history)
    requires Taken(codec, d.snapshot, history) && Faithful(d, history)
    ensures Started(codec, d).Some? <==> Repairable(d) && Replayable(d)
    ensures Started(codec, d).Some? ==>
            && OnCourse(history, Started(codec, d).value)
            && Applied(Started(codec, d).value) == Max(ReplayStart(d.snapshot), ReplayEnd(Repaired(d)))
  {
    hide At, Started, Inverts, Moderate, Faithful, ReplayEnd, Repaired, Replayable;
    var n: nat :| TakenAt(codec, d.snapshot, history, n);
    StartRestores(codec, d, history, n);
    LoadTaken(codec, d.snapshot, history, n);
    AtIsOnCourse(history, Max(n, ReplayEnd(Repaired(d))));
  }

  lemma TurnKeeps(codec: Codec, node: Node, turn: Turn)
    requires Inverts(codec) && Moderate(node.history) && NodeInv(codec, node) && CanTurn(node, turn)
    ensures NodeInv(codec, Turned(codec, node, turn))
  {
    hide Moderate, At, DecodeState, EncodeState, ApplyEntry, Inverts, Started, Taken, Faithful;
    match turn
    case Learn(entry) => LearnKeeps(codec, node.history, entry);
    case ApplyNext =>
      AtNext(node.history, Applied(node.live.value));
      AtIsOnCourse(node.history, Applied(node.live.value) + 1);
    case Capture => CaptureIsTaken(codec, node.history, node.live.value);
    case Accept(upto) => AcceptKeeps(codec, node.history, upto);
    case Bounce(log, purged, committed) =>
      BounceKeeps(codec, DiskState(log, purged, committed, node.record), node.history);
    case _ =>
  }

  lemma {:induction false} ModerateBefore(codec: Codec, node: Node, turns: seq<Turn>)
    requires CanTurnAll(codec, node, turns) && Moderate(TurnedAll(codec, node, turns).history)
    ensures Moderate(node.history)
    decreases |turns|
  {
    hide CountersBelow, At, DecodeState, EncodeState, ApplyEntry, Started;
    if turns != [] {
      ModerateBefore(codec, Turned(codec, node, turns[0]), turns[1..]);
      if turns[0].Learn? {
        forall n: nat | n <= |node.history| ensures CountersBelow(At(node.history, n).queue) {
          LongerHistory(node.history, turns[0].entry, n);
        }
      }
    }
  }

  lemma {:induction false} TurnsKeep(codec: Codec, node: Node, turns: seq<Turn>)
    requires Inverts(codec) && NodeInv(codec, node) && CanTurnAll(codec, node, turns)
    requires Moderate(TurnedAll(codec, node, turns).history)
    ensures NodeInv(codec, TurnedAll(codec, node, turns))
    decreases |turns|
  {
    hide NodeInv, Moderate, Turned, CanTurn, Inverts;
    if turns != [] {
      ModerateBefore(codec, node, turns);
      TurnKeeps(codec, node, turns[0]);
      TurnsKeep(codec, Turned(codec, node, turns[0]), turns[1..]);
    }
  }

  const NEW_NODE := Node([], Some(DEFAULT), NoSnapshot, {}, None)

  lemma NewNode(codec: Codec)
    ensures NodeInv(codec, NEW_NODE)
  {
    AtZero([]);
    assert TakenAt(codec, NoSnapshot, [], 0);
  }

  /** However often a node captures and stores snapshots, takes over those of peers and restarts from what survived on its
      disk, and however these fall between one another, the state it has after any start that succeeds is a function of
      how far it has applied: the state of a node that applied as many entries and never stopped. */
  lemma RestartsNeverShow(codec: Codec, turns: seq<Turn>)
    requires Inverts(codec) && CanTurnAll(codec, NEW_NODE, turns)
    requires Moderate(TurnedAll(codec, NEW_NODE, turns).history)
    ensures var node := TurnedAll(codec, NEW_NODE, turns);
            && (node.live.Some? ==>
                  && Applied(node.live.value) <= |node.history|
                  && node.live.value == At(node.history, Applied(node.live.value)))
            && exists n: nat :: TakenAt(codec, node.record, node.history, n)
  {
    hide Moderate, Inverts, CanTurnAll, TurnedAll;
    NewNode(codec);
    TurnsKeep(codec, NEW_NODE, turns);
  }

  /** How far a start goes, and how far back: after any turns, it succeeds if and only if the records can be read and every
      entry to be replayed is there, and then has applied up to the commit pointer if the log serves it, and never less
      than the stored snapshot covers. */
  lemma StartGoesTo(codec: Codec, turns: seq<Turn>, log: Log, purged: Option<LogId>, committed: CommitRecord)
    requires Inverts(codec) && CanTurnAll(codec, NEW_NODE, turns)
    requires Moderate(TurnedAll(codec, NEW_NODE, turns).history)
    requires CanTurn(TurnedAll(codec, NEW_NODE, turns), Bounce(log, purged, committed))
    ensures var node := TurnedAll(codec, NEW_NODE, turns);
            var d := DiskState(log, purged, committed, node.record);
            var live := Turned(codec, node, Bounce(log, purged, committed)).live;
            && (live.Some? <==> Repairable(d) && Replayable(d))
            && (live.Some? ==>
                  Applied(live.value) == Max(ReplayStart(node.record), if Served(d) then committed.at.value.index + 1 else 0))
  {
    hide Moderate, Inverts, CanTurnAll, TurnedAll, Started, Faithful, Replayable, ReplayEnd, Repaired, Served, Taken, OnCourse;
    NewNode(codec);
    TurnsKeep(codec, NEW_NODE, turns);
    var node := TurnedAll(codec, NEW_NODE, turns);
    var d := DiskState(log, purged, committed, node.record);
    BounceKeeps(codec, d, node.history);
    TakenIsReadable(codec, node.record, node.history);
    ReplayEndIs(d);
  }

  lemma TakenIsReadable(codec: Codec, record: SnapshotRecord, history: seq<Entry>)
    requires Taken(codec, record, history)
    ensures !record.UnreadableSnapshot?
  {
  }

  // ---------------------------------------------------------------- an old snapshot stored late

  const PAIR := [LogCrash.ZERO, LogCrash.ONE]

  ghost predicate Reaches(codec: Codec, turns: seq<Turn>, node: Node) {
    CanTurnAll(codec, NEW_NODE, turns) && TurnedAll(codec, NEW_NODE, turns) == node
  }

  lemma Then(codec: Codec, turns: seq<Turn>, node: Node, turn: Turn, next: Node)
    requires Reaches(codec, turns, node) && CanTurn(node, turn) && Turned(codec, node, turn) == next
    ensures Reaches(codec, turns + [turn], next)
  {
    hide CanTurn, Turned, CanTurnAll, TurnedAll;
    TurnedAllAppend(codec, NEW_NODE, turns, turn);
  }

  lemma {:induction false} TurnedAllAppend(codec: Codec, node: Node, a: seq<Turn>, turn: Turn)
    requires CanTurnAll(codec, node, a) && CanTurn(TurnedAll(codec, node, a), turn)
    ensures CanTurnAll(codec, node, a + [turn])
    ensures TurnedAll(codec, node, a + [turn]) == Turned(codec, TurnedAll(codec, node, a), turn)
    decreases |a|
  {
    hide CanTurn, Turned;
    if a == [] {
      assert a + [turn] == [turn] && [turn][1..] == [];
    } else {
      assert (a + [turn])[0] == a[0] && (a + [turn])[1..] == a[1..] + [turn];
      TurnedAllAppend(codec, Turned(codec, node, a[0]), a[1..], turn);
    }
  }

  lemma PairIsModerate()
    ensures Numbered(PAIR) && Moderate(PAIR)
    ensures At(PAIR, 0) == DEFAULT && At(PAIR, 1) == ApplyEntry(DEFAULT, LogCrash.ZERO).0
  {
    hide At;
    AtZero(PAIR);
    AtNext(PAIR, 0);
    AtNext(PAIR, 1);
  }

  /** The turns up to the point where a builder holds a snapshot of one entry and the node has taken over one of two. */
  const LATE := [Learn(LogCrash.ZERO), Learn(LogCrash.ONE), ApplyNext, Capture, Accept(2), Switch]

  lemma LateRun(codec: Codec)
    requires Inverts(codec)
    ensures var one, two := At(PAIR, 1), At(PAIR, 2);
            Reaches(codec, LATE, Node(PAIR, Some(two), SnapshotOf(codec, two), {SnapshotOf(codec, one)}, None))
  {
    PairIsModerate();
    RestartEquivalence(codec, PAIR, 2, 2);
    hide At, DecodeState, EncodeState, ApplyEntry, Moderate, Reaches, Inverts;
    var one, two := At(PAIR, 1), At(PAIR, 2);
    var early := SnapshotOf(codec, one);
    assert Reaches(codec, [], NEW_NODE) by { NoTurns(codec); }
    Then(codec, [], NEW_NODE, LATE[0], NEW_NODE.(history := [LogCrash.ZERO]));
    Then(codec, [] + [LATE[0]], NEW_NODE.(history := [LogCrash.ZERO]), LATE[1], NEW_NODE.(history := PAIR));
    var applied := NEW_NODE.(history := PAIR, live := Some(one));
    Then(codec, [] + [LATE[0]] + [LATE[1]], NEW_NODE.(history := PAIR), LATE[2], applied);
    Then(codec, [] + [LATE[0]] + [LATE[1]] + [LATE[2]], applied, LATE[3], applied.(captured := {} + {early}));
    var taken := Node(PAIR, Some(one), SnapshotOf(codec, two), {early}, Some(two));
    Then(codec, [] + [LATE[0]] + [LATE[1]] + [LATE[2]] + [LATE[3]], applied.(captured := {early}), LATE[4], taken);
    Then(codec, [] + [LATE[0]] + [LATE[1]] + [LATE[2]] + [LATE[3]] + [LATE[4]], taken, LATE[5],
         taken.(live := Some(two), incoming := None));
    assert [] + [LATE[0]] + [LATE[1]] + [LATE[2]] + [LATE[3]] + [LATE[4]] + [LATE[5]] == LATE;
  }

  lemma NoTurns(codec: Codec)
    ensures Reaches(codec, [], NEW_NODE)
  {
  }

  /** A start can go back: a builder's snapshot of one entry, stored after the node has taken over one of two and its log has
      been purged to match, leaves a start at one entry, though two were applied and committed. */
  lemma LateStoreGoesBack(codec: Codec)
    requires Inverts(codec)
    ensures var one, two := At(PAIR, 1), At(PAIR, 2);
            var early := SnapshotOf(codec, one);
            var restart := Bounce(map[], Some(LogCrash.ONE.logId), Commit(Some(LogCrash.ONE.logId)));
            && Applied(one) == 1 && Applied(two) == 2
            && Reaches(codec, LATE, Node(PAIR, Some(two), SnapshotOf(codec, two), {early}, None))
            && Reaches(codec, LATE + [Persist(early)] + [restart], Node(PAIR, Some(one), early, {}, None))
  {
    hide At, EncodeState, Moderate, Inverts, Reaches, Started, DecodeState;
    var one, two := At(PAIR, 1), At(PAIR, 2);
    var early := Persist(SnapshotOf(codec, one));
    var restart := Bounce(map[], Some(LogCrash.ONE.logId), Commit(Some(LogCrash.ONE.logId)));
    PairIsModerate();
    LateRun(codec);
    AtIsOnCourse(PAIR, 1);
    AtIsOnCourse(PAIR, 2);
    var late := Node(PAIR, Some(two), SnapshotOf(codec, two), {SnapshotOf(codec, one)}, None);
    assert late.captured - {SnapshotOf(codec, one)} == {};
    var stored := Node(PAIR, Some(two), SnapshotOf(codec, one), {}, None);
    Then(codec, LATE, late, early, stored);
    var d := DiskState(map[], Some(LogCrash.ONE.logId), Commit(Some(LogCrash.ONE.logId)), stored.record);
    assert TakenAt(codec, stored.record, PAIR, 1);
    ReplayEndIs(d);
    StartRestores(codec, d, PAIR, 1);
    Then(codec, LATE + [early], stored, restart, stored.(live := Some(one)));
  }
}
