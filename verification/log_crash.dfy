/** What a crash leaves of the log: the database alone, at any instant of any run, failed writes included. */
module LogCrash {
  import opened Collections
  import opened LogStore
  import opened LogRuns

  // ---------------------------------------------------------------- entries lost to failed writes

  /** A failed write loses its batch to the database for good; a trim lets go of what it drops. */
  function LostNext(lost: set<nat>, w: World, e: Event): set<nat> {
    match e
    case WriteFail => lost + Indices(EntriesOf(w.flusher.jobs))
    case TrimDb => if w.writer.Trimmed? then set i | i in lost && Keeps(w.writer.trim, i) else lost
    case _ => lost
  }

  /** The indices whose write failed during the run and which no trim of the run has dropped since. */
  function Lost(lost: set<nat>, w: World, events: seq<Event>): set<nat>
    requires Possible(w, events)
    decreases |events|
  {
    if events == [] then lost else Lost(LostNext(lost, w, events[0]), Next(w, events[0]), events[1..])
  }

  function Awaiting(w: World): seq<Entry> { Unwritten(w.flusher, w.queue) }

  /** Every index of the log is in the database, lost or still to be written, and only one of them. */
  ghost predicate Accounted(log: Log, db: Log, lost: set<nat>, awaiting: seq<Entry>) {
    && HoldsAll(log, awaiting)
    && (forall i | i in lost :: i in log && i !in db)
    && (forall i, e | i in lost && e in awaiting :: i < e.logId.index)
    && (forall i | i in db :: i in log && log[i] == db[i])
    && (forall i | i in log :: i in db || i in lost || i in Indices(awaiting))
  }

  lemma AppendAccounted(w: World, lost: set<nat>, entries: seq<Entry>)
    requires StoreInv(w) && Enabled(w, Append(entries)) && Accounted(w.log, w.db, lost, Awaiting(w))
    ensures var r := Next(w, Append(entries)); Accounted(r.log, r.db, lost, Awaiting(r))
  {
    var r := Next(w, Append(entries));
    assert Awaiting(r) == Awaiting(w) + entries by {
      QueuedEntries(w.flusher, w.queue, AppendJob(entries));
    }
    assert forall e | e in Awaiting(w) :: e.logId.index < w.tail by { AwaitingBelowTail(w); }
    assert BelowTail(w.log, w.tail) && Ascending(entries, w.tail);
    hide StoreInv, Unwritten, ToLog, Indices, Awaiting;
    Appended(entries, w.tail);
    ToLogFacts(entries, w.tail);
    IndicesJoin(Awaiting(w), entries);
    Unmerged(w.log, ToLog(entries), Awaiting(w), w.tail);
    forall e | e in entries ensures Holds(w.log + ToLog(entries), e) {
      assert Holds(ToLog(entries), e);
    }
    AccountMore(w.log, w.db, lost, Awaiting(w), entries, w.tail);
  }

  lemma AccountMore(log: Log, db: Log, lost: set<nat>, awaiting: seq<Entry>, entries: seq<Entry>, tail: nat)
    requires Accounted(log, db, lost, awaiting) && BelowTail(log, tail) && Ascending(entries, tail)
    requires HoldsAll(log + ToLog(entries), awaiting) && HoldsAll(log + ToLog(entries), entries)
    requires ToLog(entries).Keys == Indices(entries) && forall i | i in ToLog(entries) :: i >= tail
    ensures Accounted(log + ToLog(entries), db, lost, awaiting + entries)
  {
    hide ToLog, Indices, HoldsAll;
    IndicesJoin(awaiting, entries);
    assert HoldsAll(log + ToLog(entries), awaiting + entries) by { HoldsJoin(log + ToLog(entries), awaiting, entries); }
  }

  lemma HoldsJoin(log: Log, a: seq<Entry>, b: seq<Entry>)
    requires HoldsAll(log, a) && HoldsAll(log, b)
    ensures HoldsAll(log, a + b)
  {
  }

  lemma AwaitingBelowTail(w: World)
    requires StoreInv(w)
    ensures forall e | e in Awaiting(w) :: e.logId.index < w.tail
  {
    hide Ascending, EntriesOf, OverlayOk, BarrierOk, FrontierOk, Holds;
    PipeEntries(w.flusher, w.queue);
  }

  /** The batch leaves the waiting entries, for the database or for good. */
  lemma BatchLeaves(w: World)
    requires StoreInv(w) && w.flusher.Collecting?
    ensures var batch := EntriesOf(w.flusher.jobs);
            && Awaiting(w) == batch + EntriesOf(w.queue) && Ascending(batch, 0)
            && (forall x, y | x in batch && y in EntriesOf(w.queue) :: x.logId.index < y.logId.index)
            && (forall i, e | i in w.db && e in batch :: i < e.logId.index)
  {
    hide OverlayOk, BarrierOk, PurgedOk, BelowTail, EntriesOf, Holds;
    PipeEntries(w.flusher, w.queue);
    AscendingSplit(EntriesOf(w.flusher.jobs), EntriesOf(w.queue), 0);
  }

  lemma WriteAccounted(log: Log, db: Log, lost: set<nat>, batch: seq<Entry>, rest: seq<Entry>)
    requires Accounted(log, db, lost, batch + rest) && Ascending(batch, 0)
    ensures Accounted(log, db + ToLog(batch), lost, rest)
  {
    hide ToLog, Indices;
    ToLogFacts(batch, 0);
    IndicesJoin(batch, rest);
    forall i | i in ToLog(batch) ensures i in log && log[i] == ToLog(batch)[i] && i !in lost {
      var e := ToLog(batch)[i];
      assert e in batch + rest && Holds(log, e);
    }
    assert forall e | e in rest :: e in batch + rest;
  }

  lemma FailAccounted(log: Log, db: Log, lost: set<nat>, batch: seq<Entry>, rest: seq<Entry>)
    requires Accounted(log, db, lost, batch + rest)
    requires forall x, y | x in batch && y in rest :: x.logId.index < y.logId.index
    requires forall i, e | i in db && e in batch :: i < e.logId.index
    ensures Accounted(log, db, lost + Indices(batch), rest)
  {
    IndicesJoin(batch, rest);
    assert forall e | e in batch || e in rest :: e in batch + rest;
    forall i | i in Indices(batch) ensures i in log && i !in db && forall e | e in rest :: i < e.logId.index {
      var x :| x in batch && x.logId.index == i;
      assert Holds(log, x);
    }
  }

  lemma TrimAccounted(log: Log, db: Log, lost: set<nat>, trim: Trim)
    requires Accounted(log, db, lost, [])
    ensures Accounted(Kept(log, trim), Kept(db, trim), set i | i in lost && Keeps(trim, i), [])
  {
  }

  lemma StepAccounted(w: World, lost: set<nat>, e: Event)
    requires StoreInv(w) && Enabled(w, e) && Accounted(w.log, w.db, lost, Awaiting(w))
    ensures var r := Next(w, e); Accounted(r.log, r.db, LostNext(lost, w, e), Awaiting(r))
  {
    var r := Next(w, e);
    match e
    case Append(entries) => AppendAccounted(w, lost, entries);
    case WriteOk =>
      BatchLeaves(w);
      WriteAccounted(w.log, w.db, lost, EntriesOf(w.flusher.jobs), EntriesOf(w.queue));
    case WriteFail =>
      BatchLeaves(w);
      FailAccounted(w.log, w.db, lost, EntriesOf(w.flusher.jobs), EntriesOf(w.queue));
    case TrimDb =>
      assert Awaiting(w) == [] && Awaiting(r) == [] by { Drained(w.flusher, w.queue, w.writer); }
      TrimDbParts(w);
      hide StoreInv;
      TrimAccounted(w.log, w.db, lost, w.writer.trim);
    case _ => SameAwaiting(w, e);
  }

  lemma SameAwaiting(w: World, e: Event)
    requires Enabled(w, e) && (e.Receive? || e.Clean? || e.Finish? || e.SendBarrier? || e.TrimPending?)
    ensures Awaiting(Next(w, e)) == Awaiting(w)
  {
    hide EntriesOf, Indices;
    match e
    case Receive => ReceivedPipe(w.flusher, w.queue);
    case SendBarrier(trim) => BarrierAddsNothing(w.flusher, w.queue);
    case Finish => assert Pipe(Collecting([]), w.queue) == w.queue;
    case _ =>
  }

  lemma {:induction false} RunAccounted(w: World, lost: set<nat>, events: seq<Event>)
    requires StoreInv(w) && Possible(w, events) && Accounted(w.log, w.db, lost, Awaiting(w))
    ensures var r := After(w, events);
            StoreInv(r) && Accounted(r.log, r.db, Lost(lost, w, events), Awaiting(r))
    decreases |events|
  {
    hide StoreInv, Accounted, LostNext, Awaiting;
    if events != [] {
      StepKeeps(w, events[0]);
      StepAccounted(w, lost, events[0]);
      RunAccounted(Next(w, events[0]), LostNext(lost, w, events[0]), events[1..]);
    }
  }

  lemma OpenedAccounted(db: Log, purged: Option<nat>, tail: nat)
    ensures var o := Opened(db, purged, tail); Accounted(o.log, o.db, {}, Awaiting(o))
  {
    assert Awaiting(Opened(db, purged, tail)) == [];
  }

  // ---------------------------------------------------------------- what the crash leaves

  lemma DbBelowFrontier(w: World)
    requires StoreInv(w)
    ensures BelowTail(w.log, w.tail) && forall i | i in w.db :: i < Frontier(w)
  {
    hide JobsOk, OverlayOk, BarrierOk, PurgedOk, AbovePurged, Unwritten;
    var awaiting := Awaiting(w);
    if awaiting != [] {
      assert awaiting[0] in awaiting;
    }
  }

  lemma AccountedCut(w: World, lost: set<nat>)
    requires StoreInv(w) && Accounted(w.log, w.db, lost, Awaiting(w))
    ensures w.db == Kept(w.log - lost, Truncate(Frontier(w)))
  {
    hide StoreInv, Unwritten, Frontier, HoldsAll, BelowTail, Indices;
    DbBelowFrontier(w);
    forall i | i in w.log && i < Frontier(w) ensures i !in Indices(Awaiting(w)) {
      BelowFrontier(w, i);
    }
  }

  /** A crash at any instant of any run, failed writes included, leaves exactly the log cut at the first index still to be
      written, without the indices lost to failed writes. */
  lemma CrashLeaves(db: Log, purged: Option<nat>, tail: nat, events: seq<Event>)
    requires Openable(db, purged, tail) && Possible(Opened(db, purged, tail), events)
    ensures var o := Opened(db, purged, tail);
            var w := After(o, events);
            w.db == Kept(w.log - Lost({}, o, events), Truncate(Frontier(w)))
  {
    hide StoreInv, Accounted, Frontier;
    var o := Opened(db, purged, tail);
    OpenedInv(db, purged, tail);
    OpenedAccounted(db, purged, tail);
    RunAccounted(o, {}, events);
    AccountedCut(After(o, events), Lost({}, o, events));
  }

  /** What is lost is still in the log. */
  lemma LostIsLogged(db: Log, purged: Option<nat>, tail: nat, events: seq<Event>)
    requires Openable(db, purged, tail) && Possible(Opened(db, purged, tail), events)
    ensures Lost({}, Opened(db, purged, tail), events) <= After(Opened(db, purged, tail), events).log.Keys
  {
    hide StoreInv, After, Lost, HoldsAll, Awaiting, Indices;
    var o := Opened(db, purged, tail);
    OpenedInv(db, purged, tail);
    OpenedAccounted(db, purged, tail);
    RunAccounted(o, {}, events);
  }

  lemma {:induction false} NoFailureNoLoss(w: World, events: seq<Event>)
    requires Possible(w, events) && !After(w, events).failed
    ensures !w.failed && Lost({}, w, events) == {}
    decreases |events|
  {
    hide EntriesOf, ToLog, Indices, Kept;
    if events != [] {
      NoFailureNoLoss(Next(w, events[0]), events[1..]);
      assert LostNext({}, w, events[0]) == {};
    }
  }

  /** So while no write has failed it leaves a prefix of the log: nothing below the cut is missing. */
  lemma CrashLeavesPrefix(db: Log, purged: Option<nat>, tail: nat, events: seq<Event>)
    requires Openable(db, purged, tail) && Possible(Opened(db, purged, tail), events)
    requires !After(Opened(db, purged, tail), events).failed
    ensures var w := After(Opened(db, purged, tail), events); w.db == Kept(w.log, Truncate(Frontier(w)))
  {
    hide Frontier, After, Lost;
    var o := Opened(db, purged, tail);
    CrashLeaves(db, purged, tail, events);
    NoFailureNoLoss(o, events);
    assert After(o, events).log - {} == After(o, events).log;
  }

  // ---------------------------------------------------------------- holes

  /** Every index from the first one held up to the tail is held. */
  ghost predicate Dense(log: Log, tail: nat) {
    forall i, j | i in log && i <= j < tail :: j in log
  }

  /** Raft appends consecutive indices starting at the tail. */
  predicate Consecutive(w: World, events: seq<Event>)
    requires Possible(w, events)
    decreases |events|
  {
    events != [] ==>
      && (events[0].Append? ==> forall k | 0 <= k < |events[0].entries| :: events[0].entries[k].logId.index == w.tail + k)
      && Consecutive(Next(w, events[0]), events[1..])
  }

  lemma AppendDense(w: World, entries: seq<Entry>)
    requires w.writer.Ready? && Ascending(entries, w.tail) && Dense(w.log, w.tail)
    requires forall k | 0 <= k < |entries| :: entries[k].logId.index == w.tail + k
    ensures Dense(w.log + ToLog(entries), NextTail(entries, w.tail))
  {
    hide ToLog, Indices, Ascending;
    ToLogFacts(entries, w.tail);
    forall j | w.tail <= j < NextTail(entries, w.tail) ensures j in ToLog(entries) {
      var e := entries[j - w.tail];
      assert e in entries && Holds(ToLog(entries), e);
    }
  }

  lemma StepDense(w: World, e: Event)
    requires Enabled(w, e) && Dense(w.log, w.tail) && BelowTail(w.log, w.tail)
    requires e.Append? ==> forall k | 0 <= k < |e.entries| :: e.entries[k].logId.index == w.tail + k
    ensures Dense(Next(w, e).log, Next(w, e).tail)
  {
    if e.Append? {
      AppendDense(w, e.entries);
    } else {
      hide ToLog, EntriesOf;
    }
  }

  lemma {:induction false} RunDense(w: World, events: seq<Event>)
    requires StoreInv(w) && Possible(w, events) && Consecutive(w, events) && Dense(w.log, w.tail)
    ensures Dense(After(w, events).log, After(w, events).tail) && BelowTail(After(w, events).log, After(w, events).tail)
    decreases |events|
  {
    hide Dense, EntriesOf, ToLog, JobsOk, FrontierOk, OverlayOk, BarrierOk, PurgedOk, BelowTail;
    if events != [] {
      StepKeeps(w, events[0]);
      StepDense(w, events[0]);
      RunDense(Next(w, events[0]), events[1..]);
    }
  }

  /** No index strictly between two held ones is missing. */
  ghost predicate Contiguous(log: Log) {
    forall i, j, k | i in log && k in log && i <= j <= k :: j in log
  }

  /** No lost index lies between two written ones. */
  ghost predicate NoneBetween(lost: set<nat>, db: Log) {
    forall i, l, k | i in db && l in lost && k in db :: !(i < l < k)
  }

  lemma CutIsContiguousIff(log: Log, tail: nat, lost: set<nat>, n: nat, db: Log)
    requires Dense(log, tail) && BelowTail(log, tail) && db == Kept(log - lost, Truncate(n))
    ensures Contiguous(db) <==> NoneBetween(lost, db)
  {
    if NoneBetween(lost, db) {
      forall i, j, k | i in db && k in db && i <= j <= k ensures j in db {
        assert j in log;
      }
    } else {
      var i, l, k :| i in db && l in lost && k in db && i < l < k;
      assert l !in db;
    }
  }

  /** The log a crash leaves, at any instant of any run with Raft's append discipline, is contiguous if and only if no index
      lost to a failed write lies between two written ones. */
  lemma CrashLeavesNoHoleIff(db: Log, purged: Option<nat>, tail: nat, events: seq<Event>)
    requires Openable(db, purged, tail) && Dense(db, tail)
    requires var o := Opened(db, purged, tail); Possible(o, events) && Consecutive(o, events)
    ensures var o := Opened(db, purged, tail);
            Contiguous(After(o, events).db) <==> NoneBetween(Lost({}, o, events), After(o, events).db)
  {
    hide StoreInv, Dense, Frontier, After, Lost, Contiguous, NoneBetween, Consecutive, Kept;
    var o := Opened(db, purged, tail);
    var w := After(o, events);
    OpenedInv(db, purged, tail);
    RunDense(o, events);
    CrashLeaves(db, purged, tail, events);
    CutIsContiguousIff(w.log, w.tail, Lost({}, o, events), Frontier(w), w.db);
  }

  /** Nothing is written while something is lost: each write of a batch finds nothing lost. */
  predicate StopsAfterFailure(lost: set<nat>, w: World, events: seq<Event>)
    requires Possible(w, events)
    decreases |events|
  {
    events != [] ==>
      && (events[0].WriteOk? && EntriesOf(w.flusher.jobs) != [] ==> lost == {})
      && StopsAfterFailure(LostNext(lost, w, events[0]), Next(w, events[0]), events[1..])
  }

  ghost predicate LostAbove(lost: set<nat>, db: Log) {
    forall l, i | l in lost && i in db :: i < l
  }

  lemma FailLostAbove(lost: set<nat>, db: Log, batch: seq<Entry>)
    requires LostAbove(lost, db) && forall i, e | i in db && e in batch :: i < e.logId.index
    ensures LostAbove(lost + Indices(batch), db)
  {
  }

  lemma EmptyWrite(db: Log)
    ensures db + ToLog([]) == db
  {
  }

  lemma StepLostAbove(w: World, lost: set<nat>, e: Event)
    requires StoreInv(w) && Enabled(w, e) && LostAbove(lost, w.db)
    requires e.WriteOk? && EntriesOf(w.flusher.jobs) != [] ==> lost == {}
    ensures LostAbove(LostNext(lost, w, e), Next(w, e).db)
  {
    hide StoreInv, EntriesOf, Indices, ToLog;
    match e
    case WriteFail =>
      BatchLeaves(w);
      FailLostAbove(lost, w.db, EntriesOf(w.flusher.jobs));
    case WriteOk => EmptyWrite(w.db);
    case TrimDb => TrimDbParts(w);
    case _ =>
  }

  lemma {:induction false} RunLostAbove(w: World, lost: set<nat>, events: seq<Event>)
    requires StoreInv(w) && Possible(w, events) && LostAbove(lost, w.db) && StopsAfterFailure(lost, w, events)
    ensures LostAbove(Lost(lost, w, events), After(w, events).db)
    decreases |events|
  {
    hide StoreInv, LostAbove, LostNext, EntriesOf;
    if events != [] {
      StepKeeps(w, events[0]);
      StepLostAbove(w, lost, events[0]);
      RunLostAbove(Next(w, events[0]), LostNext(lost, w, events[0]), events[1..]);
    }
  }

  /** In particular it stays contiguous as long as, after a failed write, no batch is written until a trim has dropped the
      indices that failed. */
  lemma StoppingLeavesNoHole(db: Log, purged: Option<nat>, tail: nat, events: seq<Event>)
    requires Openable(db, purged, tail) && Dense(db, tail)
    requires var o := Opened(db, purged, tail);
             Possible(o, events) && Consecutive(o, events) && StopsAfterFailure({}, o, events)
    ensures Contiguous(After(Opened(db, purged, tail), events).db)
  {
    hide StoreInv, Dense, After, Lost, Contiguous, Consecutive, StopsAfterFailure;
    var o := Opened(db, purged, tail);
    OpenedInv(db, purged, tail);
    RunLostAbove(o, {}, events);
    CrashLeavesNoHoleIff(db, purged, tail, events);
  }

  // ---------------------------------------------------------------- and a hole

  const ZERO := Entry(LogId(1, 0), Blank)
  const ONE := Entry(LogId(1, 1), Blank)
  const TWO := Entry(LogId(1, 2), Blank)
  const FAILING := [Append([ONE]), Receive, WriteFail, Finish]
  const REFILLING := [Append([TWO]), Receive, WriteOk, Clean]

  /** A store opened on index 0, after the write of index 1 failed and that of index 2 succeeded. */
  const HOLED :=
    World(map[0 := ZERO, 2 := TWO], map[1 := ONE], [], Cleaned([AppendJob([TWO])]), Ready, None,
          map[0 := ZERO, 1 := ONE, 2 := TWO], 3, true)
  const FAILED :=
    World(map[0 := ZERO], map[1 := ONE], [], Collecting([]), Ready, None, map[0 := ZERO, 1 := ONE], 2, true)

  lemma FailingRun()
    ensures Possible(Opened(map[0 := ZERO], None, 1), FAILING)
    ensures After(Opened(map[0 := ZERO], None, 1), FAILING) == FAILED
  {
    hide ToLog, EntriesOf, Indices, Possible, After;
    var o := Opened(map[0 := ZERO], None, 1);
    OneEntry(ONE);
    OneTaken(o, ONE);
    FourSteps(o, Append([ONE]), Receive, WriteFail, Finish);
  }

  lemma RefillingRun()
    ensures Possible(FAILED, REFILLING) && After(FAILED, REFILLING) == HOLED
  {
    hide ToLog, EntriesOf, Indices, Possible, After;
    OneEntry(TWO);
    OneTaken(FAILED, TWO);
    OneAdded(map[0 := ZERO], TWO);
    assert map[1 := ONE, 2 := TWO] - {2} == map[1 := ONE];
    FourSteps(FAILED, Append([TWO]), Receive, WriteOk, Clean);
  }

  /** The condition can fail: a failed write followed by a successful one leaves indices 0 and 2 in the database and 1 in
      memory only, so a crash leaves a hole. */
  lemma FailedWriteLeavesHole()
    ensures Possible(Opened(map[0 := ZERO], None, 1), FAILING)
    ensures Possible(After(Opened(map[0 := ZERO], None, 1), FAILING), REFILLING)
    ensures var w := After(After(Opened(map[0 := ZERO], None, 1), FAILING), REFILLING);
            w.log.Keys == {0, 1, 2} && w.db.Keys == {0, 2} && !Contiguous(w.db)
  {
    FailingRun();
    RefillingRun();
    hide Possible, After;
    assert 0 in HOLED.db && 2 in HOLED.db && 1 !in HOLED.db;
  }
}
