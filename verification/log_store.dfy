/** The Raft log store: an in-memory `pending` map, a FIFO of flush jobs and a background flusher that together
    stand for one ordered log.

    The protocol is a state machine over the points where the threads can interleave: the single writer's appends,
    barriers, trims and truncations, and the flusher's receives, database writes, clean-ups and callbacks. */
module LogStore {
  import opened Collections
  import opened Model

  datatype LogId = LogId(term: nat, index: nat)

  datatype Payload = Blank | Membership(nodes: set<nat>) | Normal(request: Request)

  datatype Entry = Entry(logId: LogId, payload: Payload)

  type Log = map<nat, Entry>

  datatype Job = AppendJob(entries: seq<Entry>) | BarrierJob

  /** Where the flusher is in its round, with the jobs it took. */
  datatype Flusher = Collecting(jobs: seq<Job>) | Wrote(jobs: seq<Job>) | Cleaned(jobs: seq<Job>) | Failed(jobs: seq<Job>)

  datatype Trim = Truncate(from: nat) | Purge(upto: nat)

  /** Where the writer is in a truncation or purge. */
  datatype Writer = Ready | Waiting(trim: Trim) | Released(trim: Trim) | Trimmed(trim: Trim)

  /** The store, and beside it what it stands for: the log the writer has asked for, the index the next append
      starts from, and whether a database write has failed. */
  datatype World = World(
    db: Log,
    pending: Log,
    queue: seq<Job>,
    flusher: Flusher,
    writer: Writer,
    purged: Option<nat>,
    log: Log,
    tail: nat,
    failed: bool)

  datatype Event =
    | Append(entries: seq<Entry>)
    | Receive
    | WriteOk
    | WriteFail
    | Clean
    | Finish
    | SendBarrier(trim: Trim)
    | TrimPending
    | TrimDb

  // ---------------------------------------------------------------- steps

  function ToLog(entries: seq<Entry>): Log
    decreases |entries|
  {
    if entries == [] then map[]
    else ToLog(entries[..|entries| - 1])[entries[|entries| - 1].logId.index := entries[|entries| - 1]]
  }

  function Indices(entries: seq<Entry>): set<nat> {
    set e | e in entries :: e.logId.index
  }

  function EntriesOf(jobs: seq<Job>): seq<Entry>
    decreases |jobs|
  {
    if jobs == [] then []
    else (if jobs[0].AppendJob? then jobs[0].entries else []) + EntriesOf(jobs[1..])
  }

  predicate Keeps(trim: Trim, i: nat) {
    match trim
    case Truncate(from) => i < from
    case Purge(upto) => i > upto
  }

  function Kept(log: Log, trim: Trim): Log {
    map i | i in log && Keeps(trim, i) :: log[i]
  }

  /** Strictly increasing indices, all at or above `from`. */
  predicate Ascending(entries: seq<Entry>, from: nat) {
    && (forall i, j :: 0 <= i < j < |entries| ==> entries[i].logId.index < entries[j].logId.index)
    && (forall e | e in entries :: e.logId.index >= from)
  }

  function NextTail(entries: seq<Entry>, tail: nat): nat {
    if entries == [] then tail else entries[|entries| - 1].logId.index + 1
  }

  predicate HasBarrier(jobs: seq<Job>) { BarrierJob in jobs }

  /** Raft only truncates above what it has purged. */
  predicate AbovePurged(trim: Trim, purged: Option<nat>) {
    trim.Truncate? && purged.Some? ==> trim.from > purged.value
  }

  predicate Enabled(w: World, e: Event) {
    match e
    case Append(entries) => w.writer.Ready? && Ascending(entries, w.tail)
    case Receive => w.flusher.Collecting? && w.queue != [] && !HasBarrier(w.flusher.jobs)
    case WriteOk => w.flusher.Collecting? && w.flusher.jobs != []
    case WriteFail => w.flusher.Collecting? && EntriesOf(w.flusher.jobs) != []
    case Clean => w.flusher.Wrote?
    case Finish => w.flusher.Cleaned? || w.flusher.Failed?
    case SendBarrier(trim) => w.writer.Ready? && AbovePurged(trim, w.purged)
    case TrimPending => w.writer.Released?
    case TrimDb => w.writer.Trimmed?
  }

  /** Truncation cuts the database; a purge does so only past the recorded marker, which it moves. */
  function TrimDatabase(w: World, trim: Trim): World {
    if trim.Purge? && w.purged.Some? && w.purged.value >= trim.upto then w
    else w.(db := Kept(w.db, trim), purged := if trim.Purge? then Some(trim.upto) else w.purged)
  }

  function Next(w: World, e: Event): World
    requires Enabled(w, e)
  {
    match e
    case Append(entries) =>
      w.(pending := w.pending + ToLog(entries), queue := w.queue + [AppendJob(entries)],
         log := w.log + ToLog(entries), tail := NextTail(entries, w.tail))
    case Receive => w.(flusher := Collecting(w.flusher.jobs + [w.queue[0]]), queue := w.queue[1..])
    case WriteOk => w.(db := w.db + ToLog(EntriesOf(w.flusher.jobs)), flusher := Wrote(w.flusher.jobs))
    case WriteFail => w.(flusher := Failed(w.flusher.jobs), failed := true)
    case Clean =>
      w.(pending := w.pending - Indices(EntriesOf(w.flusher.jobs)), flusher := Cleaned(w.flusher.jobs))
    case Finish =>
      w.(writer := if HasBarrier(w.flusher.jobs) && w.writer.Waiting? then Released(w.writer.trim) else w.writer,
         flusher := Collecting([]))
    case SendBarrier(trim) => w.(queue := w.queue + [BarrierJob], writer := Waiting(trim))
    case TrimPending => w.(pending := Kept(w.pending, w.writer.trim), writer := Trimmed(w.writer.trim))
    case TrimDb =>
      var trim := w.writer.trim;
      TrimDatabase(w, trim).(
        log := Kept(w.log, trim), writer := Ready,
        tail := match trim case Truncate(from) => Min(w.tail, from) case Purge(upto) => Max(w.tail, upto + 1))
  }

  predicate Possible(w: World, events: seq<Event>)
    decreases |events|
  {
    events != [] ==> Enabled(w, events[0]) && Possible(Next(w, events[0]), events[1..])
  }

  function After(w: World, events: seq<Event>): World
    requires Possible(w, events)
    decreases |events|
  {
    if events == [] then w else After(Next(w, events[0]), events[1..])
  }

  /** A store opened on a database, with nothing pending. */
  function Opened(db: Log, purged: Option<nat>, tail: nat): World {
    World(db, map[], [], Collecting([]), Ready, purged, db, tail, false)
  }

  // ---------------------------------------------------------------- the invariant

  ghost predicate Holds(log: Log, e: Entry) {
    e.logId.index in log && log[e.logId.index] == e
  }

  ghost predicate HoldsAll(log: Log, entries: seq<Entry>) {
    forall e | e in entries :: Holds(log, e)
  }

  /** All jobs in the pipe, oldest first. */
  function Pipe(f: Flusher, queue: seq<Job>): seq<Job> { f.jobs + queue }

  ghost predicate BelowTail(log: Log, tail: nat) { forall i | i in log :: i < tail }

  /** At most one barrier is in the pipe, it is last, and it is there exactly while the writer waits for it. */
  ghost predicate BarrierOk(f: Flusher, queue: seq<Job>, writer: Writer) {
    var pipe := Pipe(f, queue);
    && (forall k | 0 <= k < |pipe| - 1 :: pipe[k].AppendJob?)
    && (writer.Waiting? <==> pipe != [] && pipe[|pipe| - 1].BarrierJob?)
    && (writer.Released? || writer.Trimmed? ==> pipe == [] && f.Collecting?)
  }

  /** The queued and collected entries ascend below the tail, and each is where its job has brought it. */
  ghost predicate JobsOk(f: Flusher, queue: seq<Job>, pending: Log, db: Log, tail: nat) {
    && Ascending(EntriesOf(Pipe(f, queue)), 0)
    && (forall e | e in EntriesOf(Pipe(f, queue)) :: e.logId.index < tail)
    && HoldsAll(pending, EntriesOf(queue))
    && (f.Collecting? || f.Wrote? ==> HoldsAll(pending, EntriesOf(f.jobs)))
    && (f.Wrote? || f.Cleaned? ==> HoldsAll(db, EntriesOf(f.jobs)))
  }

  /** The database overlaid with the pending map is the log, also inside a trim for the entries it keeps. */
  ghost predicate OverlayOk(overlay: Log, pending: Log, log: Log, writer: Writer, failed: bool) {
    if writer.Trimmed?
    then && Kept(overlay, writer.trim) == Kept(log, writer.trim)
         && (forall i | i in pending :: Keeps(writer.trim, i))
         && (!failed ==> overlay == log)
    else overlay == log
  }

  /** Entries not written yet: the queue, and what the flusher is still collecting. */
  function Unwritten(f: Flusher, queue: seq<Job>): seq<Entry> {
    if f.Collecting? then EntriesOf(Pipe(f, queue)) else EntriesOf(queue)
  }

  /** Entries still in memory unless a write failed: not cleaned yet. */
  function Uncleaned(f: Flusher, queue: seq<Job>): seq<Entry> {
    if f.Collecting? || f.Wrote? then EntriesOf(Pipe(f, queue)) else EntriesOf(queue)
  }

  /** The database lies below everything unwritten, and unless a write failed only the uncleaned is pending. */
  ghost predicate FrontierOk(f: Flusher, queue: seq<Job>, db: Log, pending: Log, failed: bool) {
    && (forall i, e | i in db && e in Unwritten(f, queue) :: i < e.logId.index)
    && (!failed ==> !f.Failed? && forall i | i in pending :: i in Indices(Uncleaned(f, queue)))
  }

  ghost predicate PurgedOk(purged: Option<nat>, overlay: Log, tail: nat) {
    purged.Some? ==> purged.value < tail && forall i | i in overlay :: i > purged.value
  }

  ghost predicate StoreInv(w: World) {
    && BarrierOk(w.flusher, w.queue, w.writer)
    && JobsOk(w.flusher, w.queue, w.pending, w.db, w.tail)
    && OverlayOk(w.db + w.pending, w.pending, w.log, w.writer, w.failed)
    && FrontierOk(w.flusher, w.queue, w.db, w.pending, w.failed)
    && PurgedOk(w.purged, w.db + w.pending, w.tail)
    && (!w.writer.Ready? ==> AbovePurged(w.writer.trim, w.purged))
    && BelowTail(w.db, w.tail) && BelowTail(w.pending, w.tail) && BelowTail(w.log, w.tail)
  }

  // ---------------------------------------------------------------- entries and maps

  lemma ToLogStep(init: seq<Entry>, log: Log, last: Entry, r: Log)
    requires HoldsAll(log, init) && log.Keys == Indices(init)
    requires forall i | i in log :: log[i] in init && log[i].logId.index == i
    requires forall e | e in init :: e.logId.index < last.logId.index
    requires r == log[last.logId.index := last]
    ensures r.Keys == Indices(init + [last])
    ensures HoldsAll(r, init + [last])
    ensures forall i | i in r :: r[i] in init + [last] && r[i].logId.index == i
  {
    hide Indices;
    IndicesJoin(init, [last]);
    IndicesOne(last);
    forall e | e in init + [last] ensures Holds(r, e) {
      assert e in init ==> Holds(log, e);
    }
  }

  lemma {:induction false} ToLogFacts(entries: seq<Entry>, from: nat)
    requires Ascending(entries, from)
    ensures ToLog(entries).Keys == Indices(entries)
    ensures HoldsAll(ToLog(entries), entries)
    ensures forall i | i in ToLog(entries) :: ToLog(entries)[i] in entries && ToLog(entries)[i].logId.index == i
    decreases |entries|
  {
    hide Ascending, Indices, HoldsAll;
    if entries == [] {
      NothingHeld();
    } else {
      var init, last := entries[..|entries| - 1], entries[|entries| - 1];
      assert entries == init + [last];
      AscendingSplit(init, [last], from);
      ToLogFacts(init, from);
      ToLogStep(init, ToLog(init), last, ToLog(entries));
    }
  }

  lemma NothingHeld()
    ensures HoldsAll(map[], []) && Indices([]) == {}
  {
  }

  lemma {:induction false} EntriesAppend(a: seq<Job>, b: seq<Job>)
    ensures EntriesOf(a + b) == EntriesOf(a) + EntriesOf(b)
    decreases |a|
  {
    if a == [] {
      assert a + b == b;
    } else {
      assert (a + b)[1..] == a[1..] + b;
      EntriesAppend(a[1..], b);
    }
  }

  lemma EntriesOne(job: Job)
    ensures EntriesOf([job]) == if job.AppendJob? then job.entries else []
  {
    assert [job][1..] == [];
  }

  lemma PipeEntries(f: Flusher, queue: seq<Job>)
    ensures EntriesOf(Pipe(f, queue)) == EntriesOf(f.jobs) + EntriesOf(queue)
  {
    EntriesAppend(f.jobs, queue);
  }

  /** The two parts of an ascending sequence are ascending, and ordered. */
  lemma AscendingSplit(a: seq<Entry>, b: seq<Entry>, from: nat)
    requires Ascending(a + b, from)
    ensures Ascending(a, from) && Ascending(b, from)
    ensures forall x, y | x in a && y in b :: x.logId.index < y.logId.index
  {
    assert forall x | x in a :: x in a + b;
    assert forall x | x in b :: x in a + b;
    forall x, y | x in a && y in b ensures x.logId.index < y.logId.index {
      var i :| 0 <= i < |a| && a[i] == x;
      var j :| 0 <= j < |b| && b[j] == y;
      assert (a + b)[i] == x && (a + b)[|a| + j] == y;
    }
    forall i, j | 0 <= i < j < |b| ensures b[i].logId.index < b[j].logId.index {
      assert (a + b)[|a| + i] == b[i] && (a + b)[|a| + j] == b[j];
    }
    forall i, j | 0 <= i < j < |a| ensures a[i].logId.index < a[j].logId.index {
      assert (a + b)[i] == a[i] && (a + b)[j] == a[j];
    }
  }

  lemma IndicesOne(e: Entry)
    ensures Indices([e]) == {e.logId.index}
  {
    assert e in [e];
  }

  lemma IndicesJoin(a: seq<Entry>, b: seq<Entry>)
    ensures Indices(a + b) == Indices(a) + Indices(b)
  {
  }

  lemma AscendingJoin(a: seq<Entry>, b: seq<Entry>, tail: nat)
    requires Ascending(a, 0) && Ascending(b, tail) && forall e | e in a :: e.logId.index < tail
    ensures Ascending(a + b, 0)
    ensures forall e | e in a + b :: e.logId.index < NextTail(b, tail)
    ensures tail <= NextTail(b, tail)
  {
    forall e | e in b ensures e.logId.index < NextTail(b, tail) {
      var i :| 0 <= i < |b| && b[i] == e;
    }
    if b != [] { assert b[|b| - 1] in b; }
    forall i, j | 0 <= i < j < |a + b| ensures (a + b)[i].logId.index < (a + b)[j].logId.index {
      if i < |a| <= j {
        assert (a + b)[i] in a && (a + b)[j] in b;
      }
    }
  }

  lemma Unmerged(log: Log, extra: Log, entries: seq<Entry>, tail: nat)
    requires HoldsAll(log, entries) && (forall e | e in entries :: e.logId.index < tail) && forall i | i in extra :: i >= tail
    ensures HoldsAll(log + extra, entries)
  {
    forall e | e in entries ensures Holds(log + extra, e) {
      assert Holds(log, e);
    }
  }

  // ---------------------------------------------------------------- every step keeps the invariant

  lemma QueuedEntries(f: Flusher, queue: seq<Job>, job: Job)
    ensures Pipe(f, queue + [job]) == Pipe(f, queue) + [job]
    ensures EntriesOf(queue + [job]) == EntriesOf(queue) + EntriesOf([job])
    ensures EntriesOf(Pipe(f, queue + [job])) == EntriesOf(Pipe(f, queue)) + EntriesOf([job])
    ensures EntriesOf([job]) == if job.AppendJob? then job.entries else []
  {
    EntriesOne(job);
    EntriesAppend(queue, [job]);
    EntriesAppend(Pipe(f, queue), [job]);
  }

  lemma Appended(entries: seq<Entry>, tail: nat)
    requires Ascending(entries, tail)
    ensures tail <= NextTail(entries, tail)
    ensures forall i | i in ToLog(entries) :: tail <= i < NextTail(entries, tail)
  {
    ToLogFacts(entries, tail);
    AscendingJoin([], entries, tail);
    assert [] + entries == entries;
  }

  lemma AppendJobs(f: Flusher, queue: seq<Job>, pending: Log, db: Log, tail: nat, entries: seq<Entry>)
    requires JobsOk(f, queue, pending, db, tail) && Ascending(entries, tail)
    ensures JobsOk(f, queue + [AppendJob(entries)], pending + ToLog(entries), db, NextTail(entries, tail))
  {
    QueuedEntries(f, queue, AppendJob(entries));
    PipeEntries(f, queue);
    AscendingJoin(EntriesOf(Pipe(f, queue)), entries, tail);
    ToLogFacts(entries, tail);
    Appended(entries, tail);
    Unmerged(pending, ToLog(entries), EntriesOf(queue), tail);
    if f.Collecting? || f.Wrote? {
      Unmerged(pending, ToLog(entries), EntriesOf(f.jobs), tail);
    }
    forall e | e in entries ensures Holds(pending + ToLog(entries), e) {
      assert Holds(ToLog(entries), e);
    }
  }

  lemma AppendFrontier(f: Flusher, queue: seq<Job>, db: Log, pending: Log, failed: bool, entries: seq<Entry>, tail: nat)
    requires FrontierOk(f, queue, db, pending, failed) && BelowTail(db, tail) && Ascending(entries, tail)
    ensures FrontierOk(f, queue + [AppendJob(entries)], db, pending + ToLog(entries), failed)
  {
    hide EntriesOf, ToLog, Indices, Pipe, HoldsAll;
    QueuedEntries(f, queue, AppendJob(entries));
    ToLogFacts(entries, tail);
    IndicesJoin(Uncleaned(f, queue), entries);
  }

  lemma AppendKeeps(w: World, entries: seq<Entry>)
    requires StoreInv(w) && Enabled(w, Append(entries))
    ensures StoreInv(Next(w, Append(entries)))
  {
    hide JobsOk, FrontierOk, Ascending, ToLog, EntriesOf;
    AppendJobs(w.flusher, w.queue, w.pending, w.db, w.tail, entries);
    AppendFrontier(w.flusher, w.queue, w.db, w.pending, w.failed, entries, w.tail);
    Appended(entries, w.tail);
    QueuedEntries(w.flusher, w.queue, AppendJob(entries));
    assert w.db + (w.pending + ToLog(entries)) == w.db + w.pending + ToLog(entries);
    assert OverlayOk(w.log + ToLog(entries), w.pending + ToLog(entries), w.log + ToLog(entries), Ready, w.failed);
    hide OverlayOk;
  }

  lemma ReceivedPipe(f: Flusher, queue: seq<Job>)
    requires queue != [] && f.Collecting?
    ensures Pipe(Collecting(f.jobs + [queue[0]]), queue[1..]) == Pipe(f, queue)
    ensures EntriesOf(queue) == EntriesOf([queue[0]]) + EntriesOf(queue[1..])
    ensures EntriesOf(f.jobs + [queue[0]]) == EntriesOf(f.jobs) + EntriesOf([queue[0]])
  {
    hide EntriesOf;
    assert queue == [queue[0]] + queue[1..];
    EntriesAppend(f.jobs, [queue[0]]);
    EntriesAppend([queue[0]], queue[1..]);
  }

  lemma ReceiveKeeps(w: World)
    requires StoreInv(w) && Enabled(w, Receive)
    ensures StoreInv(Next(w, Receive))
  {
    hide OverlayOk, PurgedOk, BelowTail, Ascending, EntriesOf, Holds;
    ReceivedPipe(w.flusher, w.queue);
  }

  lemma WriteOverlay(db: Log, pending: Log, batch: seq<Entry>)
    requires HoldsAll(pending, batch) && Ascending(batch, 0)
    ensures db + ToLog(batch) + pending == db + pending
  {
    ToLogFacts(batch, 0);
    forall i | i in ToLog(batch) ensures i in pending {
      assert Holds(pending, ToLog(batch)[i]);
    }
  }

  lemma WriteJobs(f: Flusher, queue: seq<Job>, pending: Log, db: Log, tail: nat)
    requires JobsOk(f, queue, pending, db, tail) && f.Collecting?
    ensures Ascending(EntriesOf(f.jobs), 0)
    ensures JobsOk(Wrote(f.jobs), queue, pending, db + ToLog(EntriesOf(f.jobs)), tail)
    ensures BelowTail(ToLog(EntriesOf(f.jobs)), tail)
  {
    var batch := EntriesOf(f.jobs);
    PipeEntries(f, queue);
    AscendingSplit(batch, EntriesOf(queue), 0);
    ToLogFacts(batch, 0);
    forall e | e in batch ensures Holds(db + ToLog(batch), e) {
      assert Holds(ToLog(batch), e);
    }
    assert Pipe(Wrote(f.jobs), queue) == Pipe(f, queue);
  }

  lemma WriteFrontier(f: Flusher, queue: seq<Job>, db: Log, pending: Log, failed: bool)
    requires FrontierOk(f, queue, db, pending, failed) && f.Collecting? && Ascending(EntriesOf(Pipe(f, queue)), 0)
    ensures FrontierOk(Wrote(f.jobs), queue, db + ToLog(EntriesOf(f.jobs)), pending, failed)
  {
    var batch := EntriesOf(f.jobs);
    PipeEntries(f, queue);
    AscendingSplit(batch, EntriesOf(queue), 0);
    ToLogFacts(batch, 0);
    assert Pipe(Wrote(f.jobs), queue) == Pipe(f, queue);
  }

  lemma WriteOkKeeps(w: World)
    requires StoreInv(w) && Enabled(w, WriteOk)
    ensures StoreInv(Next(w, WriteOk))
  {
    var batch := EntriesOf(w.flusher.jobs);
    WriteJobs(w.flusher, w.queue, w.pending, w.db, w.tail);
    WriteOverlay(w.db, w.pending, batch);
    WriteFrontier(w.flusher, w.queue, w.db, w.pending, w.failed);
  }

  lemma WriteFailKeeps(w: World)
    requires StoreInv(w) && Enabled(w, WriteFail)
    ensures StoreInv(Next(w, WriteFail))
  {
    hide PurgedOk, BelowTail, Ascending, Holds, EntriesOf;
    PipeEntries(w.flusher, w.queue);
    assert Pipe(Failed(w.flusher.jobs), w.queue) == Pipe(w.flusher, w.queue);
  }

  lemma CleanOverlay(db: Log, pending: Log, batch: seq<Entry>)
    requires HoldsAll(pending, batch) && HoldsAll(db, batch)
    ensures db + (pending - Indices(batch)) == db + pending
  {
    forall i | i in Indices(batch) ensures i in pending && i in db && db[i] == pending[i] {
      var e :| e in batch && e.logId.index == i;
      assert Holds(pending, e) && Holds(db, e);
    }
  }

  lemma CleanJobs(f: Flusher, queue: seq<Job>, pending: Log, db: Log, tail: nat)
    requires JobsOk(f, queue, pending, db, tail) && f.Wrote?
    ensures JobsOk(Cleaned(f.jobs), queue, pending - Indices(EntriesOf(f.jobs)), db, tail)
  {
    var batch := EntriesOf(f.jobs);
    PipeEntries(f, queue);
    AscendingSplit(batch, EntriesOf(queue), 0);
    assert Pipe(Cleaned(f.jobs), queue) == Pipe(f, queue);
    forall e | e in EntriesOf(queue) ensures Holds(pending - Indices(batch), e) {
      assert Holds(pending, e);
    }
  }

  lemma CleanFrontier(f: Flusher, queue: seq<Job>, db: Log, pending: Log, failed: bool)
    requires FrontierOk(f, queue, db, pending, failed) && f.Wrote?
    ensures FrontierOk(Cleaned(f.jobs), queue, db, pending - Indices(EntriesOf(f.jobs)), failed)
  {
    PipeEntries(f, queue);
    assert Indices(Uncleaned(f, queue)) == Indices(EntriesOf(f.jobs)) + Indices(EntriesOf(queue));
  }

  lemma CleanKeeps(w: World)
    requires StoreInv(w) && Enabled(w, Clean)
    ensures StoreInv(Next(w, Clean))
  {
    CleanJobs(w.flusher, w.queue, w.pending, w.db, w.tail);
    CleanOverlay(w.db, w.pending, EntriesOf(w.flusher.jobs));
    CleanFrontier(w.flusher, w.queue, w.db, w.pending, w.failed);
    hide PurgedOk, Ascending, Holds, EntriesOf, JobsOk, FrontierOk;
  }

  /** The flusher's round ends: callbacks are answered and the barrier, if any, releases the writer. */
  lemma FinishBarrier(f: Flusher, queue: seq<Job>, writer: Writer)
    requires BarrierOk(f, queue, writer) && (f.Cleaned? || f.Failed?)
    ensures BarrierOk(Collecting([]), queue,
                      if HasBarrier(f.jobs) && writer.Waiting? then Released(writer.trim) else writer)
  {
    var pipe := Pipe(f, queue);
    assert Pipe(Collecting([]), queue) == queue;
    forall k | 0 <= k < |queue| ensures queue[k] == pipe[|f.jobs| + k] {}
    if HasBarrier(f.jobs) {
      var k :| 0 <= k < |f.jobs| && f.jobs[k] == BarrierJob;
      assert pipe[k] == BarrierJob;
    } else if queue == [] && f.jobs != [] {
      assert f.jobs[|f.jobs| - 1] in f.jobs;
    }
  }

  lemma FinishJobs(f: Flusher, queue: seq<Job>, pending: Log, db: Log, tail: nat)
    requires JobsOk(f, queue, pending, db, tail) && (f.Cleaned? || f.Failed?)
    ensures JobsOk(Collecting([]), queue, pending, db, tail)
    ensures Ascending(EntriesOf(f.jobs), 0)
  {
    PipeEntries(f, queue);
    AscendingSplit(EntriesOf(f.jobs), EntriesOf(queue), 0);
    assert Pipe(Collecting([]), queue) == queue;
  }

  lemma FinishFrontier(f: Flusher, queue: seq<Job>, db: Log, pending: Log, failed: bool)
    requires FrontierOk(f, queue, db, pending, failed) && (f.Cleaned? || f.Failed?)
    ensures FrontierOk(Collecting([]), queue, db, pending, failed)
  {
    assert Pipe(Collecting([]), queue) == queue;
  }

  lemma FinishKeeps(w: World)
    requires StoreInv(w) && Enabled(w, Finish)
    ensures StoreInv(Next(w, Finish))
  {
    FinishBarrier(w.flusher, w.queue, w.writer);
    FinishJobs(w.flusher, w.queue, w.pending, w.db, w.tail);
    FinishFrontier(w.flusher, w.queue, w.db, w.pending, w.failed);
    hide BarrierOk, JobsOk, FrontierOk, PurgedOk, BelowTail, HasBarrier;
  }

  lemma BarrierAddsNothing(f: Flusher, queue: seq<Job>)
    ensures Pipe(f, queue + [BarrierJob]) == Pipe(f, queue) + [BarrierJob]
    ensures EntriesOf(queue + [BarrierJob]) == EntriesOf(queue)
    ensures EntriesOf(Pipe(f, queue + [BarrierJob])) == EntriesOf(Pipe(f, queue))
  {
    hide EntriesOf;
    QueuedEntries(f, queue, BarrierJob);
  }

  lemma SendBarrierKeeps(w: World, trim: Trim)
    requires StoreInv(w) && Enabled(w, SendBarrier(trim))
    ensures StoreInv(Next(w, SendBarrier(trim)))
  {
    hide PurgedOk, BelowTail, Ascending, HoldsAll, EntriesOf, Indices;
    BarrierAddsNothing(w.flusher, w.queue);
  }

  /** A released barrier has drained the pipe. */
  lemma Drained(f: Flusher, queue: seq<Job>, writer: Writer)
    requires BarrierOk(f, queue, writer) && (writer.Released? || writer.Trimmed?)
    ensures queue == [] && f == Collecting([]) && EntriesOf(Pipe(f, queue)) == [] && EntriesOf(queue) == []
  {
    assert f.jobs == Pipe(f, queue)[..|f.jobs|];
    assert queue == Pipe(f, queue)[|f.jobs|..];
  }

  lemma TrimPendingOverlay(db: Log, pending: Log, log: Log, writer: Writer, failed: bool)
    requires writer.Released? && db + pending == log && (!failed ==> pending == map[])
    ensures OverlayOk(db + Kept(pending, writer.trim), Kept(pending, writer.trim), log, Trimmed(writer.trim), failed)
  {
    assert !failed ==> Kept(pending, writer.trim) == map[];
  }

  lemma TrimPendingKeeps(w: World)
    requires StoreInv(w) && Enabled(w, TrimPending)
    ensures StoreInv(Next(w, TrimPending))
  {
    Drained(w.flusher, w.queue, w.writer);
    TrimPendingOverlay(w.db, w.pending, w.log, w.writer, w.failed);
    hide OverlayOk, EntriesOf;
  }

  lemma TrimDbParts(w: World)
    requires StoreInv(w) && Enabled(w, TrimDb)
    ensures Next(w, TrimDb).db == Kept(w.db, w.writer.trim)
    ensures Next(w, TrimDb).pending == Kept(w.pending, w.writer.trim)
    ensures Next(w, TrimDb).db + Next(w, TrimDb).pending == Kept(w.log, w.writer.trim)
  {
    hide JobsOk, FrontierOk, BarrierOk, BelowTail;
    var trim := w.writer.trim;
    var overlay := w.db + w.pending;
    assert Kept(w.pending, trim) == w.pending;
    assert forall i | i in w.db :: i in overlay;
    assert Next(w, TrimDb).db == Kept(w.db, trim);
    assert Kept(w.db, trim) + Kept(w.pending, trim) == Kept(overlay, trim);
  }

  lemma SettledOverlay(log: Log, pending: Log, failed: bool)
    ensures OverlayOk(log, pending, log, Ready, failed)
  {
  }

  lemma TrimTail(w: World)
    requires StoreInv(w) && Enabled(w, TrimDb)
    ensures BelowTail(Kept(w.db, w.writer.trim), Next(w, TrimDb).tail)
    ensures BelowTail(Kept(w.pending, w.writer.trim), Next(w, TrimDb).tail)
    ensures BelowTail(Kept(w.log, w.writer.trim), Next(w, TrimDb).tail)
    ensures PurgedOk(Next(w, TrimDb).purged, Kept(w.log, w.writer.trim), Next(w, TrimDb).tail)
  {
    hide JobsOk, FrontierOk, BarrierOk;
    assert Kept(w.db + w.pending, w.writer.trim) == Kept(w.log, w.writer.trim);
    assert forall i | i in Kept(w.log, w.writer.trim) :: i in Kept(w.db + w.pending, w.writer.trim);
  }

  lemma TrimDbKeeps(w: World)
    requires StoreInv(w) && Enabled(w, TrimDb)
    ensures StoreInv(Next(w, TrimDb))
  {
    hide EntriesOf, OverlayOk, Kept;
    Drained(w.flusher, w.queue, w.writer);
    TrimDbParts(w);
    TrimTail(w);
    hide PurgedOk, BelowTail;
    assert OverlayOk(Kept(w.log, w.writer.trim), Kept(w.pending, w.writer.trim), Kept(w.log, w.writer.trim), Ready, w.failed)
      by { SettledOverlay(Kept(w.log, w.writer.trim), Kept(w.pending, w.writer.trim), w.failed); }
  }

  lemma StepKeeps(w: World, e: Event)
    requires StoreInv(w) && Enabled(w, e)
    ensures StoreInv(Next(w, e))
  {
    match e
    case Append(entries) => AppendKeeps(w, entries);
    case Receive => ReceiveKeeps(w);
    case WriteOk => WriteOkKeeps(w);
    case WriteFail => WriteFailKeeps(w);
    case Clean => CleanKeeps(w);
    case Finish => FinishKeeps(w);
    case SendBarrier(trim) => SendBarrierKeeps(w, trim);
    case TrimPending => TrimPendingKeeps(w);
    case TrimDb => TrimDbKeeps(w);
  }
}
