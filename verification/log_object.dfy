/** The log store's shared maps, updated in place by the writer's calls and by a round of the flusher's loop. Each
    method is one stretch of the state machine's events run without interruption. */
module LogObject {
  import opened Collections
  import opened LogStore
  import LogRuns

  const FLUSH_MAX_ENTRIES := 512
  const FLUSH_MAX_BYTES := 8 * 1024 * 1024

  function BytesOf(entries: seq<Entry>, size: Entry -> nat): nat
    decreases |entries|
  {
    if entries == [] then 0 else size(entries[0]) + BytesOf(entries[1..], size)
  }

  /** How many queued jobs a round takes: up to a barrier, or to the job that fills the batch. */
  function Taken(queue: seq<Job>, entries: nat, bytes: nat, size: Entry -> nat): (n: nat)
    ensures n <= |queue| && (queue != [] ==> n > 0)
    ensures forall k | 0 <= k < n - 1 :: queue[k].AppendJob?
    decreases |queue|
  {
    if queue == [] then 0
    else if queue[0].BarrierJob? then 1
    else
      var e, b := entries + |queue[0].entries|, bytes + BytesOf(queue[0].entries, size);
      if e >= FLUSH_MAX_ENTRIES || b >= FLUSH_MAX_BYTES then 1 else 1 + Taken(queue[1..], e, b, size)
  }

  lemma {:induction false} BytesJoin(a: seq<Entry>, b: seq<Entry>, size: Entry -> nat)
    ensures BytesOf(a + b, size) == BytesOf(a, size) + BytesOf(b, size)
    decreases |a|
  {
    if a == [] {
      assert a + b == b;
    } else {
      assert (a + b)[0] == a[0] && (a + b)[1..] == a[1..] + b;
      BytesJoin(a[1..], b, size);
    }
  }

  /** The first `k` queued jobs fill a batch: 512 entries, or eight mebibytes. */
  predicate Fills(queue: seq<Job>, k: nat, entries: nat, bytes: nat, size: Entry -> nat)
    requires k <= |queue|
  {
    entries + |EntriesOf(queue[..k])| >= 512 || bytes + BytesOf(EntriesOf(queue[..k]), size) >= 8_388_608
  }

  lemma FillsLater(queue: seq<Job>, k: nat, entries: nat, bytes: nat, size: Entry -> nat)
    requires queue != [] && queue[0].AppendJob? && 0 < k <= |queue|
    ensures Fills(queue, k, entries, bytes, size) <==>
            Fills(queue[1..], k - 1, entries + |queue[0].entries|, bytes + BytesOf(queue[0].entries, size), size)
  {
    assert queue[..k][0] == queue[0] && queue[..k][1..] == queue[1..][..k - 1];
    assert EntriesOf(queue[..k]) == queue[0].entries + EntriesOf(queue[1..][..k - 1]);
    BytesJoin(queue[0].entries, EntriesOf(queue[1..][..k - 1]), size);
  }

  /** Exactly how many queued jobs a round takes: no fewer than up to the first barrier or the first job that fills the batch,
      and no more. */
  lemma {:induction false} TakenIs(queue: seq<Job>, entries: nat, bytes: nat, size: Entry -> nat)
    requires queue != []
    ensures var n := Taken(queue, entries, bytes, size);
            && (forall k | 0 < k < n :: queue[k - 1].AppendJob? && !Fills(queue, k, entries, bytes, size))
            && (n == |queue| || queue[n - 1].BarrierJob? || Fills(queue, n, entries, bytes, size))
    decreases |queue|
  {
    hide EntriesOf, BytesOf, Fills;
    if queue[0].AppendJob? {
      var e, b := entries + |queue[0].entries|, bytes + BytesOf(queue[0].entries, size);
      FirstFills(queue, entries, bytes, size);
      if e < FLUSH_MAX_ENTRIES && b < FLUSH_MAX_BYTES && |queue| > 1 {
        var rest := queue[1..];
        TakenIs(rest, e, b, size);
        var n := Taken(rest, e, b, size);
        FillsLater(queue, n + 1, entries, bytes, size);
        forall k | 0 < k < n + 1 ensures queue[k - 1].AppendJob? && !Fills(queue, k, entries, bytes, size) {
          if k > 1 {
            FillsLater(queue, k, entries, bytes, size);
            assert rest[k - 2].AppendJob? && !Fills(rest, k - 1, e, b, size);
          }
        }
      }
    }
  }

  lemma FirstFills(queue: seq<Job>, entries: nat, bytes: nat, size: Entry -> nat)
    requires queue != [] && queue[0].AppendJob?
    ensures Fills(queue, 1, entries, bytes, size) <==>
            entries + |queue[0].entries| >= FLUSH_MAX_ENTRIES || bytes + BytesOf(queue[0].entries, size) >= FLUSH_MAX_BYTES
  {
    assert queue[..1] == [queue[0]];
    EntriesOne(queue[0]);
  }

  /** The events of a round that takes `n` jobs. */
  function Round(n: nat, ok: bool): seq<Event> {
    seq(n, _ => Receive) + if ok then [WriteOk, Clean, Finish] else [WriteFail, Finish]
  }

  lemma {:induction false} Receives(w: World, n: nat)
    requires w.flusher.Collecting? && n <= |w.queue|
    requires n > 0 ==> !HasBarrier(w.flusher.jobs) && forall k | 0 <= k < n - 1 :: w.queue[k].AppendJob?
    ensures Possible(w, seq(n, _ => Receive))
    ensures After(w, seq(n, _ => Receive)) == w.(flusher := Collecting(w.flusher.jobs + w.queue[..n]), queue := w.queue[n..])
    decreases n
  {
    var events := seq(n, _ => Receive);
    if n == 0 {
      assert w.flusher.jobs + w.queue[..0] == w.flusher.jobs && w.queue[0..] == w.queue;
    } else {
      var r := Next(w, Receive);
      assert events[0] == Receive && events[1..] == seq(n - 1, _ => Receive);
      Receives(r, n - 1);
      assert w.flusher.jobs + [w.queue[0]] + w.queue[1..][..n - 1] == w.flusher.jobs + w.queue[..n];
      assert w.queue[1..][n - 1..] == w.queue[n..];
    }
  }

  /** What a round leaves of the world. */
  function Flushed(w: World, n: nat, ok: bool): World
    requires n <= |w.queue|
  {
    var batch := EntriesOf(w.queue[..n]);
    var writer := if HasBarrier(w.queue[..n]) && w.writer.Waiting? then Released(w.writer.trim) else w.writer;
    var r := w.(queue := w.queue[n..], writer := writer, flusher := Collecting([]));
    if ok then r.(db := w.db + ToLog(batch), pending := w.pending - Indices(batch)) else r.(failed := true)
  }

  lemma RoundIsRun(w: World, n: nat, ok: bool)
    requires w.flusher == Collecting([]) && 0 < n <= |w.queue|
    requires forall k | 0 <= k < n - 1 :: w.queue[k].AppendJob?
    requires !ok ==> EntriesOf(w.queue[..n]) != []
    ensures Possible(w, Round(n, ok)) && After(w, Round(n, ok)) == Flushed(w, n, ok)
  {
    hide ToLog, Indices, EntriesOf, HasBarrier;
    assert !HasBarrier([]) by { EmptyHasNone(); }
    Receives(w, n);
    var r := After(w, seq(n, _ => Receive));
    assert r.flusher.jobs == w.queue[..n];
    if ok {
      ThreeSteps(r);
      LogRuns.PossibleAppend(w, seq(n, _ => Receive), [WriteOk, Clean, Finish]);
    } else {
      TwoSteps(r);
      LogRuns.PossibleAppend(w, seq(n, _ => Receive), [WriteFail, Finish]);
    }
  }

  lemma EmptyHasNone()
    ensures !HasBarrier([])
  {
  }

  lemma ThreeSteps(w: World)
    requires Enabled(w, WriteOk)
    ensures Possible(w, [WriteOk, Clean, Finish])
    ensures After(w, [WriteOk, Clean, Finish]) == Next(Next(Next(w, WriteOk), Clean), Finish)
  {
    hide ToLog, Indices, EntriesOf, HasBarrier;
    var a := Next(w, WriteOk);
    var b := Next(a, Clean);
    var c := Next(b, Finish);
    assert [WriteOk, Clean, Finish][1..] == [Clean, Finish] && [Clean, Finish][1..] == [Finish] && [Finish][1..] == [];
    assert Possible(c, []) && Possible(b, [Finish]) && Possible(a, [Clean, Finish]);
    assert After(b, [Finish]) == After(c, []);
  }

  lemma TwoSteps(w: World)
    requires Enabled(w, WriteFail)
    ensures Possible(w, [WriteFail, Finish]) && After(w, [WriteFail, Finish]) == Next(Next(w, WriteFail), Finish)
  {
    hide ToLog, Indices, EntriesOf, HasBarrier;
    var a := Next(w, WriteFail);
    var b := Next(a, Finish);
    assert [WriteFail, Finish][1..] == [Finish] && [Finish][1..] == [];
    assert Possible(b, []) && Possible(a, [Finish]) && After(a, [Finish]) == After(b, []);
  }

  class Store {
    var db: Log
    var pending: Log
    var queue: seq<Job>
    var purged: Option<nat>

    constructor (db: Log, purged: Option<nat>)
      ensures Shows(Opened(db, purged, 0))
    {
      this.db, pending, queue, this.purged := db, map[], [], purged;
    }

    /** The store between rounds is what the world's fields say. */
    ghost predicate Shows(w: World)
      reads this
    {
      db == w.db && pending == w.pending && queue == w.queue && purged == w.purged && w.flusher == Collecting([])
    }

    method Hold(entries: seq<Entry>)
      modifies this`pending
      ensures pending == old(pending) + ToLog(entries)
    {
      for i := 0 to |entries|
        invariant pending == old(pending) + ToLog(entries[..i])
      {
        assert entries[..i + 1][..i] == entries[..i] && entries[..i + 1][i] == entries[i];
        pending := pending[entries[i].logId.index := entries[i]];
      }
      assert entries[..|entries|] == entries;
    }

    method AppendEntries(entries: seq<Entry>, ghost w: World)
      requires Shows(w) && Enabled(w, Append(entries))
      modifies this`pending, this`queue
      ensures Shows(Next(w, Append(entries)))
    {
      hide ToLog, Ascending;
      Hold(entries);
      queue := queue + [AppendJob(entries)];
    }

    /** The rest of a truncation or purge, once its barrier has come back. */
    method FinishTrim(trim: Trim, ghost w: World)
      requires Shows(w) && w.writer == Released(trim)
      modifies this`pending, this`db, this`purged
      ensures Shows(Next(Next(w, TrimPending), TrimDb))
    {
      hide Kept;
      pending := Kept(pending, trim);
      if trim.Truncate? {
        db := Kept(db, trim);
      } else if purged.None? || purged.value < trim.upto {
        purged := Some(trim.upto);
        db := Kept(db, trim);
      }
    }

    /** Collect jobs until a barrier, a full batch or an empty queue. */
    method Collect(size: Entry -> nat) returns (batch: seq<Entry>)
      modifies this`queue
      ensures var n := Taken(old(queue), 0, 0, size);
              queue == old(queue)[n..] && batch == EntriesOf(old(queue)[..n])
    {
      hide EntriesOf, BytesOf;
      ghost var total := Taken(queue, 0, 0, size);
      ghost var n := 0;
      var bytes: nat := 0;
      var more := true;
      batch := [];
      assert EntriesOf(queue[..0]) == [] by { NoEntries(); }
      while more && queue != []
        invariant n <= |old(queue)| && queue == old(queue)[n..] && batch == EntriesOf(old(queue)[..n])
        invariant if more then total == n + Taken(queue, |batch|, bytes, size) else total == n
        decreases |queue|
      {
        var job := queue[0];
        assert old(queue)[..n + 1] == old(queue)[..n] + [job];
        EntriesAppend(old(queue)[..n], [job]);
        EntriesOne(job);
        queue := queue[1..];
        n := n + 1;
        if job.AppendJob? {
          bytes := bytes + BytesOf(job.entries, size);
          batch := batch + job.entries;
          more := |batch| < FLUSH_MAX_ENTRIES && bytes < FLUSH_MAX_BYTES;
        } else {
          more := false;
        }
      }
    }

    method Forget(entries: seq<Entry>)
      modifies this`pending
      ensures pending == old(pending) - Indices(entries)
    {
      for i := 0 to |entries|
        invariant pending == old(pending) - Indices(entries[..i])
      {
        assert entries[..i + 1] == entries[..i] + [entries[i]];
        IndicesJoin(entries[..i], [entries[i]]);
        IndicesOne(entries[i]);
        pending := pending - {entries[i].logId.index};
      }
      assert entries[..|entries|] == entries;
    }

    /** One round of the flusher, with the outcome of its database write given; an empty batch is not written. */
    method FlushRound(size: Entry -> nat, writes: bool, ghost w: World)
      requires Shows(w) && queue != []
      modifies this`db, this`pending, this`queue
      ensures var n := Taken(old(queue), 0, 0, size);
              var ok := writes || EntriesOf(old(queue)[..n]) == [];
              && Possible(w, Round(n, ok))
              && Shows(After(w, Round(n, ok)))
    {
      hide EntriesOf, ToLog, Indices, HasBarrier, Taken, After, Possible;
      ghost var n := Taken(queue, 0, 0, size);
      var batch := Collect(size);
      RoundIsRun(w, n, writes || batch == []);
      if batch == [] || writes {
        WriteBatch(batch);
        Forget(batch);
      }
    }

    method WriteBatch(batch: seq<Entry>)
      modifies this`db
      ensures db == old(db) + ToLog(batch)
    {
      for i := 0 to |batch|
        invariant db == old(db) + ToLog(batch[..i])
      {
        assert batch[..i + 1][..i] == batch[..i] && batch[..i + 1][i] == batch[i];
        db := db[batch[i].logId.index := batch[i]];
      }
      assert batch[..|batch|] == batch;
    }
  }

  lemma NoEntries()
    ensures EntriesOf([]) == []
  {
  }
}
