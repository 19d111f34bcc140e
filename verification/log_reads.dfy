/** Reading the log in two halves, the database first and the pending map later, while writer and flusher go on. */
module LogReads {
  import opened Collections
  import opened LogStore
  import opened LogRuns

  function Slice(log: Log, start: nat, end: nat): Log {
    map i | i in log && start <= i < end :: log[i]
  }

  /** A read takes its range of the database in one instant and of the pending map in a later one. */
  function TwoHalves(first: World, second: World, start: nat, end: nat): Log {
    Slice(first.db, start, end) + Slice(second.pending, start, end)
  }

  /** What a read of both halves in one instant returns. */
  function Overlay(w: World): Log { w.db + w.pending }

  function Find(log: Log, i: nat): Option<Entry> { if i in log then Some(log[i]) else None }

  // ---------------------------------------------------------------- what the events do to one index

  /** What an event, or a run, last did to an index of a map: nothing, or leave it with an entry or without one. */
  datatype Touch = Untouched | Left(found: Option<Entry>)

  function Settle(touch: Touch, before: Option<Entry>): Option<Entry> {
    if touch.Untouched? then before else touch.found
  }

  /** The database changes by a write of a batch and by the second half of a trim. */
  function DbTouch(w: World, e: Event, i: nat): Touch {
    match e
    case WriteOk =>
      var batch := ToLog(EntriesOf(w.flusher.jobs));
      if i in batch then Left(Some(batch[i])) else Untouched
    case TrimDb => if w.writer.Trimmed? && !Keeps(w.writer.trim, i) then Left(None) else Untouched
    case _ => Untouched
  }

  /** The pending map changes by an append, by the clean-up of a written batch and by the first half of a trim. */
  function PendingTouch(w: World, e: Event, i: nat): Touch {
    match e
    case Append(entries) => if i in ToLog(entries) then Left(Some(ToLog(entries)[i])) else Untouched
    case Clean => if i in Indices(EntriesOf(w.flusher.jobs)) then Left(None) else Untouched
    case TrimPending => if w.writer.Released? && !Keeps(w.writer.trim, i) then Left(None) else Untouched
    case _ => Untouched
  }

  /** The last touch of the database by the run. */
  function DbTouches(w: World, events: seq<Event>, i: nat): Touch
    requires Possible(w, events)
    decreases |events|
  {
    if events == [] then Untouched
    else
      var later := DbTouches(Next(w, events[0]), events[1..], i);
      if later.Left? then later else DbTouch(w, events[0], i)
  }

  function PendingTouches(w: World, events: seq<Event>, i: nat): Touch
    requires Possible(w, events)
    decreases |events|
  {
    if events == [] then Untouched
    else
      var later := PendingTouches(Next(w, events[0]), events[1..], i);
      if later.Left? then later else PendingTouch(w, events[0], i)
  }

  lemma TrimTouch(w: World, i: nat)
    requires StoreInv(w) && Enabled(w, TrimDb)
    ensures Find(Next(w, TrimDb).db, i) == Settle(DbTouch(w, TrimDb, i), Find(w.db, i))
  {
    hide StoreInv;
    TrimDbParts(w);
  }

  lemma StepTouch(w: World, e: Event, i: nat)
    requires StoreInv(w) && Enabled(w, e)
    ensures Find(Next(w, e).db, i) == Settle(DbTouch(w, e, i), Find(w.db, i))
    ensures Find(Next(w, e).pending, i) == Settle(PendingTouch(w, e, i), Find(w.pending, i))
  {
    hide StoreInv, ToLog, EntriesOf, Indices, Ascending;
    if e.TrimDb? {
      TrimTouch(w, i);
    }
  }

  /** Both maps at the end of a run, index by index, from what the run's events last did to them. */
  lemma {:induction false} RunTouches(w: World, events: seq<Event>, i: nat)
    requires StoreInv(w) && Possible(w, events)
    ensures Find(After(w, events).db, i) == Settle(DbTouches(w, events, i), Find(w.db, i))
    ensures Find(After(w, events).pending, i) == Settle(PendingTouches(w, events, i), Find(w.pending, i))
    decreases |events|
  {
    hide StoreInv, DbTouch, PendingTouch;
    if events != [] {
      StepKeeps(w, events[0]);
      StepTouch(w, events[0], i);
      RunTouches(Next(w, events[0]), events[1..], i);
    }
  }

  // ---------------------------------------------------------------- what a read returns

  /** Between the halves the events leave the index out of the pending map and its database entry other than the first half
      found it: a write added or replaced it, or a trim removed it. */
  predicate Disturbed(w: World, events: seq<Event>, i: nat)
    requires Possible(w, events)
  {
    && Settle(PendingTouches(w, events, i), Find(w.pending, i)).None?
    && DbTouches(w, events, i).Left?
    && DbTouches(w, events, i).found != Find(w.db, i)
  }

  lemma OneIndex(w: World, events: seq<Event>, i: nat)
    requires StoreInv(w) && Possible(w, events)
    ensures Find(w.db + After(w, events).pending, i) ==
            if Disturbed(w, events, i) then Find(w.db, i) else Find(Overlay(After(w, events)), i)
    ensures Disturbed(w, events, i) ==> Find(w.db, i) != Find(Overlay(After(w, events)), i)
  {
    hide StoreInv, DbTouches, PendingTouches;
    RunTouches(w, events, i);
  }

  /** What a read returns, whatever happens between its halves: at a disturbed index what the first half found there, at
      every other what a read of both halves at the second instant returns. */
  lemma TwoHalfRead(w: World, events: seq<Event>, start: nat, end: nat, i: nat)
    requires StoreInv(w) && Possible(w, events)
    ensures Find(TwoHalves(w, After(w, events), start, end), i) ==
            if !(start <= i < end) then None
            else if Disturbed(w, events, i) then Find(w.db, i)
            else Find(Overlay(After(w, events)), i)
  {
    hide StoreInv, Disturbed, After;
    OneIndex(w, events, i);
  }

  /** For every run between the halves, trims included, the read is what one instant would return if and only if no index in
      its range is disturbed. Outside a trim under way that instant's read is the log; inside one it agrees with the log on
      everything the trim keeps. */
  lemma ReadIsExactIff(w: World, events: seq<Event>, start: nat, end: nat)
    requires StoreInv(w) && Possible(w, events)
    ensures var r := After(w, events);
            && (TwoHalves(w, r, start, end) == Slice(Overlay(r), start, end)
                <==> forall i | start <= i < end :: !Disturbed(w, events, i))
            && (!r.writer.Trimmed? ==> Overlay(r) == r.log)
            && (r.writer.Trimmed? ==> Kept(Overlay(r), r.writer.trim) == Kept(r.log, r.writer.trim))
  {
    var r := After(w, events);
    RunKeeps(w, events);
    assert !r.writer.Trimmed? ==> Overlay(r) == r.log;
    assert r.writer.Trimmed? ==> Kept(Overlay(r), r.writer.trim) == Kept(r.log, r.writer.trim);
    hide StoreInv, Disturbed, After, TwoHalves, Slice, Overlay;
    var read, exact := TwoHalves(w, r, start, end), Slice(Overlay(r), start, end);
    if forall i | start <= i < end :: !Disturbed(w, events, i) {
      forall i ensures Find(read, i) == Find(exact, i) {
        TwoHalfRead(w, events, start, end, i);
        SliceFind(Overlay(r), start, end, i);
      }
      SameFinds(read, exact);
    } else {
      var i :| start <= i < end && Disturbed(w, events, i);
      TwoHalfRead(w, events, start, end, i);
      SliceFind(Overlay(r), start, end, i);
      OneIndex(w, events, i);
    }
  }

  lemma SliceFind(log: Log, start: nat, end: nat, i: nat)
    ensures Find(Slice(log, start, end), i) == if start <= i < end then Find(log, i) else None
  {
  }

  lemma SameFinds(a: Log, b: Log)
    requires forall i :: Find(a, i) == Find(b, i)
    ensures a == b
  {
    forall i ensures i in a <==> i in b {
      assert Find(a, i) == Find(b, i);
    }
    forall i | i in a ensures a[i] == b[i] {
      assert Find(a, i) == Find(b, i);
    }
  }

  // ---------------------------------------------------------------- with no trim in between

  predicate NoTrim(events: seq<Event>) {
    forall e | e in events :: !e.TrimPending? && !e.TrimDb?
  }

  /** What is in the database is not written again. */
  lemma WriteIsNew(w: World, i: nat)
    requires StoreInv(w) && Enabled(w, WriteOk) && i in w.db
    ensures DbTouch(w, WriteOk, i).Untouched?
  {
    PipeEntries(w.flusher, w.queue);
    WriteJobs(w.flusher, w.queue, w.pending, w.db, w.tail);
    ToLogFacts(EntriesOf(w.flusher.jobs), 0);
  }

  lemma {:induction false} FoundIsUntouched(w: World, events: seq<Event>, i: nat)
    requires StoreInv(w) && Possible(w, events) && NoTrim(events) && i in w.db
    ensures DbTouches(w, events, i).Untouched? && i in After(w, events).db
    decreases |events|
  {
    hide StoreInv, DbTouch;
    if events != [] {
      assert events[0] in events;
      assert DbTouch(w, events[0], i).Untouched? by {
        if events[0].WriteOk? { WriteIsNew(w, i); } else { OnlyWrites(w, events[0], i); }
      }
      StepKeeps(w, events[0]);
      StepTouch(w, events[0], i);
      FoundIsUntouched(Next(w, events[0]), events[1..], i);
    }
  }

  lemma OnlyWrites(w: World, e: Event, i: nat)
    requires !e.WriteOk? && !e.TrimDb?
    ensures DbTouch(w, e, i).Untouched?
  {
  }

  lemma WrittenIsPending(w: World, i: nat)
    requires StoreInv(w) && Enabled(w, WriteOk) && DbTouch(w, WriteOk, i).Left?
    ensures i in Next(w, WriteOk).pending
  {
    WriteJobs(w.flusher, w.queue, w.pending, w.db, w.tail);
    ToLogFacts(EntriesOf(w.flusher.jobs), 0);
    assert Holds(w.pending, ToLog(EntriesOf(w.flusher.jobs))[i]);
  }

  lemma CleanedIsWritten(w: World, i: nat)
    requires StoreInv(w) && Enabled(w, Clean) && PendingTouch(w, Clean, i).Left?
    ensures i in Next(w, Clean).db
  {
    var e :| e in EntriesOf(w.flusher.jobs) && e.logId.index == i;
    assert Holds(w.db, e);
  }

  lemma OnlyCleans(w: World, e: Event, i: nat)
    requires !e.TrimPending? && PendingTouch(w, e, i) == Left(None)
    ensures e.Clean?
  {
  }

  /** What was flushed and not appended again is in the database; what was written and is pending no more was flushed. */
  lemma {:induction false} FlushedIsWritten(w: World, events: seq<Event>, i: nat)
    requires StoreInv(w) && Possible(w, events) && NoTrim(events)
    ensures PendingTouches(w, events, i) == Left(None) ==> i in After(w, events).db
    ensures DbTouches(w, events, i).Left? && i !in After(w, events).pending ==> PendingTouches(w, events, i) == Left(None)
    decreases |events|
  {
    hide StoreInv, DbTouch, PendingTouch;
    if events != [] {
      var e, r, rest := events[0], Next(w, events[0]), events[1..];
      assert e in events && NoTrim(rest);
      StepKeeps(w, e);
      FlushedIsWritten(r, rest, i);
      RunTouches(r, rest, i);
      if PendingTouches(r, rest, i).Untouched? && PendingTouch(w, e, i) == Left(None) {
        OnlyCleans(w, e, i);
        CleanedIsWritten(w, i);
        FoundIsUntouched(r, rest, i);
      }
      if DbTouch(w, e, i).Left? {
        if !e.WriteOk? { OnlyWrites(w, e, i); }
        WrittenIsPending(w, i);
      }
    }
  }

  /** With appends and flushes only between the halves, the disturbed indices are those flushed in between that the first
      half did not find. */
  lemma FlushOnlyRead(w: World, events: seq<Event>, i: nat)
    requires StoreInv(w) && Possible(w, events) && NoTrim(events)
    ensures Disturbed(w, events, i) <==> PendingTouches(w, events, i) == Left(None) && i !in w.db
  {
    hide StoreInv, DbTouches, PendingTouches, NoTrim;
    RunTouches(w, events, i);
    FlushedIsWritten(w, events, i);
    if i in w.db {
      FoundIsUntouched(w, events, i);
    }
  }

  // ---------------------------------------------------------------- reads that go wrong

  const FIRST := Entry(LogId(1, 0), Blank)
  const SECOND := Entry(LogId(1, 1), Blank)
  const OTHER := Entry(LogId(2, 0), Blank)

  /** A store holding one appended entry that the flusher has collected. */
  const COLLECTED :=
    World(map[], map[0 := FIRST], [], Collecting([AppendJob([FIRST])]), Ready, None, map[0 := FIRST], 1, false)

  lemma CollectedIsReachable()
    ensures Possible(Opened(map[], None, 0), [Append([FIRST]), Receive])
    ensures After(Opened(map[], None, 0), [Append([FIRST]), Receive]) == COLLECTED
  {
    hide ToLog, EntriesOf, Possible, After;
    OneTaken(Opened(map[], None, 0), FIRST);
    TwoSteps(Opened(map[], None, 0), Append([FIRST]), Receive);
  }

  /** A flush in between: an entry in the log before, during and after the read is not in what it returns. The store is one
      a run from an empty database reaches. */
  lemma ReadCanMissAnEntry()
    ensures Possible(Opened(map[], None, 0), [Append([FIRST]), Receive])
    ensures After(Opened(map[], None, 0), [Append([FIRST]), Receive]) == COLLECTED
    ensures Possible(COLLECTED, [WriteOk, Clean])
    ensures After(COLLECTED, [WriteOk, Clean]).log == COLLECTED.log == map[0 := FIRST]
    ensures TwoHalves(COLLECTED, After(COLLECTED, [WriteOk, Clean]), 0, 1) == map[]
  {
    CollectedIsReachable();
    OneEntry(FIRST);
    hide ToLog, EntriesOf, Indices;
    TwoSteps(COLLECTED, WriteOk, Clean);
  }

  const PAIR: Log := map[0 := FIRST, 1 := SECOND]
  const MIXED: Log := map[0 := OTHER, 1 := SECOND]

  /** A truncation to nothing with its barrier, and an append of another entry 0. */
  const DRAINING := [SendBarrier(Truncate(0)), Receive, WriteOk, Clean]
  const CUTTING := [Finish, TrimPending, TrimDb, Append([OTHER])]

  const BARRED := World(PAIR, map[], [], Cleaned([BarrierJob]), Waiting(Truncate(0)), None, PAIR, 2, false)
  const REPLACED :=
    World(map[], map[0 := OTHER], [AppendJob([OTHER])], Collecting([]), Ready, None, map[0 := OTHER], 1, false)

  lemma DrainingRun()
    ensures Possible(Opened(PAIR, None, 2), DRAINING) && After(Opened(PAIR, None, 2), DRAINING) == BARRED
  {
    NoEntriesButBarrier();
    hide ToLog, EntriesOf, Indices;
    var o := Opened(PAIR, None, 2);
    var a := Next(o, SendBarrier(Truncate(0)));
    assert a.queue == [BarrierJob] && a.queue[1..] == [] && [] + [BarrierJob] == [BarrierJob];
    var none: Log := map[];
    assert PAIR + none == PAIR && none - {} == none;
    FourSteps(o, SendBarrier(Truncate(0)), Receive, WriteOk, Clean);
  }

  lemma NoEntriesButBarrier()
    ensures EntriesOf([BarrierJob]) == [] && ToLog([]) == map[] && Indices([]) == {} && HasBarrier([BarrierJob])
  {
    EntriesOne(BarrierJob);
    assert BarrierJob in [BarrierJob];
  }

  lemma CuttingRun()
    ensures Possible(BARRED, CUTTING) && After(BARRED, CUTTING) == REPLACED
  {
    OneEntry(OTHER);
    NoEntriesButBarrier();
    hide ToLog, EntriesOf, Indices;
    var none: Log := map[];
    assert Kept(PAIR, Truncate(0)) == none && Kept(none, Truncate(0)) == none;
    assert none + map[0 := OTHER] == map[0 := OTHER];
    assert [] + [AppendJob([OTHER])] == [AppendJob([OTHER])];
    FourSteps(BARRED, Finish, TrimPending, TrimDb, Append([OTHER]));
  }

  /** At no instant of the run, its first and last included, the log is this one. */
  predicate NeverWas(w: World, events: seq<Event>, log: Log)
    requires Possible(w, events)
    decreases |events|
  {
    w.log != log && (events != [] ==> NeverWas(Next(w, events[0]), events[1..], log))
  }

  lemma {:induction false} NeverWasAppend(w: World, a: seq<Event>, b: seq<Event>, log: Log)
    requires Possible(w, a) && NeverWas(w, a, log) && Possible(After(w, a), b) && NeverWas(After(w, a), b, log)
    ensures Possible(w, a + b) && NeverWas(w, a + b, log)
    decreases |a|
  {
    hide Next, Enabled;
    PossibleAppend(w, a, b);
    if a == [] {
      assert a + b == b;
    } else {
      assert (a + b)[1..] == a[1..] + b;
      NeverWasAppend(Next(w, a[0]), a[1..], b, log);
    }
  }

  lemma NeverWasTwo(w: World, a: Event, b: Event, log: Log)
    requires Enabled(w, a) && Enabled(Next(w, a), b)
    requires w.log != log && Next(w, a).log != log && Next(Next(w, a), b).log != log
    ensures Possible(w, [a, b]) && NeverWas(w, [a, b], log)
  {
    hide Next, Enabled;
    TwoSteps(w, a, b);
    assert [a, b][1..] == [b] && [b][1..] == [];
    assert NeverWas(Next(Next(w, a), b), [], log);
    assert NeverWas(Next(w, a), [b], log);
  }

  lemma NeverWasFour(w: World, a: Event, b: Event, c: Event, d: Event, log: Log)
    requires Enabled(w, a) && Enabled(Next(w, a), b) && Enabled(Next(Next(w, a), b), c)
    requires Enabled(Next(Next(Next(w, a), b), c), d)
    requires w.log != log && Next(w, a).log != log && Next(Next(w, a), b).log != log
    requires Next(Next(Next(w, a), b), c).log != log && Next(Next(Next(Next(w, a), b), c), d).log != log
    ensures Possible(w, [a, b, c, d]) && NeverWas(w, [a, b, c, d], log)
  {
    hide Next, Enabled, NeverWas;
    NeverWasTwo(w, a, b, log);
    TwoSteps(w, a, b);
    NeverWasTwo(Next(Next(w, a), b), c, d, log);
    assert [a, b] + [c, d] == [a, b, c, d];
    NeverWasAppend(w, [a, b], [c, d], log);
  }

  lemma NeverMixedFirst()
    ensures Possible(Opened(PAIR, None, 2), DRAINING) && NeverWas(Opened(PAIR, None, 2), DRAINING, MIXED)
  {
    NoEntriesButBarrier();
    hide ToLog, EntriesOf, Indices, NeverWas;
    assert PAIR[0] != MIXED[0];
    var o := Opened(PAIR, None, 2);
    assert Next(o, SendBarrier(Truncate(0))).queue == [BarrierJob];
    NeverWasFour(o, SendBarrier(Truncate(0)), Receive, WriteOk, Clean, MIXED);
  }

  lemma NeverMixedThen()
    ensures Possible(BARRED, CUTTING) && NeverWas(BARRED, CUTTING, MIXED)
  {
    OneEntry(OTHER);
    NoEntriesButBarrier();
    hide ToLog, EntriesOf, Indices, NeverWas;
    assert PAIR[0] != MIXED[0] && 1 in MIXED;
    var none: Log := map[];
    assert Kept(PAIR, Truncate(0)) == none && none + map[0 := OTHER] == map[0 := OTHER];
    NeverWasFour(BARRED, Finish, TrimPending, TrimDb, Append([OTHER]), MIXED);
  }

  /** A truncation and an append in between: the read returns the new entry 0 beside the old entry 1, which the log never
      was. No entry was flushed in between. */
  lemma ReadCanMixLogs()
    ensures Possible(Opened(PAIR, None, 2), DRAINING + CUTTING)
    ensures NeverWas(Opened(PAIR, None, 2), DRAINING + CUTTING, MIXED)
    ensures TwoHalves(Opened(PAIR, None, 2), After(Opened(PAIR, None, 2), DRAINING + CUTTING), 0, 2) == MIXED
  {
    hide Next, Enabled, NeverWas;
    DrainingRun();
    CuttingRun();
    NeverMixedFirst();
    NeverMixedThen();
    PossibleAppend(Opened(PAIR, None, 2), DRAINING, CUTTING);
    NeverWasAppend(Opened(PAIR, None, 2), DRAINING, CUTTING, MIXED);
  }
}
