/** Asking the log store for its last log id, which takes four reads, while the flusher goes on. */
module LogState {
  import opened Collections
  import opened LogStore
  import opened LogRuns
  import opened LogReads
  import opened Recovery

  /** The caller holds the writer's handle, so only the flusher's steps fall between its reads. */
  predicate FlushOnly(events: seq<Event>) {
    forall e | e in events :: e.Receive? || e.WriteOk? || e.WriteFail? || e.Clean? || e.Finish?
  }

  /** The later of the database's last index at one instant and the pending map's at a later one. */
  function ReportedIndex(first: World, second: World): Option<nat> {
    Later(LastIndex(first.db), LastIndex(second.pending))
  }

  /** The id of that entry, looked up in the pending map and then in the database, or the purge marker. */
  function ReportedId(first: World, second: World, third: World, fourth: World, purged: Option<LogId>): Option<LogId> {
    var last := ReportedIndex(first, second);
    if last.None? then purged
    else if last.value in third.pending then Some(third.pending[last.value].logId)
    else if last.value in fourth.db then Some(fourth.db[last.value].logId)
    else purged
  }

  lemma FlushStep(w: World, e: Event)
    requires StoreInv(w) && !w.writer.Trimmed? && Enabled(w, e) && FlushOnly([e])
    ensures var r := Next(w, e); r.log == w.log && !r.writer.Trimmed? && r.pending.Keys <= w.pending.Keys
  {
    hide StoreInv, EntriesOf, ToLog, Indices;
    assert e in [e];
  }

  /** The flusher changes neither the log nor, except by removal, the pending map. */
  lemma {:induction false} FlushRun(w: World, events: seq<Event>)
    requires StoreInv(w) && !w.writer.Trimmed? && Possible(w, events) && FlushOnly(events)
    ensures var r := After(w, events);
            StoreInv(r) && r.log == w.log == Overlay(r) && !r.writer.Trimmed? && r.pending.Keys <= w.pending.Keys
    decreases |events|
  {
    hide StoreInv, Next, Enabled;
    if events == [] {
      OverlayIsLog(w);
    } else {
      FlushFirst(events);
      StepKeeps(w, events[0]);
      FlushStep(w, events[0]);
      FlushRun(Next(w, events[0]), events[1..]);
    }
  }

  lemma FlushFirst(events: seq<Event>)
    requires FlushOnly(events) && events != []
    ensures FlushOnly([events[0]]) && FlushOnly(events[1..])
  {
    assert events[0] in events;
  }

  lemma FlushNeverTrims(events: seq<Event>)
    requires FlushOnly(events)
    ensures NoTrim(events)
  {
  }

  /** The two halves hold the log without the entries that were flushed in between and not found by the first. */
  lemma HalvesOfLog(w: World, a: seq<Event>, i: nat)
    requires StoreInv(w) && !w.writer.Trimmed? && Possible(w, a) && FlushOnly(a)
    ensures i in w.db + After(w, a).pending <==> i in w.log && !Disturbed(w, a, i)
    ensures Disturbed(w, a, i) ==> i in w.log
  {
    hide StoreInv, Disturbed, After, Possible, FlushOnly;
    FlushRun(w, a);
    FlushNeverTrims(a);
    OneIndex(w, a, i);
    DisturbedWasMissed(w, a, i);
  }

  lemma DisturbedWasMissed(w: World, a: seq<Event>, i: nat)
    requires StoreInv(w) && Possible(w, a) && NoTrim(a)
    ensures Disturbed(w, a, i) ==> i !in w.db
  {
    hide StoreInv, Disturbed, NoTrim, PendingTouches;
    FlushOnlyRead(w, a, i);
  }

  lemma LastLeft(part: Log, log: Log)
    requires part.Keys <= log.Keys
    ensures LastIndex(part) == LastIndex(log) <==> (LastIndex(log).Some? ==> LastIndex(log).value in part)
  {
    hide LastIndex;
    if LastIndex(part).Some? {
      assert LastIndex(part).value in log.Keys;
    }
  }

  /** The flusher leaves the entry findable: pending at one instant, or in the database from then on. */
  lemma FoundInLog(w: World, b: seq<Event>, c: seq<Event>, i: nat)
    requires StoreInv(w) && !w.writer.Trimmed? && i in w.log
    requires Possible(w, b) && FlushOnly(b) && Possible(After(w, b), c) && FlushOnly(c)
    ensures var third, fourth := After(w, b), After(After(w, b), c);
            if i in third.pending then third.pending[i] == w.log[i] else i in fourth.db && fourth.db[i] == w.log[i]
  {
    hide StoreInv, After, Possible, FlushOnly;
    FlushRun(w, b);
    FlushRun(After(w, b), c);
  }

  lemma HalvesWithin(w: World, a: seq<Event>)
    requires StoreInv(w) && !w.writer.Trimmed? && Possible(w, a) && FlushOnly(a)
    ensures (w.db + After(w, a).pending).Keys <= w.log.Keys
  {
    hide StoreInv, Disturbed, After, Possible, FlushOnly;
    forall i | i in (w.db + After(w, a).pending).Keys ensures i in w.log.Keys {
      HalvesOfLog(w, a, i);
    }
  }

  /** The reported id is that of an entry of the log, or the purge marker if the log looked empty. It is the last entry's if
      and only if that entry was not flushed between the first two reads unseen by the first. */
  lemma LogStateIsLastIff(w: World, a: seq<Event>, b: seq<Event>, c: seq<Event>, purged: Option<LogId>)
    requires StoreInv(w) && !w.writer.Trimmed? && Possible(w, a) && FlushOnly(a)
    requires Possible(After(w, a), b) && FlushOnly(b) && Possible(After(After(w, a), b), c) && FlushOnly(c)
    ensures var second := After(w, a);
            var third := After(second, b);
            var reported, last := ReportedIndex(w, second), LastIndex(w.log);
            && (reported.Some? ==> reported.value in w.log)
            && ReportedId(w, second, third, After(third, c), purged) ==
               (if reported.Some? then Some(w.log[reported.value].logId) else purged)
            && (reported == last <==> (last.Some? ==> !Disturbed(w, a, last.value)))
  {
    hide StoreInv, Disturbed, After, Possible, FlushOnly, LastIndex;
    var second := After(w, a);
    var reported, last := ReportedIndex(w, second), LastIndex(w.log);
    FlushRun(w, a);
    HalvesWithin(w, a);
    LastOfOverlay(w.db, second.pending);
    LastLeft(w.db + second.pending, w.log);
    if last.Some? {
      HalvesOfLog(w, a, last.value);
    }
    if reported.Some? {
      assert reported.value in (w.db + second.pending).Keys;
      FoundInLog(second, b, c, reported.value);
    }
  }

  /** The commit pointer is handed out if and only if the log has an entry at or above it that was not flushed between the
      two reads unseen by the first; otherwise it is withheld. It is never one the log cannot serve. */
  lemma CommitIsServedIff(w: World, a: seq<Event>, c: LogId)
    requires StoreInv(w) && !w.writer.Trimmed? && Possible(w, a) && FlushOnly(a)
    ensures ReadCommitted(Commit(Some(c)), w.db, After(w, a).pending) ==
            if exists i :: i in w.log && i >= c.index && !Disturbed(w, a, i) then Some(c) else None
  {
    hide StoreInv, Disturbed, After, Possible, FlushOnly, LastIndex;
    var halves := w.db + After(w, a).pending;
    LastOfOverlay(w.db, After(w, a).pending);
    var last := LastIndex(halves);
    if last.Some? {
      HalvesOfLog(w, a, last.value);
    }
    if i :| i in w.log && i >= c.index && !Disturbed(w, a, i) {
      HalvesOfLog(w, a, i);
      assert i in halves;
    }
  }

  /** It can lag: an entry appended and flushed is reported as an empty log. */
  lemma LogStateCanLag(purged: Option<LogId>)
    ensures Possible(COLLECTED, [WriteOk, Clean]) && FlushOnly([WriteOk, Clean])
    ensures var second := After(COLLECTED, [WriteOk, Clean]);
            LastIndex(COLLECTED.log) == Some(0) && ReportedId(COLLECTED, second, second, second, purged) == purged
  {
    hide LastIndex, Next, Enabled, StoreInv;
    ReadCanMissAnEntry();
    OpenedInv(map[], None, 0);
    RunKeeps(Opened(map[], None, 0), [Append([FIRST]), Receive]);
    var second := After(COLLECTED, [WriteOk, Clean]);
    FlushRun(COLLECTED, [WriteOk, Clean]);
    NothingPending(second);
    assert 0 in COLLECTED.log && LastIndex(COLLECTED.log).value in COLLECTED.log;
  }

  lemma NothingPending(second: World)
    requires TwoHalves(COLLECTED, second, 0, 1) == map[] && second.pending.Keys <= {0}
    ensures second.pending == map[]
  {
    if 0 in second.pending {
      assert 0 in TwoHalves(COLLECTED, second, 0, 1);
    }
  }
}
