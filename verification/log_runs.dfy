/** What the log store promises over whole runs, under every interleaving of the writer and the flusher. */
module LogRuns {
  import opened Collections
  import opened LogStore

  lemma {:induction false} RunKeeps(w: World, events: seq<Event>)
    requires StoreInv(w) && Possible(w, events)
    ensures StoreInv(After(w, events))
    decreases |events|
  {
    if events != [] {
      StepKeeps(w, events[0]);
      RunKeeps(Next(w, events[0]), events[1..]);
    }
  }

  lemma {:induction false} PossibleAppend(w: World, a: seq<Event>, b: seq<Event>)
    requires Possible(w, a) && Possible(After(w, a), b)
    ensures Possible(w, a + b) && After(w, a + b) == After(After(w, a), b)
    decreases |a|
  {
    hide Next, Enabled;
    if a == [] {
      assert a + b == b;
    } else {
      assert (a + b)[1..] == a[1..] + b;
      PossibleAppend(Next(w, a[0]), a[1..], b);
    }
  }

  ghost predicate Openable(db: Log, purged: Option<nat>, tail: nat) {
    BelowTail(db, tail) && PurgedOk(purged, db, tail)
  }

  lemma OpenedInv(db: Log, purged: Option<nat>, tail: nat)
    requires Openable(db, purged, tail)
    ensures StoreInv(Opened(db, purged, tail))
  {
    assert db + map[] == db;
  }

  // ---------------------------------------------------------------- one ordered log

  /** The log that the writer's calls ask for; the flusher does not appear. `asked` is a trim under way. */
  function Wanted(log: Log, asked: Option<Trim>, events: seq<Event>): Log
    decreases |events|
  {
    if events == [] then log
    else match events[0]
      case Append(entries) => Wanted(log + ToLog(entries), asked, events[1..])
      case SendBarrier(trim) => Wanted(log, Some(trim), events[1..])
      case TrimDb => Wanted(if asked.Some? then Kept(log, asked.value) else log, None, events[1..])
      case _ => Wanted(log, asked, events[1..])
  }

  function Asked(writer: Writer): Option<Trim> {
    if writer.Ready? then None else Some(writer.trim)
  }

  lemma StepIsWanted(w: World, e: Event)
    requires Enabled(w, e)
    ensures var r := Next(w, e);
            match e
            case Append(entries) => r.log == w.log + ToLog(entries) && Asked(r.writer) == Asked(w.writer)
            case SendBarrier(trim) => r.log == w.log && Asked(r.writer) == Some(trim)
            case TrimDb => Asked(w.writer).Some? && r.log == Kept(w.log, Asked(w.writer).value) && Asked(r.writer) == None
            case _ => r.log == w.log && Asked(r.writer) == Asked(w.writer)
  {
    hide ToLog, Kept, EntriesOf, Indices, TrimDatabase, Ascending, HasBarrier, AbovePurged, NextTail, Keeps;
  }

  lemma {:induction false} LogIsWanted(w: World, events: seq<Event>)
    requires Possible(w, events)
    ensures After(w, events).log == Wanted(w.log, Asked(w.writer), events)
    decreases |events|
  {
    hide Next, Enabled, ToLog, Kept, Asked;
    if events != [] {
      StepIsWanted(w, events[0]);
      LogIsWanted(Next(w, events[0]), events[1..]);
    }
  }

  /** For every interleaving, outside the two halves of a trim, database and pending map overlaid are exactly the log
      that the writer's calls ask for, whatever the flusher did in between. */
  lemma OverlayIsWanted(db: Log, purged: Option<nat>, tail: nat, events: seq<Event>)
    requires Openable(db, purged, tail) && Possible(Opened(db, purged, tail), events)
    requires !After(Opened(db, purged, tail), events).writer.Trimmed?
    ensures var w := After(Opened(db, purged, tail), events); w.db + w.pending == Wanted(db, None, events)
  {
    var o := Opened(db, purged, tail);
    OpenedInv(db, purged, tail);
    RunKeeps(o, events);
    LogIsWanted(o, events);
  }

  // ---------------------------------------------------------------- index by index

  /** The last of the entries with this index. */
  function LastAt(entries: seq<Entry>, i: nat): Option<Entry>
    decreases |entries|
  {
    if entries == [] then None
    else if entries[|entries| - 1].logId.index == i then Some(entries[|entries| - 1])
    else LastAt(entries[..|entries| - 1], i)
  }

  /** What the calls of a run leave at an index: an append with an entry for it leaves that entry, a truncation from it or from
      below it and a purge up to it or beyond leave nothing, once they are carried out. */
  function EntryAsked(found: Option<Entry>, asked: Option<Trim>, events: seq<Event>, i: nat): Option<Entry>
    decreases |events|
  {
    if events == [] then found
    else match events[0]
      case Append(entries) =>
        EntryAsked(if LastAt(entries, i).Some? then LastAt(entries, i) else found, asked, events[1..], i)
      case SendBarrier(trim) => EntryAsked(found, Some(trim), events[1..], i)
      case TrimDb =>
        var gone := asked.Some? && if asked.value.Truncate? then i >= asked.value.from else i <= asked.value.upto;
        EntryAsked(if gone then None else found, None, events[1..], i)
      case _ => EntryAsked(found, asked, events[1..], i)
  }

  lemma {:induction false} ToLogAt(entries: seq<Entry>, i: nat)
    ensures LastAt(entries, i) == if i in ToLog(entries) then Some(ToLog(entries)[i]) else None
    decreases |entries|
  {
    if entries != [] {
      ToLogAt(entries[..|entries| - 1], i);
    }
  }

  lemma KeptAt(log: Log, trim: Trim, i: nat)
    ensures i in Kept(log, trim) <==> i in log && !(if trim.Truncate? then i >= trim.from else i <= trim.upto)
    ensures i in Kept(log, trim) ==> Kept(log, trim)[i] == log[i]
  {
  }

  /** For every interleaving, the log holds at each index what the writer's calls leave there. */
  lemma {:induction false} LogHoldsAsked(w: World, events: seq<Event>, i: nat)
    requires Possible(w, events)
    ensures var r := After(w, events);
            (if i in r.log then Some(r.log[i]) else None) ==
            EntryAsked(if i in w.log then Some(w.log[i]) else None, Asked(w.writer), events, i)
    decreases |events|
  {
    hide Next, Enabled, ToLog, Kept, Asked, LastAt;
    if events != [] {
      var e := events[0];
      StepIsWanted(w, e);
      if e.Append? {
        ToLogAt(e.entries, i);
      } else if e.TrimDb? {
        KeptAt(w.log, Asked(w.writer).value, i);
      }
      LogHoldsAsked(Next(w, e), events[1..], i);
    }
  }

  /** The highest index a run has purged up to, once the purge is carried out. */
  function MarkerAsked(marker: Option<nat>, asked: Option<Trim>, events: seq<Event>): Option<nat>
    decreases |events|
  {
    if events == [] then marker
    else match events[0]
      case SendBarrier(trim) => MarkerAsked(marker, Some(trim), events[1..])
      case TrimDb =>
        var raised := asked.Some? && asked.value.Purge? && (marker.None? || asked.value.upto > marker.value);
        MarkerAsked(if raised then Some(asked.value.upto) else marker, None, events[1..])
      case _ => MarkerAsked(marker, asked, events[1..])
  }

  lemma StepMarks(w: World, e: Event)
    requires Enabled(w, e)
    ensures !e.TrimDb? ==> Next(w, e).purged == w.purged
    ensures e.TrimDb? ==>
            Asked(w.writer).Some? &&
            var trim := Asked(w.writer).value;
            Next(w, e).purged ==
            if trim.Purge? && (w.purged.None? || trim.upto > w.purged.value) then Some(trim.upto) else w.purged
  {
    hide ToLog, Kept, EntriesOf, Indices, Ascending, HasBarrier, AbovePurged, NextTail, Keeps;
  }

  /** For every interleaving, the recorded marker is the highest purge the writer asked for and saw carried out. */
  lemma {:induction false} MarkerIsAsked(w: World, events: seq<Event>)
    requires Possible(w, events)
    ensures After(w, events).purged == MarkerAsked(w.purged, Asked(w.writer), events)
    decreases |events|
  {
    hide Next, Enabled, ToLog, Kept, Asked;
    if events != [] {
      StepIsWanted(w, events[0]);
      StepMarks(w, events[0]);
      MarkerIsAsked(Next(w, events[0]), events[1..]);
    }
  }

  // ---------------------------------------------------------------- durability

  /** No trim in the run drops index `i`. */
  predicate NeverTrims(w: World, events: seq<Event>, i: nat)
    requires Possible(w, events)
    decreases |events|
  {
    events != [] ==> (events[0].TrimDb? ==> Keeps(w.writer.trim, i)) && NeverTrims(Next(w, events[0]), events[1..], i)
  }

  lemma WriteHolds(w: World, e: Entry)
    requires StoreInv(w) && Enabled(w, WriteOk) && Holds(w.db, e)
    ensures Holds(Next(w, WriteOk).db, e)
  {
    PipeEntries(w.flusher, w.queue);
    WriteJobs(w.flusher, w.queue, w.pending, w.db, w.tail);
    ToLogFacts(EntriesOf(w.flusher.jobs), 0);
  }

  lemma StepHolds(w: World, event: Event, e: Entry)
    requires StoreInv(w) && Enabled(w, event) && Holds(w.db, e)
    requires event.TrimDb? ==> Keeps(w.writer.trim, e.logId.index)
    ensures Holds(Next(w, event).db, e)
  {
    if event.WriteOk? {
      WriteHolds(w, e);
    }
    hide StoreInv, ToLog, EntriesOf;
  }

  lemma {:induction false} RunHolds(w: World, events: seq<Event>, e: Entry)
    requires StoreInv(w) && Possible(w, events) && Holds(w.db, e) && NeverTrims(w, events, e.logId.index)
    ensures Holds(After(w, events).db, e)
    decreases |events|
  {
    hide StoreInv, Holds;
    if events != [] {
      StepKeeps(w, events[0]);
      StepHolds(w, events[0], e);
      RunHolds(Next(w, events[0]), events[1..], e);
    }
  }

  /** When an append's callback is told Ok its entries are in the database already, and they stay there, whatever is
      appended, flushed or fails later, until a truncation or purge drops them: a crash cannot lose them. */
  lemma CallbackMeansDurable(w: World, events: seq<Event>, e: Entry)
    requires StoreInv(w) && w.flusher.Cleaned? && e in EntriesOf(w.flusher.jobs)
    requires Possible(w, events) && NeverTrims(w, events, e.logId.index)
    ensures Holds(w.db, e) && Holds(After(w, events).db, e)
  {
    assert Holds(w.db, e);
    RunHolds(w, events, e);
  }

  /** The first index not written yet. */
  function Frontier(w: World): nat {
    var unwritten := Unwritten(w.flusher, w.queue);
    if unwritten == [] then w.tail else unwritten[0].logId.index
  }

  lemma UnwrittenAscends(w: World)
    requires StoreInv(w)
    ensures Ascending(Unwritten(w.flusher, w.queue), 0) && HoldsAll(w.pending, Unwritten(w.flusher, w.queue))
  {
    hide Ascending, EntriesOf, OverlayOk, BarrierOk, FrontierOk;
    PipeEntries(w.flusher, w.queue);
    AscendingSplit(EntriesOf(w.flusher.jobs), EntriesOf(w.queue), 0);
  }

  lemma BelowFrontier(w: World, i: nat)
    requires StoreInv(w) && i < Frontier(w)
    ensures i !in Indices(Unwritten(w.flusher, w.queue))
  {
    UnwrittenAscends(w);
    hide StoreInv, Unwritten;
    var unwritten := Unwritten(w.flusher, w.queue);
    forall e | e in unwritten ensures e.logId.index > i {
      var k :| 0 <= k < |unwritten| && unwritten[k] == e;
      assert unwritten[0].logId.index <= unwritten[k].logId.index;
    }
  }

  // ---------------------------------------------------------------- short runs

  lemma TwoSteps(w: World, a: Event, b: Event)
    requires Enabled(w, a) && Enabled(Next(w, a), b)
    ensures Possible(w, [a, b]) && After(w, [a, b]) == Next(Next(w, a), b)
  {
    hide Enabled, Next;
    var w1 := Next(w, a);
    assert [a, b][1..] == [b] && [b][1..] == [];
    assert Possible(w1, [b]) && After(w1, [b]) == After(Next(w1, b), []);
  }

  lemma FourSteps(w: World, a: Event, b: Event, c: Event, d: Event)
    requires Enabled(w, a) && Enabled(Next(w, a), b) && Enabled(Next(Next(w, a), b), c)
    requires Enabled(Next(Next(Next(w, a), b), c), d)
    ensures Possible(w, [a, b, c, d]) && After(w, [a, b, c, d]) == Next(Next(Next(Next(w, a), b), c), d)
  {
    hide Enabled, Next;
    var v := Next(Next(w, a), b);
    TwoSteps(w, a, b);
    TwoSteps(v, c, d);
    assert [a, b] + [c, d] == [a, b, c, d];
    PossibleAppend(w, [a, b], [c, d]);
  }

  lemma OneEntry(e: Entry)
    ensures EntriesOf([AppendJob([e])]) == [e] && ToLog([e]) == map[e.logId.index := e] && Indices([e]) == {e.logId.index}
  {
    EntriesOne(AppendJob([e]));
    IndicesOne(e);
    assert [e][..0] == [];
  }

  /** An idle flusher takes up an appended entry. */
  lemma OneTaken(w: World, e: Entry)
    requires w.writer.Ready? && w.queue == [] && w.flusher == Collecting([]) && e.logId.index >= w.tail
    ensures Enabled(w, Append([e])) && Enabled(Next(w, Append([e])), Receive)
    ensures Next(Next(w, Append([e])), Receive) ==
            w.(pending := w.pending[e.logId.index := e], flusher := Collecting([AppendJob([e])]),
               log := w.log[e.logId.index := e], tail := e.logId.index + 1)
  {
    hide ToLog, EntriesOf, Indices;
    OneEntry(e);
    OneAdded(w.pending, e);
    OneAdded(w.log, e);
    var job := AppendJob([e]);
    assert [] + [job] == [job] && [job][1..] == [];
  }

  lemma OneAdded(log: Log, e: Entry)
    ensures log + map[e.logId.index := e] == log[e.logId.index := e]
  {
  }
}
