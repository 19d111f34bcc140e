/** A subscription as its offsets see it: each offset has a standing of its own, and the three maps are nothing but all of
    them together. */
module Subscriptions {
  import opened Collections
  import opened Tracking
  import opened TrackingRuns

  /** Not known; handed over under these leases since it was last not, the newest until `deadline`; or acknowledged and
      remembered until a time. */
  datatype Standing = Unknown | Out(handed: seq<nat>, deadline: u64) | Settled(until: u64)

  /** What an act makes of the standing of offset `o`. */
  function Then(s: Standing, o: nat, a: Act): Standing {
    match a
    case Hand(offset, lease, deadline, now) =>
      if offset != o || (s.Settled? && s.until > now) then s
      else if s.Out? then Out(s.handed + [lease], deadline)
      else Out([lease], deadline)
    case Answer(lease, ackedUntil) =>
      if s.Out? && lease in LastEight(s.handed) then (if ackedUntil.Some? then Settled(ackedUntil.value) else Unknown) else s
    case Close => Unknown
    case Sweep(now, grace) =>
      if (s.Out? && SatAdd(s.deadline, grace) <= now) || (s.Settled? && s.until <= now) then Unknown else s
  }

  function ThenAll(s: Standing, o: nat, acts: seq<Act>): Standing
    decreases |acts|
  {
    if acts == [] then s else ThenAll(Then(s, o, acts[0]), o, acts[1..])
  }

  /** What a delivery of an offset with this standing is answered. */
  function OutcomeFor(s: Standing, now: u64): Outcome {
    match s
    case Unknown => Push
    case Settled(until) => if until > now then AlreadyAcked else Push
    case Out(handed, _) => if |handed| % 3 == 0 then Push else Refreshed
  }

  /** The maps say of offset `o` that this is its standing. */
  ghost predicate Stands(t: Tracked, o: nat, s: Standing) {
    match s
    case Unknown => o !in t.byOffset && o !in t.ackedRecently
    case Out(handed, deadline) =>
      && o in t.byOffset && o !in t.ackedRecently
      && TellsOf(t.byOffset[o], handed) && t.byOffset[o].deadlineMs == deadline
    case Settled(until) => o !in t.byOffset && o in t.ackedRecently && t.ackedRecently[o] == until
  }

  // ---------------------------------------------------------------- one act

  lemma HandStands(t: Tracked, used: set<nat>, a: Act, o: nat, s: Standing)
    requires TrackInv(t, used) && a.Hand? && a.offset == o && Stands(t, o, s)
    ensures Stands(Acted(t, a), o, Then(s, o, a))
    ensures Deliver(t, o, a.lease, a.deadline, a.now).1 == OutcomeFor(s, a.now)
  {
    hide TrackInv, TellsOf;
    match s
    case Out(handed, deadline) => HandTells(t, used, o, a.lease, a.deadline, a.now, handed);
    case _ => OnceTells(a.lease, a.deadline);
  }

  lemma OnceTells(lease: nat, deadline: u64)
    ensures TellsOf(Track(lease, deadline, 0, [lease]), [lease])
  {
  }

  /** A lease is an alias of the offset exactly if it is among the last eight it was handed over under. */
  lemma AliasIff(t: Tracked, used: set<nat>, o: nat, handed: seq<nat>, lease: nat)
    requires TrackInv(t, used) && o in t.byOffset && TellsOf(t.byOffset[o], handed)
    ensures lease in LastEight(handed) <==> lease in t.leaseToOffset && t.leaseToOffset[lease] == o
    ensures LastEight(handed) != [] && t.byOffset[o].leaseId == handed[|handed| - 1]
  {
    hide LastEight;
    assert TrackOk(t.byOffset[o]);
    LastOfEight(handed);
  }

  lemma LastOfEight(handed: seq<nat>)
    requires handed != []
    ensures var last := LastEight(handed); last != [] && last[|last| - 1] == handed[|handed| - 1]
  {
  }

  lemma AnswerStands(t: Tracked, used: set<nat>, a: Act, o: nat, s: Standing)
    requires TrackInv(t, used) && a.Answer? && Stands(t, o, s)
    ensures Stands(Acted(t, a), o, Then(s, o, a))
  {
    assert forall l | l in t.leaseToOffset :: t.leaseToOffset[l] in t.byOffset;
    hide TrackInv, TellsOf, LastEight;
    if s.Out? {
      AliasIff(t, used, o, s.handed, a.lease);
    }
  }

  lemma ActStands(t: Tracked, used: set<nat>, a: Act, o: nat, s: Standing)
    requires TrackInv(t, used) && Stands(t, o, s)
    ensures Stands(Acted(t, a), o, Then(s, o, a))
  {
    match a
    case Hand(offset, _, _, _) =>
      if offset == o {
        hide TrackInv;
        HandStands(t, used, a, o, s);
      }
    case Answer(_, _) =>
      hide TrackInv;
      AnswerStands(t, used, a, o, s);
    case _ => hide TrackInv, TellsOf;
  }

  // ---------------------------------------------------------------- runs

  lemma {:induction false} RunStands(t: Tracked, used: set<nat>, acts: seq<Act>, o: nat, s: Standing)
    requires TrackInv(t, used) && Unrepeated(used, acts) && Stands(t, o, s)
    ensures Stands(ActedAll(t, acts), o, ThenAll(s, o, acts))
    decreases |acts|
  {
    hide TrackInv, Stands, Acted, Then;
    if acts != [] {
      ActKeeps(t, used, acts[0]);
      ActStands(t, used, acts[0], o, s);
      RunStands(Acted(t, acts[0]), used + Using(acts[0]), acts[1..], o, Then(s, o, acts[0]));
    }
  }

  /** Over every run of a subscription under never-repeating lease ids, each offset's standing follows from its own
      deliveries, from answers to its own last eight leases, and from sweeps and closing; and the next delivery of it, at any
      time, is answered by that standing alone. */
  lemma EachOffsetAlone(acts: seq<Act>, o: nat, lease: nat, deadline: u64, now: u64)
    requires Unrepeated({}, acts)
    ensures Stands(ActedAll(NOTHING, acts), o, ThenAll(Unknown, o, acts))
    ensures Deliver(ActedAll(NOTHING, acts), o, lease, deadline, now).1 == OutcomeFor(ThenAll(Unknown, o, acts), now)
  {
    hide TrackInv, ThenAll, ActedAll, Unrepeated, UsedBy, OutcomeFor, Deliver;
    NothingTracked();
    RunStands(NOTHING, {}, acts, o, Unknown);
    TrackingKeeps(NOTHING, {}, acts);
    HandStands(ActedAll(NOTHING, acts), UsedBy({}, acts), Hand(o, lease, deadline, now), o, ThenAll(Unknown, o, acts));
  }

  /** What an answer to a lease is taken for: the newest lease of the one offset that was handed over under it as one of its last
      eight, and nothing if there is none. */
  lemma AnswerGoesTo(t: Tracked, used: set<nat>, lease: nat, until: Option<u64>, o: nat, s: Standing)
    requires TrackInv(t, used) && Stands(t, o, s) && s.Out?
    ensures lease in LastEight(s.handed) <==> lease in t.leaseToOffset && t.leaseToOffset[lease] == o
    ensures lease in LastEight(s.handed) ==> Resolve(t, lease, until).1 == Some(s.handed[|s.handed| - 1])
    ensures lease !in t.leaseToOffset ==> Resolve(t, lease, until) == (t, None)
  {
    hide TrackInv, TellsOf, LastEight;
    AliasIff(t, used, o, s.handed, lease);
  }

  /** A message given back is not lost: after a lease is resolved without an acknowledgement, its offset is not tracked and
      nothing is remembered of it, and the next delivery of it, at any time, is pushed and begins a track of its own. */
  lemma GivenBackIsPushed(t: Tracked, used: set<nat>, lease: nat, again: nat, deadline: u64, now: u64)
    requires TrackInv(t, used) && lease in t.leaseToOffset
    ensures var o, r := t.leaseToOffset[lease], Resolve(t, lease, None).0;
            && r.ackedRecently == t.ackedRecently && o !in r.byOffset && o !in r.ackedRecently
            && Deliver(r, o, again, deadline, now).1 == Push
            && var d := Deliver(r, o, again, deadline, now).0;
               o in d.byOffset && d.byOffset[o] == Track(again, deadline, 0, [again])
  {
    hide TrackOk;
  }

  // ---------------------------------------------------------------- counting and closing

  /** An offset counts as live exactly if it is out and its newest lease is still running. */
  lemma LiveIff(t: Tracked, o: nat, s: Standing, now: u64)
    requires Stands(t, o, s)
    ensures o in Live(t.byOffset, now) <==> s.Out? && s.deadline > now
  {
  }

  lemma {:induction false} CurrentIff(tracks: map<nat, Track>, l: nat)
    ensures l in CurrentLeases(tracks) <==> exists o :: o in tracks && tracks[o].leaseId == l
    ensures (forall o, p | o in tracks && p in tracks && tracks[o].leaseId == tracks[p].leaseId :: o == p) ==>
            CurrentLeases(tracks)[l] <= 1
    decreases |tracks|
  {
    if tracks != map[] {
      var m := MinOf(tracks.Keys);
      var rest := tracks - {m};
      CurrentIff(rest, l);
      if o :| o in tracks && tracks[o].leaseId == l && o != m {
        assert o in rest && rest[o].leaseId == l;
      }
      if o :| o in rest && rest[o].leaseId == l {
        assert o in tracks && tracks[o].leaseId == l;
      }
    }
  }

  lemma NewestIsAlias(t: Tracked, used: set<nat>, o: nat)
    requires TrackInv(t, used) && o in t.byOffset
    ensures t.byOffset[o].leaseId in t.leaseToOffset && t.leaseToOffset[t.byOffset[o].leaseId] == o
  {
    assert TrackOk(t.byOffset[o]);
    assert t.byOffset[o].leaseId in t.byOffset[o].leases;
  }

  /** Closing a subscription gives back exactly the newest lease of each offset that is out, once. */
  lemma ClosingGivesBack(t: Tracked, used: set<nat>, o: nat, s: Standing)
    requires TrackInv(t, used) && Stands(t, o, s) && s.Out?
    ensures CurrentLeases(t.byOffset)[s.handed[|s.handed| - 1]] == 1
    ensures |CurrentLeases(t.byOffset)| == |t.byOffset|
  {
    hide LastEight;
    var l := s.handed[|s.handed| - 1];
    AliasIff(t, used, o, s.handed, l);
    forall p, r | p in t.byOffset && r in t.byOffset && t.byOffset[p].leaseId == t.byOffset[r].leaseId ensures p == r {
      NewestIsAlias(t, used, p);
      NewestIsAlias(t, used, r);
    }
    CurrentIff(t.byOffset, l);
    CurrentSize(t.byOffset);
  }

  lemma {:induction false} CurrentSize(tracks: map<nat, Track>)
    ensures |CurrentLeases(tracks)| == |tracks|
    decreases |tracks|
  {
    if tracks != map[] {
      var m := MinOf(tracks.Keys);
      CurrentSize(tracks - {m});
      assert tracks.Keys == (tracks - {m}).Keys + {m};
    }
  }
}
