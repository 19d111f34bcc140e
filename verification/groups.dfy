/** One consumer group: which offsets are done, which are leased. */
module Groups {
  import opened Collections
  import opened Model

  // ---------------------------------------------------------------- operations

  /** Move the watermark over acknowledged offsets, as both loops of the source do. */
  function Slide(watermark: nat, acked: set<nat>): (nat, set<nat>)
    decreases |acked|
  {
    if watermark in acked then Slide(SatAdd(watermark, 1), acked - {watermark}) else (watermark, acked)
  }

  function Slid(g: GroupState): GroupState {
    var s := Slide(g.watermark, g.ackedAbove);
    g.(watermark := s.0, ackedAbove := s.1)
  }

  function MarkAcked(g: GroupState, offset: nat): GroupState {
    if offset < g.watermark then g else Slid(g.(ackedAbove := g.ackedAbove + {offset}))
  }

  /** Forget one lease in both maps. */
  function Unlease(g: GroupState, leaseId: nat): GroupState {
    if leaseId in g.inFlight then
      g.(inFlight := g.inFlight - {leaseId}, leasedOffsets := g.leasedOffsets - {g.inFlight[leaseId].offset})
    else g
  }

  function AckLease(g: GroupState, leaseId: nat): GroupState {
    if leaseId in g.inFlight then MarkAcked(Unlease(g, leaseId), g.inFlight[leaseId].offset) else g
  }

  /** Forget a set of leases in both maps. */
  function DropLeases(g: GroupState, ids: set<nat>): GroupState {
    g.(inFlight := g.inFlight - ids,
       leasedOffsets := g.leasedOffsets - set l | l in ids && l in g.inFlight :: g.inFlight[l].offset)
  }

  function DueLeases(g: GroupState, nowMs: nat): set<nat> {
    set l | l in g.inFlight && g.inFlight[l].deadlineMs <= nowMs
  }

  function Expire(g: GroupState, nowMs: nat): GroupState {
    DropLeases(g, DueLeases(g, nowMs))
  }

  function LeasesBelow(g: GroupState, watermark: nat): set<nat> {
    set l | l in g.inFlight && g.inFlight[l].offset < watermark
  }

  function AckedFrom(acked: set<nat>, watermark: nat): set<nat> {
    set o | o in acked && o >= watermark
  }

  /** Raise the watermark and drop the acknowledgements and leases it passes. */
  function Raised(g: GroupState, to: nat): GroupState {
    var w := Max(g.watermark, to);
    var kept := g.(watermark := w, ackedAbove := AckedFrom(g.ackedAbove, w));
    DropLeases(kept, LeasesBelow(kept, w))
  }

  function AdvanceWatermark(g: GroupState, to: nat): GroupState {
    Slid(Raised(g, to))
  }

  // ---------------------------------------------------------------- what a group means

  /** The group will never be handed this offset again. */
  predicate IsDone(g: GroupState, offset: nat) {
    offset < g.watermark || offset in g.ackedAbove
  }

  /** Neither done nor leased. */
  predicate IsOpen(g: GroupState, offset: nat) {
    !IsDone(g, offset) && offset !in g.leasedOffsets
  }

  /** The sparse set starts strictly above the watermark. */
  predicate Canonical(g: GroupState) {
    forall o | o in g.ackedAbove :: g.watermark < o
  }

  /** `leasedOffsets` is the exact injective projection of `inFlight`. */
  predicate Mirrored(g: GroupState) {
    && (forall l | l in g.inFlight ::
          g.inFlight[l].offset in g.leasedOffsets && g.leasedOffsets[g.inFlight[l].offset] == g.inFlight[l].deadlineMs)
    && (forall o | o in g.leasedOffsets :: exists l :: l in g.inFlight && g.inFlight[l].offset == o)
    && (forall l, k | l in g.inFlight && k in g.inFlight && g.inFlight[l].offset == g.inFlight[k].offset :: l == k)
  }

  /** The group's part of the inductive invariant, for a topic retaining `[base, next)`. */
  predicate GroupInv(g: GroupState, base: nat, next: nat, leases: nat) {
    && base <= g.watermark <= next
    && Canonical(g)
    && (forall o | o in g.ackedAbove :: o < next)
    && Mirrored(g)
    && (forall o | o in g.leasedOffsets :: g.watermark <= o < next && o !in g.ackedAbove)
    && (forall l | l in g.inFlight :: l < leases)
  }

  // ---------------------------------------------------------------- the canonical watermark form

  lemma {:induction false} SlideFacts(w: nat, acked: set<nat>)
    requires forall o | o in acked :: w <= o < U64_MAX
    ensures var (v, rest) := Slide(w, acked);
            && w <= v
            && rest <= acked
            && (forall o | o in rest :: v < o)
            && (forall o: nat :: o < v || o in rest <==> o < w || o in acked)
    decreases |acked|
  {
    if w in acked {
      SlideFacts(w + 1, acked - {w});
    }
  }

  /** A watermark and a sparse set above it are determined by the offsets they stand for. */
  lemma CanonicalUnique(a: GroupState, b: GroupState)
    requires Canonical(a) && Canonical(b)
    requires forall o: nat :: IsDone(a, o) <==> IsDone(b, o)
    ensures a.watermark == b.watermark && a.ackedAbove == b.ackedAbove
  {
    assert !IsDone(a, a.watermark) && !IsDone(b, b.watermark);
    assert a.watermark == b.watermark;
    forall o ensures o in a.ackedAbove <==> o in b.ackedAbove {
      assert IsDone(a, o) <==> IsDone(b, o);
    }
  }

  lemma SlidFacts(g: GroupState)
    requires forall o | o in g.ackedAbove :: g.watermark <= o < U64_MAX
    ensures Canonical(Slid(g))
    ensures g.watermark <= Slid(g).watermark
    ensures Slid(g).ackedAbove <= g.ackedAbove
    ensures forall o: nat :: IsDone(Slid(g), o) <==> IsDone(g, o)
  {
    SlideFacts(g.watermark, g.ackedAbove);
  }

  // ---------------------------------------------------------------- leases

  lemma DropLeasesFacts(g: GroupState, ids: set<nat>)
    requires Mirrored(g)
    ensures var h := DropLeases(g, ids);
            && Mirrored(h)
            && (forall l :: l in h.inFlight <==> l in g.inFlight && l !in ids)
            && (forall l | l in h.inFlight :: h.inFlight[l] == g.inFlight[l])
            && (forall o | o in h.leasedOffsets :: o in g.leasedOffsets && h.leasedOffsets[o] == g.leasedOffsets[o])
            && (forall l | l in g.inFlight :: g.inFlight[l].offset in h.leasedOffsets <==> l !in ids)
  {
    var h := DropLeases(g, ids);
    forall o | o in h.leasedOffsets ensures exists l :: l in h.inFlight && h.inFlight[l].offset == o {
      var l :| l in g.inFlight && g.inFlight[l].offset == o;
      assert l in h.inFlight;
    }
  }

  lemma UnleaseIsDrop(g: GroupState, leaseId: nat)
    ensures Unlease(g, leaseId) == DropLeases(g, {leaseId})
  {
    if leaseId in g.inFlight {
      assert (set l | l in {leaseId} && l in g.inFlight :: g.inFlight[l].offset) == {g.inFlight[leaseId].offset};
    } else {
      assert g.inFlight - {leaseId} == g.inFlight;
      assert (set l | l in {leaseId} && l in g.inFlight :: g.inFlight[l].offset) == {};
    }
  }

  // ---------------------------------------------------------------- every operation keeps the invariant

  lemma WiderGroupInv(g: GroupState, base: nat, next: nat, leases: nat, base': nat, next': nat, leases': nat)
    requires GroupInv(g, base, next, leases)
    requires base' <= g.watermark && next <= next' && leases <= leases'
    ensures GroupInv(g, base', next', leases')
  {
  }

  lemma DropLeasesKeeps(g: GroupState, ids: set<nat>, base: nat, next: nat, leases: nat)
    requires GroupInv(g, base, next, leases)
    ensures GroupInv(DropLeases(g, ids), base, next, leases)
  {
    DropLeasesFacts(g, ids);
  }

  /** Acknowledging a lease makes exactly its offset done and frees exactly its lease. */
  lemma AckFacts(g: GroupState, leaseId: nat, base: nat, next: nat, leases: nat)
    requires GroupInv(g, base, next, leases) && next <= U64_MAX && leaseId in g.inFlight
    ensures var h := AckLease(g, leaseId);
            && GroupInv(h, base, next, leases)
            && g.watermark <= h.watermark
            && (forall o: nat :: IsDone(h, o) <==> IsDone(g, o) || o == g.inFlight[leaseId].offset)
            && h.inFlight == g.inFlight - {leaseId}
            && h.leasedOffsets == g.leasedOffsets - {g.inFlight[leaseId].offset}
  {
    var offset := g.inFlight[leaseId].offset;
    var u := Unlease(g, leaseId);
    UnleaseIsDrop(g, leaseId);
    DropLeasesKeeps(g, {leaseId}, base, next, leases);
    var m := u.(ackedAbove := u.ackedAbove + {offset});
    SlidFacts(m);
    var h := Slid(m);
    assert h == AckLease(g, leaseId);
    forall o | o in h.leasedOffsets ensures h.watermark <= o && o !in h.ackedAbove {
      assert o in u.leasedOffsets && o != offset;
      assert !IsDone(m, o);
    }
    assert h.watermark <= next by {
      assert !IsDone(m, next);
      assert !IsDone(h, next);
    }
  }

  /** The only leases given up are the ones below the target. */
  ghost predicate LeasesFrom(h: GroupState, g: GroupState, to: nat) {
    && (forall l :: l in h.inFlight <==> l in g.inFlight && g.inFlight[l].offset >= to)
    && (forall l | l in h.inFlight :: h.inFlight[l] == g.inFlight[l])
    && (forall o :: o in h.leasedOffsets <==> o in g.leasedOffsets && o >= to)
    && (forall o | o in h.leasedOffsets :: h.leasedOffsets[o] == g.leasedOffsets[o])
  }

  lemma RaisedFacts(g: GroupState, to: nat, base: nat, next: nat, leases: nat)
    requires GroupInv(g, base, next, leases) && to <= next
    ensures var h := Raised(g, to);
            && h.watermark == Max(g.watermark, to)
            && h.ackedAbove == AckedFrom(g.ackedAbove, h.watermark)
            && Mirrored(h) && LeasesFrom(h, g, to)
  {
    var w := Max(g.watermark, to);
    var kept := g.(watermark := w, ackedAbove := AckedFrom(g.ackedAbove, w));
    var h := Raised(g, to);
    DropLeasesFacts(kept, LeasesBelow(kept, w));
    forall o | o in g.leasedOffsets ensures o in h.leasedOffsets <==> o >= to {
      var l :| l in g.inFlight && g.inFlight[l].offset == o;
    }
  }

  /** Advancing the watermark makes everything below the target done and drops the leases there. */
  lemma AdvanceFacts(g: GroupState, to: nat, base: nat, next: nat, leases: nat)
    requires GroupInv(g, base, next, leases) && to <= next <= U64_MAX
    ensures var h := AdvanceWatermark(g, to);
            && GroupInv(h, Max(base, to), next, leases)
            && g.watermark <= h.watermark
            && (forall o: nat :: IsDone(h, o) <==> IsDone(g, o) || o < to)
            && LeasesFrom(h, g, to)
  {
    var r := Raised(g, to);
    RaisedFacts(g, to, base, next, leases);
    SlidFacts(r);
    var h := Slid(r);
    assert forall o: nat :: IsDone(r, o) <==> IsDone(g, o) || o < to;
    forall o | o in h.leasedOffsets ensures h.watermark <= o && o !in h.ackedAbove {
      assert !IsDone(r, o);
    }
    assert h.watermark <= next by {
      assert !IsDone(r, next);
      assert !IsDone(h, next);
    }
  }

  /** Expiry frees exactly the leases that are due. */
  lemma ExpireFacts(g: GroupState, nowMs: nat, base: nat, next: nat, leases: nat)
    requires GroupInv(g, base, next, leases)
    ensures var h := Expire(g, nowMs);
            && GroupInv(h, base, next, leases)
            && h == g.(inFlight := h.inFlight, leasedOffsets := h.leasedOffsets)
            && (forall l :: l in h.inFlight <==> l in g.inFlight && g.inFlight[l].deadlineMs > nowMs)
            && (forall l | l in h.inFlight :: h.inFlight[l] == g.inFlight[l])
            && (forall o :: o in h.leasedOffsets <==> o in g.leasedOffsets && g.leasedOffsets[o] > nowMs)
            && (forall o | o in h.leasedOffsets :: h.leasedOffsets[o] == g.leasedOffsets[o])
  {
    var ids := DueLeases(g, nowMs);
    DropLeasesKeeps(g, ids, base, next, leases);
    DropLeasesFacts(g, ids);
    var h := Expire(g, nowMs);
    forall o | o in g.leasedOffsets ensures o in h.leasedOffsets <==> g.leasedOffsets[o] > nowMs {
      var l :| l in g.inFlight && g.inFlight[l].offset == o;
    }
  }
}
