/** What `Queue::validate` accepts, said without its counting: the exact shape of a state it lets through. */
module Validator {
  import opened Collections
  import opened Model
  import opened Groups
  import opened Invariant

  lemma {:induction false} ProjectionAtMost(m: map<nat, Lease>)
    ensures |LeaseOffsets(m)| <= |m|
    decreases |m|
  {
    if m == map[] {
      assert LeaseOffsets(m) == {};
    } else {
      var k :| k in m;
      var rest := m - {k};
      ProjectionAtMost(rest);
      ProjectionSplit(m, k);
      assert m.Keys == rest.Keys + {k} && |m| == |m.Keys| && |rest| == |rest.Keys|;
    }
  }

  ghost predicate OneLeasePerOffset(m: map<nat, Lease>) {
    forall l, k | l in m && k in m && m[l].offset == m[k].offset :: l == k
  }

  /** As many offsets as leases means no two leases share one. */
  lemma SizeMeansInjective(m: map<nat, Lease>)
    ensures |LeaseOffsets(m)| == |m| <==> OneLeasePerOffset(m)
  {
    if l, k :| l in m && k in m && m[l].offset == m[k].offset && l != k {
      var rest := m - {k};
      ProjectionAtMost(rest);
      ProjectionSplit(m, k);
      assert l in rest && rest[l].offset in LeaseOffsets(rest);
      assert LeaseOffsets(m) == LeaseOffsets(rest);
      assert m.Keys == rest.Keys + {k} && |m| == |m.Keys| && |rest| == |rest.Keys|;
    } else {
      ProjectionSize(m);
    }
  }

  lemma {:induction false} ElementsAtMost<T>(s: seq<T>)
    ensures |Elements(s)| <= |s|
  {
    if s == [] {
      assert Elements(s) == {};
    } else {
      ElementsAtMost(s[1..]);
      assert s == [s[0]] + s[1..];
      assert Elements(s) == {s[0]} + Elements(s[1..]);
    }
  }

  lemma {:induction false} SizeMeansDistinct<T>(s: seq<T>)
    requires |Elements(s)| == |s|
    ensures Distinct(s)
  {
    if s != [] {
      assert s == [s[0]] + s[1..];
      assert Elements(s) == {s[0]} + Elements(s[1..]);
      ElementsAtMost(s[1..]);
      assert s[0] !in Elements(s[1..]);
      SizeMeansDistinct(s[1..]);
      hide Elements;
      forall i, j | 0 <= i < j < |s| ensures s[i] != s[j] {
        assert s[1..][j - 1] == s[j];
        if i > 0 {
          assert s[1..][i - 1] == s[i];
        }
      }
    }
  }

  /** A group passes exactly if its counters and offsets are in range, its sparse set starts strictly above its watermark,
      and its two lease maps are one injective assignment of offsets to leases, with the deadlines. */
  lemma GroupValidMeans(g: GroupState, next: nat, leases: nat)
    ensures GroupValid(g, next, leases) <==>
            && g.pollCount <= 0x4000_0000_0000_0000 && g.watermark <= next
            && Canonical(g) && (forall o | o in g.ackedAbove :: o < next)
            && Mirrored(g)
            && (forall l | l in g.inFlight :: l < leases && g.watermark <= g.inFlight[l].offset < next)
  {
    SizeMeansInjective(g.inFlight);
    if Mirrored(g) {
      assert OneLeasePerOffset(g.inFlight);
      assert g.leasedOffsets.Keys == LeaseOffsets(g.inFlight);
    }
    forall o | o in LeaseOffsets(g.inFlight) ensures exists l :: l in g.inFlight && g.inFlight[l].offset == o {
    }
  }

  /** A topic passes exactly if its next offset is below the ceiling, its messages are stored under their own offsets below
      it, its dedup queue lists each key of its dedup table once and no others, within the capacity, and its groups pass. */
  lemma TopicValidMeans(t: TopicState, leases: nat)
    ensures TopicValid(t, leases) <==>
            && t.nextOffset <= 0x4000_0000_0000_0000
            && (forall o | o in t.messages :: t.messages[o].offset == o && o < t.nextOffset)
            && Distinct(t.dedup.order) && Elements(t.dedup.order) == t.dedup.entries.Keys
            && |t.dedup.order| <= 100_000
            && (forall n | n in t.groups :: GroupValid(t.groups[n], t.nextOffset, leases))
  {
    hide GroupValid;
    var order, entries := t.dedup.order, t.dedup.entries;
    assert |entries| == |entries.Keys|;
    if Distinct(order) {
      DistinctSize(order);
    }
    if |Elements(order)| == |order| {
      SizeMeansDistinct(order);
      if Elements(order) <= entries.Keys {
        SubsetSize(Elements(order), entries.Keys);
      }
    }
    assert (forall k | k in order :: k in entries) <==> Elements(order) <= entries.Keys;
  }
}
