/** Which deliverable messages one poll hands out.

    `ReferenceSelection` is the simple form: sort every candidate. `Select` is the form the queue runs:
    one pass over the candidates with a bounded heap and a buffer of the earliest ones. */
module Selection {
  import opened Collections

  const RESERVED_DEN: nat := 4

  datatype Item = Item(priority: nat, offset: nat)

  /** Higher priority first, then lower offset. */
  predicate Before(a: Item, b: Item) {
    a.priority > b.priority || (a.priority == b.priority && a.offset < b.offset)
  }

  predicate Sorted(s: seq<Item>) {
    forall i, j :: 0 <= i < j < |s| ==> Before(s[i], s[j])
  }

  /** No two items share an offset. */
  ghost predicate Keyed(s: set<Item>) {
    forall a, b :: a in s && b in s && a.offset == b.offset ==> a == b
  }

  /** Candidates come out of an ordered map: strictly increasing offsets. */
  predicate ByOffset(s: seq<Item>) {
    forall i, j :: 0 <= i < j < |s| ==> s[i].offset < s[j].offset
  }

  predicate HasOffset(s: seq<Item>, offset: nat) {
    exists i :: 0 <= i < |s| && s[i].offset == offset
  }

  // ---------------------------------------------------------------- sorting

  function Insert(x: Item, s: seq<Item>): seq<Item> {
    if s == [] || !Before(s[0], x) then [x] + s else [s[0]] + Insert(x, s[1..])
  }

  /** The stable `sort_by` at the end of a selection. */
  function SortItems(s: seq<Item>): seq<Item> {
    if s == [] then [] else Insert(s[0], SortItems(s[1..]))
  }

  lemma {:induction false} InsertSorted(x: Item, s: seq<Item>)
    requires Sorted(s)
    requires forall y | y in s :: y.offset != x.offset
    ensures Sorted(Insert(x, s))
    ensures Elements(Insert(x, s)) == Elements(s) + {x}
    ensures |Insert(x, s)| == |s| + 1
  {
    if s == [] {
    } else if !Before(s[0], x) {
      assert s[0] in s;
      assert Before(x, s[0]);
    } else {
      var tail := s[1..];
      InsertSorted(x, tail);
      assert s == [s[0]] + tail;
      assert forall y :: y in Insert(x, tail) <==> y in Elements(Insert(x, tail));
      forall y | y in Insert(x, tail) ensures Before(s[0], y) {
        assert y in tail || y == x;
      }
    }
  }

  lemma {:induction false} SortItemsSorted(s: seq<Item>)
    requires Distinct(s) && Keyed(Elements(s))
    ensures Sorted(SortItems(s))
    ensures Elements(SortItems(s)) == Elements(s)
    ensures |SortItems(s)| == |s|
  {
    if s != [] {
      var tail := s[1..];
      assert s == [s[0]] + tail;
      assert Elements(s) == {s[0]} + Elements(tail);
      SortItemsSorted(tail);
      forall y | y in SortItems(tail) ensures y.offset != s[0].offset {
        assert y in Elements(SortItems(tail));
        assert y in tail && y in Elements(s);
        assert s[0] in Elements(s);
      }
      InsertSorted(s[0], SortItems(tail));
    }
  }

  lemma SortedDistinct(s: seq<Item>)
    requires Sorted(s)
    ensures Distinct(s)
  {
  }

  /** A strictly sorted sequence is determined by its elements. */
  lemma {:induction false} SortedUnique(a: seq<Item>, b: seq<Item>)
    requires Sorted(a) && Sorted(b)
    requires Elements(a) == Elements(b)
    ensures a == b
  {
    SortedDistinct(a);
    SortedDistinct(b);
    DistinctSize(a);
    DistinctSize(b);
    if a != [] {
      assert a[0] in Elements(b) && b[0] in Elements(a);
      assert a[0] == b[0];
      assert a == [a[0]] + a[1..] && b == [b[0]] + b[1..];
      assert a[0] !in a[1..] && b[0] !in b[1..];
      assert Elements(a[1..]) == Elements(a) - {a[0]};
      assert Elements(b[1..]) == Elements(b) - {b[0]};
      SortedUnique(a[1..], b[1..]);
    }
  }

  // ---------------------------------------------------------------- the reference

  /** Append the items of `source` whose offset is not chosen yet, until `limit` items are chosen. */
  function Fill(chosen: seq<Item>, source: seq<Item>, limit: nat): seq<Item>
    decreases |source|
  {
    if source == [] || |chosen| >= limit then chosen
    else if HasOffset(chosen, source[0].offset) then Fill(chosen, source[1..], limit)
    else Fill(chosen + [source[0]], source[1..], limit)
  }

  function PrioritySlots(max: nat, pollCount: nat): (slots: nat)
    ensures slots <= max
    ensures max > 0 && (pollCount + 1) % RESERVED_DEN == 0 ==> slots < max
  {
    var base := max / RESERVED_DEN;
    var bonus := if (pollCount + 1) % RESERVED_DEN == 0 then 1 else 0;
    max - Min(base + bonus, max)
  }

  function ReferenceSelection(candidates: seq<Item>, max: nat, pollCount: nat): seq<Item> {
    if candidates == [] || max == 0 then [] else
      var byPriority := SortItems(candidates);
      var top := Fill([], byPriority, PrioritySlots(max, pollCount));
      var withEarliest := Fill(top, candidates, max);
      SortItems(Fill(withEarliest, byPriority, max))
  }

  lemma ByOffsetKeyed(s: seq<Item>)
    requires ByOffset(s)
    ensures Distinct(s) && Keyed(Elements(s))
  {
  }

  lemma KeyedSubset(a: set<Item>, b: set<Item>)
    requires Keyed(b) && a <= b
    ensures Keyed(a)
  {
  }

  lemma {:induction false} FillFacts(chosen: seq<Item>, source: seq<Item>, limit: nat, all: set<Item>)
    requires Keyed(all) && Elements(chosen) <= all && Elements(source) <= all
    requires Distinct(chosen)
    ensures chosen <= Fill(chosen, source, limit)
    ensures Distinct(Fill(chosen, source, limit))
    ensures Elements(Fill(chosen, source, limit)) <= Elements(chosen) + Elements(source)
    ensures |Fill(chosen, source, limit)| <= Max(|chosen|, limit)
    ensures |Fill(chosen, source, limit)| < limit ==> Elements(source) <= Elements(Fill(chosen, source, limit))
    decreases |source|
  {
    if source != [] && |chosen| < limit {
      var x, tail := source[0], source[1..];
      assert source == [x] + tail;
      assert Elements(source) == {x} + Elements(tail);
      if HasOffset(chosen, x.offset) {
        FillFacts(chosen, tail, limit, all);
        OffsetNamesItem(chosen, x, all);
        assert x in Elements(chosen) && Elements(chosen) <= Elements(Fill(chosen, tail, limit));
      } else {
        assert x !in chosen;
        assert Elements(chosen + [x]) == Elements(chosen) + {x};
        FillFacts(chosen + [x], tail, limit, all);
        assert chosen <= chosen + [x];
        assert x in chosen + [x] && x in Fill(chosen + [x], tail, limit);
      }
    }
  }

  lemma OffsetNamesItem(chosen: seq<Item>, x: Item, all: set<Item>)
    requires Keyed(all) && Elements(chosen) <= all && x in all
    ensures HasOffset(chosen, x.offset) <==> x in chosen
  {
    if HasOffset(chosen, x.offset) {
      var i :| 0 <= i < |chosen| && chosen[i].offset == x.offset;
      assert chosen[i] in Elements(chosen);
    }
  }

  /** Filling depends on what is chosen, not on the order it was chosen in. */
  lemma {:induction false} FillOrderFree(a: seq<Item>, b: seq<Item>, source: seq<Item>, limit: nat, all: set<Item>)
    requires Keyed(all) && Elements(a) <= all && Elements(source) <= all
    requires Distinct(a) && Distinct(b) && Elements(a) == Elements(b)
    ensures Elements(Fill(a, source, limit)) == Elements(Fill(b, source, limit))
    decreases |source|
  {
    DistinctSize(a);
    DistinctSize(b);
    if source != [] && |a| < limit {
      var x, tail := source[0], source[1..];
      assert source == [x] + tail;
      assert x in Elements(source);
      OffsetNamesItem(a, x, all);
      OffsetNamesItem(b, x, all);
      assert x in a <==> x in Elements(a);
      assert x in b <==> x in Elements(b);
      if HasOffset(a, x.offset) {
        FillOrderFree(a, b, tail, limit, all);
      } else {
        assert Elements(a + [x]) == Elements(a) + {x};
        assert Elements(b + [x]) == Elements(b) + {x};
        FillOrderFree(a + [x], b + [x], tail, limit, all);
      }
    }
  }

  lemma {:induction false} FillSplit(chosen: seq<Item>, first: seq<Item>, second: seq<Item>, limit: nat)
    ensures Fill(chosen, first + second, limit) == Fill(Fill(chosen, first, limit), second, limit)
    decreases |first|
  {
    if first == [] {
      assert first + second == second;
    } else if |chosen| < limit {
      assert (first + second)[1..] == first[1..] + second;
      if HasOffset(chosen, first[0].offset) {
        FillSplit(chosen, first[1..], second, limit);
      } else {
        FillSplit(chosen + [first[0]], first[1..], second, limit);
      }
    }
  }

  /** The first `limit` candidates are enough to fill up from. */
  lemma FillFromPrefix(chosen: seq<Item>, source: seq<Item>, limit: nat, all: set<Item>)
    requires Keyed(all) && Elements(chosen) <= all && Elements(source) <= all
    requires Distinct(chosen) && Distinct(source)
    ensures Fill(chosen, source, limit) == Fill(chosen, source[..Min(limit, |source|)], limit)
  {
    if limit < |source| {
      var pre, post := source[..limit], source[limit..];
      assert source == pre + post;
      assert Elements(pre) <= Elements(source);
      FillSplit(chosen, pre, post, limit);
      FillFacts(chosen, pre, limit, all);
      var filled := Fill(chosen, pre, limit);
      if |filled| < limit {
        DistinctSize(pre);
        DistinctSize(filled);
        SubsetSize(Elements(pre), Elements(filled));
        assert false;
      }
    } else {
      assert source[..|source|] == source;
    }
  }

  /** Filling from items that are all chosen already, or with no room left, changes nothing. */
  lemma {:induction false} FillNothing(chosen: seq<Item>, source: seq<Item>, limit: nat)
    requires |chosen| >= limit || Elements(source) <= Elements(chosen)
    ensures Fill(chosen, source, limit) == chosen
    decreases |source|
  {
    if source != [] && |chosen| < limit {
      assert source[0] in Elements(source);
      assert source[0] in chosen;
      assert source == [source[0]] + source[1..];
      assert Elements(source[1..]) <= Elements(source);
      FillNothing(chosen, source[1..], limit);
    }
  }

  /** Filling from unrelated items takes a prefix of them. */
  lemma {:induction false} FillFresh(chosen: seq<Item>, source: seq<Item>, limit: nat)
    requires |chosen| <= limit && Distinct(chosen + source) && Keyed(Elements(chosen + source))
    ensures Fill(chosen, source, limit) == chosen + source[..Min(limit - |chosen|, |source|)]
    decreases |source|
  {
    if source == [] || |chosen| == limit {
      assert chosen + source[..0] == chosen;
    } else {
      var x, tail := source[0], source[1..];
      var both := chosen + source;
      assert both == chosen + [x] + tail;
      forall i | 0 <= i < |chosen| ensures chosen[i].offset != x.offset {
        assert both[i] in Elements(both) && both[|chosen|] in Elements(both);
      }
      FillFresh(chosen + [x], tail, limit);
      var k := Min(limit - |chosen|, |source|);
      assert source[..k] == [x] + tail[..k - 1];
    }
  }

  // ---------------------------------------------------------------- what a selection is

  /** `top` is a best part of `all`: everything in it goes before everything outside it. */
  ghost predicate IsBest(top: set<Item>, all: set<Item>) {
    top <= all && forall x, y :: x in top && y in all && y !in top ==> Before(x, y)
  }

  lemma BestUnique(a: set<Item>, b: set<Item>, all: set<Item>)
    requires IsBest(a, all) && IsBest(b, all) && |a| == |b|
    ensures a == b
  {
    if !(a <= b) && !(b <= a) {
      var x :| x in a && x !in b;
      var y :| y in b && y !in a;
      assert false;
    } else if a <= b {
      SubsetSize(a, b);
    } else {
      SubsetSize(b, a);
    }
  }

  lemma PrefixIsBest(s: seq<Item>, k: nat)
    requires Sorted(s) && k <= |s|
    ensures IsBest(Elements(s[..k]), Elements(s))
    ensures |Elements(s[..k])| == k
  {
    SortedDistinct(s);
    DistinctSize(s[..k]);
    forall x, y | x in Elements(s[..k]) && y in Elements(s) && y !in Elements(s[..k]) ensures Before(x, y) {
      var i :| 0 <= i < k && s[i] == x;
      var j :| 0 <= j < |s| && s[j] == y;
    }
  }

  /** The two fills of a selection, from any listing `top` of the best candidates. */
  lemma SelectionFrom(candidates: seq<Item>, max: nat, pollCount: nat, top: seq<Item>)
    requires ByOffset(candidates) && max > 0
    requires Distinct(top) && IsBest(Elements(top), Elements(candidates))
    requires |top| == Min(PrioritySlots(max, pollCount), |candidates|)
    ensures var filled := Fill(top, candidates, max);
            && Distinct(filled) && Keyed(Elements(filled)) && Elements(filled) <= Elements(candidates)
            && |filled| == Min(max, |candidates|)
            && ReferenceSelection(candidates, max, pollCount) == SortItems(filled)
  {
    var all := Elements(candidates);
    ByOffsetKeyed(candidates);
    DistinctSize(candidates);
    DistinctSize(top);
    FillFacts(top, candidates, max, all);
    var filled := Fill(top, candidates, max);
    DistinctSize(filled);
    SubsetSize(Elements(filled), all);
    KeyedSubset(Elements(filled), all);
    if |filled| < max {
      SubsetSize(all, Elements(filled));
    }
    if candidates == [] {
      assert filled == [];
    } else {
      SelectionFromSorted(candidates, max, pollCount, top);
    }
  }

  lemma SelectionFromSorted(candidates: seq<Item>, max: nat, pollCount: nat, top: seq<Item>)
    requires ByOffset(candidates) && max > 0 && candidates != []
    requires Distinct(top) && IsBest(Elements(top), Elements(candidates))
    requires |top| == Min(PrioritySlots(max, pollCount), |candidates|)
    ensures ReferenceSelection(candidates, max, pollCount) == SortItems(Fill(top, candidates, max))
  {
    var all := Elements(candidates);
    var byPriority := SortItems(candidates);
    ByOffsetKeyed(candidates);
    SortItemsSorted(candidates);
    var best := Fill([], byPriority, PrioritySlots(max, pollCount));
    FillTakesBest(candidates, PrioritySlots(max, pollCount), top);
    FillsAgree(best, top, candidates, byPriority, max);
  }

  lemma FillTakesBest(candidates: seq<Item>, slots: nat, top: seq<Item>)
    requires ByOffset(candidates)
    requires Distinct(top) && IsBest(Elements(top), Elements(candidates))
    requires |top| == Min(slots, |candidates|)
    ensures Distinct(Fill([], SortItems(candidates), slots))
    ensures Elements(Fill([], SortItems(candidates), slots)) == Elements(top)
  {
    var sorted := SortItems(candidates);
    ByOffsetKeyed(candidates);
    SortItemsSorted(candidates);
    FillFromSorted(sorted, slots);
    var k := Min(slots, |sorted|);
    PrefixIsBest(sorted, k);
    DistinctSize(top);
    BestUnique(Elements(sorted[..k]), Elements(top), Elements(candidates));
  }

  lemma FillFromSorted(sorted: seq<Item>, slots: nat)
    requires Sorted(sorted) && Keyed(Elements(sorted))
    ensures Fill([], sorted, slots) == sorted[..Min(slots, |sorted|)]
    ensures Distinct(sorted[..Min(slots, |sorted|)])
  {
    SortedDistinct(sorted);
    assert [] + sorted == sorted;
    FillFresh([], sorted, slots);
  }

  lemma FillsAgree(best: seq<Item>, top: seq<Item>, candidates: seq<Item>, byPriority: seq<Item>, max: nat)
    requires ByOffset(candidates) && Elements(byPriority) == Elements(candidates)
    requires Distinct(best) && Distinct(top)
    requires Elements(best) == Elements(top) <= Elements(candidates)
    ensures SortItems(Fill(Fill(best, candidates, max), byPriority, max)) == SortItems(Fill(top, candidates, max))
  {
    var all := Elements(candidates);
    ByOffsetKeyed(candidates);
    FillFacts(best, candidates, max, all);
    FillFacts(top, candidates, max, all);
    FillOrderFree(best, top, candidates, max, all);
    var filled := Fill(best, candidates, max);
    FillNothing(filled, byPriority, max);
    SameSort(filled, Fill(top, candidates, max), all);
  }

  lemma SameSort(a: seq<Item>, b: seq<Item>, all: set<Item>)
    requires Keyed(all) && Elements(a) <= all && Elements(a) == Elements(b)
    requires Distinct(a) && Distinct(b)
    ensures SortItems(a) == SortItems(b)
  {
    KeyedSubset(Elements(a), all);
    SortItemsSorted(a);
    SortItemsSorted(b);
    SortedUnique(SortItems(a), SortItems(b));
  }

  /** A selection is sorted, takes candidates only, and takes as many as it can. */
  lemma SelectionFacts(candidates: seq<Item>, max: nat, pollCount: nat)
    requires ByOffset(candidates)
    ensures var r := ReferenceSelection(candidates, max, pollCount);
            && Sorted(r) && Distinct(r) && |r| == Min(max, |candidates|)
            && Elements(r) <= Elements(candidates) && Keyed(Elements(r))
  {
    if max > 0 && candidates != [] {
      var top := BestListing(candidates, PrioritySlots(max, pollCount));
      SelectionFrom(candidates, max, pollCount, top);
      var filled := Fill(top, candidates, max);
      SortItemsSorted(filled);
      SortedDistinct(SortItems(filled));
    }
  }

  /** The best candidates, listed in priority order. */
  ghost function BestListing(candidates: seq<Item>, slots: nat): (top: seq<Item>)
    requires ByOffset(candidates)
    ensures Distinct(top) && IsBest(Elements(top), Elements(candidates))
    ensures |top| == Min(slots, |candidates|)
  {
    ByOffsetKeyed(candidates);
    SortItemsSorted(candidates);
    var sorted := SortItems(candidates);
    PrefixIsBest(sorted, Min(slots, |candidates|));
    SortedDistinct(sorted);
    sorted[..Min(slots, |candidates|)]
  }

  function OffsetsIn(items: seq<Item>): set<nat> { set x | x in items :: x.offset }

  lemma {:induction false} OffsetsSize(items: seq<Item>)
    requires forall i, j | 0 <= i < j < |items| :: items[i].offset != items[j].offset
    ensures |OffsetsIn(items)| == |items|
    decreases |items|
  {
    if items == [] {
      assert OffsetsIn(items) == {};
    } else {
      var rest := items[1..];
      assert items == [items[0]] + rest;
      OffsetsSize(rest);
      assert OffsetsIn(items) == {items[0].offset} + OffsetsIn(rest);
      assert items[0].offset !in OffsetsIn(rest);
    }
  }

  /** Anti-starvation: a candidate is passed over only for as many candidates with lower offsets as the poll has reserved
      places: a quarter of what it asks for, and one more on every fourth poll. */
  lemma ReservedPlacesGoToEarliest(candidates: seq<Item>, max: nat, pollCount: nat, x: Item) returns (early: set<nat>)
    requires ByOffset(candidates)
    requires x in candidates && x !in ReferenceSelection(candidates, max, pollCount)
    ensures |early| == Min(max / 4 + (if (pollCount + 1) % 4 == 0 then 1 else 0), max)
    ensures forall p | p in early :: p < x.offset && HasOffset(ReferenceSelection(candidates, max, pollCount), p)
  {
    if max == 0 {
      return {};
    }
    var all := Elements(candidates);
    var top := BestListing(candidates, PrioritySlots(max, pollCount));
    SelectionFrom(candidates, max, pollCount, top);
    var filled := Fill(top, candidates, max);
    SortItemsSorted(filled);
    var r := ReferenceSelection(candidates, max, pollCount);
    assert Elements(r) == Elements(filled);
    assert x !in filled by { assert x !in Elements(r); }
    ByOffsetKeyed(candidates);
    DistinctSize(candidates);
    DistinctSize(filled);
    assert |filled| != |candidates| by {
      SubsetSize(Elements(filled), all);
    }
    assert |filled| == max && |top| == PrioritySlots(max, pollCount);
    FillFacts(top, candidates, max, all);
    var added := filled[|top|..];
    early := OffsetsIn(added);
    AddedFacts(filled, top, all);
    forall p | p in early ensures p < x.offset && HasOffset(r, p) {
      var y :| y in added && y.offset == p;
      FillPassesInOrder(top, candidates, max, x, y, all);
      assert y in Elements(filled) && y in r;
    }
  }

  lemma AddedFacts(filled: seq<Item>, top: seq<Item>, all: set<Item>)
    requires Distinct(filled) && Keyed(Elements(filled)) && top <= filled
    ensures |OffsetsIn(filled[|top|..])| == |filled| - |top|
    ensures forall y | y in filled[|top|..] :: y in filled && y !in top
  {
    var added := filled[|top|..];
    forall i, j | 0 <= i < j < |added| ensures added[i].offset != added[j].offset {
      assert added[i] == filled[|top| + i] && added[j] == filled[|top| + j];
      assert added[i] in Elements(filled) && added[j] in Elements(filled);
    }
    OffsetsSize(added);
    forall y | y in added ensures y in filled && y !in top {
      var i :| 0 <= i < |added| && added[i] == y;
      assert filled[|top| + i] == y;
      forall k | 0 <= k < |top| ensures top[k] != y {
        assert filled[k] == top[k];
      }
    }
  }

  /** The candidates that go before `x`. */
  function Ahead(candidates: seq<Item>, x: Item): set<Item> {
    set y | y in candidates && Before(y, x)
  }

  /** The candidates with lower offsets that at least `places` others go before. */
  function EarlierBehind(candidates: seq<Item>, x: Item, places: nat): set<Item> {
    set y | y in candidates && y.offset < x.offset && |Ahead(candidates, y)| >= places
  }

  lemma {:induction false} BestIff(top: set<Item>, candidates: seq<Item>, x: Item)
    requires Keyed(Elements(candidates)) && IsBest(top, Elements(candidates)) && x in candidates
    ensures x in top <==> |Ahead(candidates, x)| < |top|
  {
    var ahead := Ahead(candidates, x);
    if x in top {
      forall y | y in ahead ensures y in top - {x} {
        assert y in Elements(candidates);
      }
      SubsetSize(ahead, top - {x});
    } else {
      forall y | y in top ensures y in ahead {
        assert Before(y, x);
      }
      SubsetSize(top, ahead);
    }
  }

  /** Exactly which candidates a poll for `max` takes. All but a quarter of its places, and one less on every fourth poll, go
      by priority: a candidate that fewer others go before is taken. The rest go to the earliest of the others. */
  lemma SelectedIff(candidates: seq<Item>, max: nat, pollCount: nat, x: Item)
    requires ByOffset(candidates) && x in candidates
    ensures var reserved := Min(max / 4 + (if (pollCount + 1) % 4 == 0 then 1 else 0), max);
            x in ReferenceSelection(candidates, max, pollCount) <==>
            || |Ahead(candidates, x)| < max - reserved
            || |EarlierBehind(candidates, x, max - reserved)| < reserved
  {
    if max > 0 {
      var all := Elements(candidates);
      var slots := PrioritySlots(max, pollCount);
      var top := BestListing(candidates, slots);
      SelectionFrom(candidates, max, pollCount, top);
      ByOffsetKeyed(candidates);
      DistinctSize(candidates);
      DistinctSize(top);
      var filled := Fill(top, candidates, max);
      FillFacts(top, candidates, max, all);
      SortItemsSorted(filled);
      var r := ReferenceSelection(candidates, max, pollCount);
      assert x in r <==> x in Elements(filled);
      BestIff(Elements(top), candidates, x);
      SubsetSize(Ahead(candidates, x), all - {x});
      if x !in top {
        assert |top| == slots;
        FilledIff(top, candidates, max, x, all);
      }
    }
  }

  /** What is not among the best is taken exactly if the places left reach it. */
  lemma FilledIff(top: seq<Item>, candidates: seq<Item>, max: nat, x: Item, all: set<Item>)
    requires ByOffset(candidates) && all == Elements(candidates) && Keyed(all)
    requires Distinct(top) && IsBest(Elements(top), all) && |top| <= max && x in candidates && x !in top
    ensures x in Fill(top, candidates, max) <==> |EarlierBehind(candidates, x, |top|)| < max - |top|
  {
    hide ByOffset, Keyed, IsBest, Ahead;
    DistinctSize(top);
    var earlier := EarlierBehind(candidates, x, |top|);
    forall y | y in candidates ensures y in earlier <==> y.offset < x.offset && y !in top {
      BestIff(Elements(top), candidates, y);
    }
    BestWithin(Elements(top), all);
    if x in Fill(top, candidates, max) {
      TakenReaches(top, candidates, max, x, all, earlier);
    } else {
      LeftIsBehind(top, candidates, max, x, all, earlier);
    }
  }

  lemma BestWithin(top: set<Item>, all: set<Item>)
    requires IsBest(top, all)
    ensures top <= all
  {
  }

  lemma TakenReaches(top: seq<Item>, candidates: seq<Item>, max: nat, x: Item, all: set<Item>, earlier: set<Item>)
    requires ByOffset(candidates) && all == Elements(candidates) && Keyed(all) && Elements(top) <= all
    requires Distinct(top) && |top| <= max && x in candidates && x !in top && x in Fill(top, candidates, max)
    requires forall y | y in earlier :: y in candidates && y.offset < x.offset && y !in top
    ensures |earlier| < max - |top|
  {
    hide ByOffset, Keyed, Fill;
    var filled := Fill(top, candidates, max);
    FillFacts(top, candidates, max, all);
    forall y | y in earlier ensures y in Elements(filled) - Elements(top) {
      if y !in filled {
        FillPassesInOrder(top, candidates, max, y, x, all);
      }
    }
    AddedSize(filled, top);
    SubsetSize(earlier + {x}, Elements(filled) - Elements(top));
  }

  lemma LeftIsBehind(top: seq<Item>, candidates: seq<Item>, max: nat, x: Item, all: set<Item>, earlier: set<Item>)
    requires ByOffset(candidates) && all == Elements(candidates) && Keyed(all) && Elements(top) <= all
    requires Distinct(top) && |top| <= max && x in candidates && x !in Fill(top, candidates, max)
    requires forall y | y in candidates && y.offset < x.offset && y !in top :: y in earlier
    ensures max - |top| <= |earlier|
  {
    hide ByOffset, Keyed, Fill;
    var filled := Fill(top, candidates, max);
    FillFacts(top, candidates, max, all);
    forall y | y in Elements(filled) - Elements(top) ensures y in earlier {
      FillPassesInOrder(top, candidates, max, x, y, all);
      assert y in all;
    }
    AddedSize(filled, top);
    assert x in Elements(candidates) && x !in Elements(filled);
    SubsetSize(Elements(filled) - Elements(top), earlier);
  }

  lemma AddedSize(filled: seq<Item>, top: seq<Item>)
    requires Distinct(filled) && Distinct(top) && top <= filled
    ensures |Elements(filled) - Elements(top)| == |filled| - |top|
  {
    DistinctSize(filled);
    DistinctSize(top);
    assert Elements(top) <= Elements(filled);
  }

  /** A poll passes over a candidate that enough others go before for all places by priority, if enough with lower offsets
      go after it for all reserved places; and of those it takes no more than there are reserved places. */
  lemma CrowdPassesOver(candidates: seq<Item>, max: nat, pollCount: nat, x: Item, ahead: set<Item>, behind: set<Item>)
    requires ByOffset(candidates) && x in candidates
    requires ahead <= Elements(candidates) && PrioritySlots(max, pollCount) <= |ahead| && forall y | y in ahead :: Before(y, x)
    requires behind <= Elements(candidates) && max - PrioritySlots(max, pollCount) <= |behind|
    requires forall y | y in behind :: Before(x, y) && y.offset < x.offset
    ensures x !in ReferenceSelection(candidates, max, pollCount)
    ensures |Elements(ReferenceSelection(candidates, max, pollCount)) * behind| <= max - PrioritySlots(max, pollCount)
  {
    hide ReferenceSelection, ByOffset, Keyed, PrioritySlots;
    var slots := PrioritySlots(max, pollCount);
    SlotsAre(max, pollCount);
    forall y | y in behind || y == x ensures slots <= |Ahead(candidates, y)| {
      forall z | z in ahead ensures z in Ahead(candidates, y) {
        assert z in Elements(candidates);
      }
      SubsetSize(ahead, Ahead(candidates, y));
    }
    forall y | y in behind ensures y in EarlierBehind(candidates, x, slots) {
      assert y in Elements(candidates);
    }
    SubsetSize(behind, EarlierBehind(candidates, x, slots));
    SelectedIff(candidates, max, pollCount, x);
    CrowdGivesFew(candidates, max, pollCount, behind);
  }

  lemma SlotsAre(max: nat, pollCount: nat)
    ensures PrioritySlots(max, pollCount) == max - Min(max / 4 + (if (pollCount + 1) % 4 == 0 then 1 else 0), max)
  {
  }

  /** A poll takes no more candidates that are not among the best than it has reserved places. */
  lemma CrowdGivesFew(candidates: seq<Item>, max: nat, pollCount: nat, behind: set<Item>)
    requires ByOffset(candidates) && behind <= Elements(candidates)
    requires forall y | y in behind :: PrioritySlots(max, pollCount) <= |Ahead(candidates, y)|
    ensures |Elements(ReferenceSelection(candidates, max, pollCount)) * behind| <= max - PrioritySlots(max, pollCount)
  {
    hide ReferenceSelection, Ahead, PrioritySlots, Fill;
    if max == 0 {
      SelectionFacts(candidates, max, pollCount);
      assert Elements(ReferenceSelection(candidates, max, pollCount)) * behind == {};
    } else {
      var top := BestListing(candidates, PrioritySlots(max, pollCount));
      SelectionFrom(candidates, max, pollCount, top);
      ByOffsetKeyed(candidates);
      DistinctSize(top);
      var filled := Fill(top, candidates, max);
      FillFacts(top, candidates, max, Elements(candidates));
      SortItemsSorted(filled);
      forall y | y in behind ensures y !in Elements(top) {
        assert y in candidates;
        BestIff(Elements(top), candidates, y);
      }
      FillTakesFew(filled, top, behind);
      BehindMeansFull(candidates, top, behind, PrioritySlots(max, pollCount));
    }
  }

  /** If anything is not among the best, the best are as many as there may be. */
  lemma BehindMeansFull(candidates: seq<Item>, top: seq<Item>, behind: set<Item>, slots: nat)
    requires ByOffset(candidates) && behind <= Elements(candidates) && behind !! Elements(top)
    requires Distinct(top) && Elements(top) <= Elements(candidates) && |top| == Min(slots, |candidates|)
    ensures behind == {} || |top| == slots
  {
    ByOffsetKeyed(candidates);
    DistinctSize(candidates);
    DistinctSize(top);
    if behind != {} && |top| == |candidates| {
      SubsetSize(Elements(top), Elements(candidates));
    }
  }

  lemma FillTakesFew(filled: seq<Item>, top: seq<Item>, behind: set<Item>)
    requires Distinct(filled) && top <= filled && Distinct(top) && Elements(top) !! behind
    ensures |Elements(filled) * behind| <= |filled| - |top|
  {
    AddedSize(filled, top);
    SubsetSize(Elements(filled) * behind, Elements(filled) - Elements(top));
  }

  /** What `Fill` adds while leaving `x` out comes before `x` in the source. */
  lemma {:induction false} FillPassesInOrder(chosen: seq<Item>, source: seq<Item>, limit: nat, x: Item, y: Item, all: set<Item>)
    requires Keyed(all) && Elements(chosen) <= all && Elements(source) <= all && Distinct(chosen)
    requires ByOffset(source) && x in source && x !in Fill(chosen, source, limit)
    requires y in Fill(chosen, source, limit) && y !in chosen
    ensures y.offset < x.offset
    decreases |source|
  {
    hide Keyed;
    if source != [] && |chosen| < limit {
      var h, tail := source[0], source[1..];
      assert source == [h] + tail;
      assert h in Elements(source);
      assert Elements(tail) <= Elements(source);
      OffsetNamesItem(chosen, h, all);
      if HasOffset(chosen, h.offset) {
        FillFacts(chosen, tail, limit, all);
        assert h in Fill(chosen, tail, limit);
        FillPassesInOrder(chosen, tail, limit, x, y, all);
      } else {
        assert Elements(chosen + [h]) == Elements(chosen) + {h};
        FillFacts(chosen + [h], tail, limit, all);
        assert h in chosen + [h];
        assert h in Fill(chosen + [h], tail, limit);
        if y != h {
          FillPassesInOrder(chosen + [h], tail, limit, x, y, all);
        }
      }
    }
  }

  // ---------------------------------------------------------------- the one-pass form

  ghost predicate IsWorst(w: Item, s: set<Item>) {
    w in s && forall x | x in s && x != w :: Before(x, w)
  }

  lemma {:induction false} WorstExists(s: set<Item>)
    requires s != {} && Keyed(s)
    ensures exists w :: IsWorst(w, s)
    decreases |s|
  {
    var y :| y in s;
    var rest := s - {y};
    assert s == rest + {y};
    if rest == {} {
      assert IsWorst(y, s);
    } else {
      WorstExists(rest);
      var w :| IsWorst(w, rest);
      if Before(y, w) {
        assert IsWorst(w, s);
      } else {
        assert Before(w, y);
        assert IsWorst(y, s);
      }
    }
  }

  /** `BinaryHeap::pop` on the reversed order: the item that goes last leaves the heap. */
  method PopWorst(heap: set<Item>) returns (rest: set<Item>)
    requires heap != {} && Keyed(heap)
    ensures exists w :: IsWorst(w, heap) && rest == heap - {w}
  {
    var candidates := heap;
    var w :| w in heap;
    candidates := heap - {w};
    while candidates != {}
      invariant candidates <= heap && w in heap && w !in candidates
      invariant forall x | x in heap && x !in candidates && x != w :: Before(x, w)
      decreases |candidates|
    {
      var c :| c in candidates;
      assert c in heap && c.offset != w.offset;
      if Before(w, c) { w := c; }
      candidates := candidates - {c};
    }
    rest := heap - {w};
    assert IsWorst(w, heap);
  }

  /** Pushing one more candidate into a best part and popping the worst keeps a best part. */
  lemma BestStep(top: set<Item>, seen: set<Item>, x: Item, w: Item)
    requires IsBest(top, seen) && x !in seen && Keyed(seen + {x})
    requires IsWorst(w, top + {x})
    ensures IsBest(top + {x} - {w}, seen + {x})
  {
    forall a, b | a in top + {x} - {w} && b in seen + {x} && b !in top + {x} - {w} ensures Before(a, b) {
      if b != w && a == x {
        assert top != {};
        assert w in top;
        assert Before(w, b) && Before(x, w);
      }
    }
  }

  /** The queue's selection: scan, drain the heap, top up from the earliest, sort. */
  method Select(candidates: seq<Item>, max: nat, pollCount: nat) returns (selected: seq<Item>)
    requires ByOffset(candidates) && max > 0
    ensures selected == ReferenceSelection(candidates, max, pollCount)
  {
    var earliest, top := Scan(candidates, max, PrioritySlots(max, pollCount));
    ByOffsetKeyed(candidates);
    var chosen := DrainHeap(top);
    DistinctSize(chosen);
    SelectionFrom(candidates, max, pollCount, chosen);
    FillFromPrefix(chosen, candidates, max, Elements(candidates));
    chosen := TopUp(chosen, earliest, max);
    selected := SortItems(chosen);
  }

  /** One pass over the candidates; the heap holds at most `slots` items at rest. */
  method Scan(candidates: seq<Item>, max: nat, slots: nat) returns (earliest: seq<Item>, top: set<Item>)
    requires ByOffset(candidates)
    ensures earliest == candidates[..Min(max, |candidates|)]
    ensures IsBest(top, Elements(candidates)) && |top| == Min(slots, |candidates|)
  {
    earliest, top := [], {};
    var i := 0;
    while i < |candidates|
      invariant 0 <= i <= |candidates|
      invariant earliest <= candidates && |earliest| == Min(i, max)
      invariant IsBest(top, Elements(candidates[..i])) && |top| == Min(slots, i)
    {
      if |earliest| < max {
        earliest := earliest + [candidates[i]];
      } else if slots == 0 {
        EmptyIsBest(top, Elements(candidates));
        return;
      }
      if slots > 0 {
        top := PushCandidate(top, candidates, i, slots);
      } else {
        EmptyIsBest(top, Elements(candidates[..i + 1]));
      }
      i := i + 1;
    }
    assert candidates[..|candidates|] == candidates;
  }

  method PushCandidate(top: set<Item>, candidates: seq<Item>, i: nat, slots: nat) returns (next: set<Item>)
    requires ByOffset(candidates) && i < |candidates| && slots > 0
    requires IsBest(top, Elements(candidates[..i])) && |top| == Min(slots, i)
    ensures IsBest(next, Elements(candidates[..i + 1])) && |next| == Min(slots, i + 1)
  {
    SeenGrows(candidates, i);
    next := PushBounded(top, candidates[i], slots, Elements(candidates[..i]));
  }

  lemma EmptyIsBest(top: set<Item>, all: set<Item>)
    requires |top| == 0
    ensures IsBest(top, all)
  {
  }

  /** The reserved slots: earliest candidates not chosen yet. */
  method TopUp(top: seq<Item>, earliest: seq<Item>, max: nat) returns (chosen: seq<Item>)
    ensures chosen == Fill(top, earliest, max)
  {
    chosen := top;
    var i := 0;
    while i < |earliest| && |chosen| < max
      invariant 0 <= i <= |earliest|
      invariant Fill(chosen, earliest[i..], max) == Fill(top, earliest, max)
    {
      assert earliest[i..][1..] == earliest[i + 1..];
      if !HasOffset(chosen, earliest[i].offset) {
        chosen := chosen + [earliest[i]];
      }
      i := i + 1;
    }
  }

  /** Push, then pop if the heap went over its bound. */
  method PushBounded(top: set<Item>, x: Item, slots: nat, ghost seen: set<Item>) returns (next: set<Item>)
    requires slots > 0 && x !in seen && Keyed(seen + {x})
    requires IsBest(top, seen) && |top| == Min(slots, |seen|)
    ensures IsBest(next, seen + {x}) && |next| == Min(slots, |seen| + 1)
  {
    SubsetSize(top, seen);
    next := top + {x};
    if |next| > slots {
      KeyedSubset(next, seen + {x});
      next := PopWorst(next);
      ghost var w :| IsWorst(w, top + {x}) && next == top + {x} - {w};
      BestStep(top, seen, x, w);
    }
  }

  lemma SeenGrows(candidates: seq<Item>, i: nat)
    requires ByOffset(candidates) && i < |candidates|
    ensures candidates[i] !in Elements(candidates[..i])
    ensures Elements(candidates[..i + 1]) == Elements(candidates[..i]) + {candidates[i]}
    ensures Keyed(Elements(candidates[..i]) + {candidates[i]})
    ensures |Elements(candidates[..i])| == i
  {
    ByOffsetKeyed(candidates);
    DistinctSize(candidates[..i]);
    assert candidates[..i + 1] == candidates[..i] + [candidates[i]];
    KeyedSubset(Elements(candidates[..i]) + {candidates[i]}, Elements(candidates));
  }

  /** The heap's items in no particular order, keeping one item per offset. */
  method DrainHeap(top: set<Item>) returns (chosen: seq<Item>)
    requires Keyed(top)
    ensures Distinct(chosen) && Elements(chosen) == top
  {
    chosen := [];
    var rest := top;
    while rest != {}
      invariant rest <= top && Elements(chosen) == top - rest && Distinct(chosen)
      decreases |rest|
    {
      var x :| x in rest;
      OffsetNamesItem(chosen, x, top);
      assert x !in Elements(chosen);
      if !HasOffset(chosen, x.offset) {
        assert Elements(chosen + [x]) == Elements(chosen) + {x};
        chosen := chosen + [x];
      }
      rest := rest - {x};
    }
  }
}
