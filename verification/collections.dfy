/** Small facts about finite sets, sequences and 64-bit counters used by every other module. */
module Collections {

  datatype Option<+T> = None | Some(value: T)

  const U64_MAX: nat := 0xFFFF_FFFF_FFFF_FFFF

  type u64 = n: nat | n <= U64_MAX
  type u32 = n: nat | n <= 0xFFFF_FFFF

  /** `u64::saturating_add`. */
  function SatAdd(a: nat, b: nat): nat {
    if a + b <= U64_MAX then a + b else U64_MAX
  }

  /** `u64::saturating_sub`. */
  function SatSub(a: nat, b: nat): nat {
    if a >= b then a - b else 0
  }

  function Min(a: nat, b: nat): nat { if a <= b then a else b }

  function Max(a: nat, b: nat): nat { if a >= b then a else b }

  predicate IsMin(m: nat, s: set<nat>) {
    m in s && forall x | x in s :: m <= x
  }

  lemma {:induction false} SetHasMin(s: set<nat>)
    requires s != {}
    ensures exists m :: IsMin(m, s)
    decreases |s|
  {
    var y :| y in s;
    var rest := s - {y};
    assert s == rest + {y};
    if rest == {} {
      assert IsMin(y, s);
    } else {
      SetHasMin(rest);
      var m :| IsMin(m, rest);
      assert IsMin(Min(m, y), s);
    }
  }

  /** The first key of an ordered collection. */
  function MinOf(s: set<nat>): (m: nat)
    requires s != {}
    ensures IsMin(m, s)
  {
    SetHasMin(s);
    var m :| IsMin(m, s);
    m
  }

  predicate Increasing(s: seq<nat>) {
    forall i, j :: 0 <= i < j < |s| ==> s[i] < s[j]
  }

  /** The order in which an ordered map or set is iterated. */
  function SortedKeys(s: set<nat>): (r: seq<nat>)
    ensures |r| == |s|
    ensures forall x :: x in r <==> x in s
    ensures Increasing(r)
    decreases |s|
  {
    if s == {} then [] else
      var m := MinOf(s);
      var rest := SortedKeys(s - {m});
      LeastFirst(s, m, rest);
      [m] + rest
  }

  lemma LeastFirst(s: set<nat>, m: nat, rest: seq<nat>)
    requires IsMin(m, s)
    requires Increasing(rest)
    requires forall x :: x in rest <==> x in s - {m}
    ensures Increasing([m] + rest)
    ensures forall x :: x in [m] + rest <==> x in s
  {
    forall j | 0 <= j < |rest| ensures m < rest[j] {
      assert rest[j] in rest;
    }
  }

  function Range(lo: nat, hi: nat): (r: set<nat>)
    requires lo <= hi
    ensures forall o :: o in r <==> lo <= o < hi
    ensures |r| == hi - lo
    decreases hi - lo
  {
    if lo == hi then {} else {lo} + Range(lo + 1, hi)
  }

  /** An ordered collection whose keys are an interval is iterated in steps of one. */
  lemma {:induction false} IncreasingInterval(r: seq<nat>, lo: nat, hi: nat)
    requires lo <= hi && Increasing(r)
    requires forall x :: x in r <==> lo <= x < hi
    ensures |r| == hi - lo
    ensures forall i :: 0 <= i < |r| ==> r[i] == lo + i
  {
    if r == [] {
      assert lo !in r;
    } else {
      var tail := r[1..];
      assert lo <= r[0] < hi by { assert r[0] in r; }
      assert r[0] == lo by { assert lo in r; }
      assert r == [lo] + tail;
      forall x: nat ensures x in tail <==> lo + 1 <= x < hi {
        if x in tail {
          var j :| 0 <= j < |tail| && tail[j] == x;
          assert r[0] < r[j + 1];
          assert x in r;
        }
        if lo + 1 <= x < hi {
          assert x in r;
        }
      }
      IncreasingInterval(tail, lo + 1, hi);
    }
  }

  lemma SubsetSize<T>(a: set<T>, b: set<T>)
    requires a <= b
    ensures |a| <= |b|
    ensures |a| == |b| ==> a == b
  {
    assert b == a + (b - a);
    assert |b| == |a| + |b - a|;
  }

  function Elements<T>(s: seq<T>): set<T> { set x | x in s }

  predicate Distinct<T(==)>(s: seq<T>) {
    forall i, j :: 0 <= i < j < |s| ==> s[i] != s[j]
  }

  lemma {:induction false} DistinctSize<T>(s: seq<T>)
    requires Distinct(s)
    ensures |Elements(s)| == |s|
  {
    if s == [] {
      assert Elements(s) == {};
    } else {
      DistinctSize(s[1..]);
      assert s == [s[0]] + s[1..];
      assert Elements(s) == {s[0]} + Elements(s[1..]);
      assert s[0] !in s[1..];
    }
  }
}
