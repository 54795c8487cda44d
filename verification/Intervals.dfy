/** The interval arithmetic of the audit: the contiguous prefix of a set of ranges, and the
    check that ranges tile a prefix. */
module Intervals {
  import opened Types

  datatype Interval = Interval(from: nat, through: nat) {
    predicate Has(n: nat) { from <= n <= through }
  }

  predicate Covers(ranges: seq<Interval>, n: nat) { exists r <- ranges :: r.Has(n) }

  predicate CoversPrefix(ranges: seq<Interval>, high: nat) {
    forall n: nat :: 1 <= n <= high ==> Covers(ranges, n)
  }

  predicate Sorted(ranges: seq<Interval>) {
    forall i, j :: 0 <= i < j < |ranges| ==> ranges[i].from <= ranges[j].from
  }

  method Insert(sorted: seq<Interval>, r: Interval) returns (s: seq<Interval>)
    requires Sorted(sorted)
    ensures Sorted(s) && multiset(s) == multiset(sorted) + multiset{r}
  {
    var k := |sorted|;
    while k > 0 && sorted[k - 1].from > r.from
      invariant 0 <= k <= |sorted|
      invariant forall j :: k <= j < |sorted| ==> sorted[j].from > r.from
    {
      k := k - 1;
    }
    s := sorted[..k] + [r] + sorted[k..];
    InsertedSorted(sorted, r, k);
    InsertedMembers(sorted, r, k);
  }

  lemma InsertedMembers(sorted: seq<Interval>, r: Interval, k: nat)
    requires k <= |sorted|
    ensures multiset(sorted[..k] + [r] + sorted[k..]) == multiset(sorted) + multiset{r}
  {
    assert sorted == sorted[..k] + sorted[k..];
  }

  lemma InsertedSorted(sorted: seq<Interval>, r: Interval, k: nat)
    requires Sorted(sorted) && k <= |sorted|
    requires k > 0 ==> sorted[k - 1].from <= r.from
    requires forall j :: k <= j < |sorted| ==> sorted[j].from > r.from
    ensures Sorted(sorted[..k] + [r] + sorted[k..])
  {
    var s := sorted[..k] + [r] + sorted[k..];
    forall i, j | 0 <= i < j < |s| ensures s[i].from <= s[j].from {
      var x := if i < k then sorted[i] else if i == k then r else sorted[i - 1];
      var y := if j < k then sorted[j] else if j == k then r else sorted[j - 1];
      assert s[i] == x && s[j] == y;
      if i < k && i != k - 1 { assert sorted[i].from <= sorted[k - 1].from; }
    }
  }

  /** `sort.Slice` by lower bound. */
  method SortByFrom(ranges: seq<Interval>) returns (sorted: seq<Interval>)
    ensures Sorted(sorted) && multiset(sorted) == multiset(ranges)
  {
    sorted := [];
    for i := 0 to |ranges|
      invariant Sorted(sorted) && multiset(sorted) == multiset(ranges[..i])
    {
      assert ranges[..i + 1] == ranges[..i] + [ranges[i]];
      sorted := Insert(sorted, ranges[i]);
    }
    assert ranges[..|ranges|] == ranges;
  }

  lemma SameMembers(a: seq<Interval>, b: seq<Interval>)
    requires multiset(a) == multiset(b)
    ensures forall r :: r in a <==> r in b
    ensures forall n: nat :: Covers(a, n) <==> Covers(b, n)
  {
    forall r ensures r in a <==> r in b {
      assert r in a <==> r in multiset(a);
      assert r in b <==> r in multiset(b);
    }
  }

  /** The audit's sort-and-merge loop finds the largest n such that 1..n lies in the union of
      the ranges. */
  method ContiguousPrefix(ranges: seq<Interval>) returns (covered: nat)
    ensures forall high: nat :: CoversPrefix(ranges, high) <==> high <= covered
  {
    var sorted := SortByFrom(ranges);
    SameMembers(ranges, sorted);
    covered := 0;
    var i := 0;
    while i < |sorted| && sorted[i].from <= covered + 1
      invariant 0 <= i <= |sorted| && CoversPrefix(sorted, covered)
      invariant forall j :: 0 <= j < i ==> sorted[j].through <= covered
    {
      if sorted[i].through > covered {
        forall n: nat | 1 <= n <= sorted[i].through ensures Covers(sorted, n) {
          assert n > covered ==> sorted[i] in sorted && sorted[i].Has(n);
        }
        covered := sorted[i].through;
      }
      i := i + 1;
    }
    assert !Covers(sorted, covered + 1);
    forall high: nat ensures CoversPrefix(ranges, high) <==> high <= covered {
      assert Covers(ranges, covered + 1) <==> Covers(sorted, covered + 1);
    }
  }

  // ---- tilings -----------------------------------------------------------------------------------

  predicate Disjoint(ranges: seq<Interval>) {
    && (forall r <- ranges :: multiset(ranges)[r] == 1)
    && (forall a <- ranges, b <- ranges :: a != b ==> a.through < b.from || b.through < a.from)
  }

  /** The ranges partition 1..high. */
  ghost predicate Tiles(ranges: seq<Interval>, high: nat) {
    Disjoint(ranges) && forall n: nat :: Covers(ranges, n) <==> 1 <= n <= high
  }

  lemma SameTiles(a: seq<Interval>, b: seq<Interval>, high: nat)
    requires multiset(a) == multiset(b)
    ensures Tiles(a, high) <==> Tiles(b, high)
  {
    SameMembers(a, b);
  }

  lemma TwiceCounted(s: seq<Interval>, i: nat, j: nat)
    requires i < j < |s| && s[i] == s[j]
    ensures multiset(s)[s[i]] >= 2
  {
    assert s == s[..j] + s[j..];
    assert s[i] in s[..j] && s[j] in s[j..];
  }

  predicate Proper(ranges: seq<Interval>) { forall r <- ranges :: 1 <= r.from <= r.through }

  function EndOf(sorted: seq<Interval>): nat {
    if sorted == [] then 0 else sorted[|sorted| - 1].through
  }

  predicate Consecutive(sorted: seq<Interval>) {
    forall i :: 0 <= i < |sorted| ==> sorted[i].from == EndOf(sorted[..i]) + 1
  }

  lemma CoversSnoc(rest: seq<Interval>, last: Interval)
    ensures forall n: nat :: Covers(rest + [last], n) <==> Covers(rest, n) || last.Has(n)
  {
    var s := rest + [last];
    assert forall r :: r in s <==> r in rest || r == last;
  }

  lemma {:induction false} ConsecutiveCovers(sorted: seq<Interval>)
    requires Consecutive(sorted) && Proper(sorted)
    ensures forall n: nat :: Covers(sorted, n) <==> 1 <= n <= EndOf(sorted)
  {
    if sorted != [] {
      var k := |sorted| - 1;
      var rest, last := sorted[..k], sorted[k];
      ConsecutivePrefix(sorted, k);
      ConsecutiveCovers(rest);
      assert sorted == rest + [last];
      assert last.from == EndOf(rest) + 1 && last in sorted;
      CoversSnoc(rest, last);
    }
  }

  lemma ConsecutivePrefix(sorted: seq<Interval>, k: nat)
    requires Consecutive(sorted) && Proper(sorted) && k <= |sorted|
    ensures Consecutive(sorted[..k]) && Proper(sorted[..k])
  {
    forall i | 0 <= i < k ensures sorted[..k][i].from == EndOf(sorted[..k][..i]) + 1 {
      assert sorted[..k][..i] == sorted[..i];
    }
  }

  lemma ConsecutiveDisjoint(sorted: seq<Interval>, i: nat, j: nat)
    requires Consecutive(sorted) && Proper(sorted) && i < j < |sorted|
    ensures sorted[i].through < sorted[j].from
  {
    ConsecutivePrefix(sorted, j);
    ConsecutiveCovers(sorted[..j]);
    var q := sorted[..j][i];
    assert q in sorted[..j] && q.Has(q.through);
    assert Covers(sorted[..j], q.through);
  }

  lemma ConsecutiveTiles(sorted: seq<Interval>)
    requires Consecutive(sorted) && Proper(sorted)
    ensures Tiles(sorted, EndOf(sorted))
  {
    ConsecutiveCovers(sorted);
    forall i, j | 0 <= i < j < |sorted| ensures sorted[i].through < sorted[j].from {
      ConsecutiveDisjoint(sorted, i, j);
    }
    assert forall r <- sorted :: r.from <= r.through;
    DistinctCounted(sorted);
  }

  lemma {:induction false} DistinctCounted(s: seq<Interval>)
    requires forall i, j :: 0 <= i < j < |s| ==> s[i] != s[j]
    ensures forall r <- s :: multiset(s)[r] == 1
  {
    if s != [] {
      var rest := s[..|s| - 1];
      DistinctCounted(rest);
      assert s == rest + [s[|s| - 1]];
      assert s[|s| - 1] !in rest;
    }
  }

  lemma NoOverlap(sorted: seq<Interval>, high: nat, k: nat)
    requires k < |sorted| && Proper(sorted) && Tiles(sorted, high)
    requires forall n: nat :: Covers(sorted[..k], n) <==> 1 <= n <= EndOf(sorted[..k])
    ensures sorted[k].from > EndOf(sorted[..k])
  {
    var rest, r := sorted[..k], sorted[k];
    assert r in sorted;
    if r.from <= EndOf(rest) {
      assert Covers(rest, r.from);
      var i :| 0 <= i < k && sorted[i].Has(r.from);
      assert sorted[i] in sorted;
      if sorted[i] == r { TwiceCounted(sorted, i, k); }
      assert false;
    }
  }

  lemma HolderBefore(sorted: seq<Interval>, k: nat, j: nat, d: nat)
    requires j < |sorted| && k < |sorted| && Sorted(sorted) && sorted[j].Has(d) && !Covers(sorted[..k], d)
    ensures sorted[k].from <= d
  {
    assert forall i :: 0 <= i < k ==> sorted[..k][i] == sorted[i] && sorted[i] in sorted[..k];
    assert k <= j;
  }

  lemma NoHole(sorted: seq<Interval>, high: nat, k: nat)
    requires k < |sorted| && Sorted(sorted) && Proper(sorted) && Tiles(sorted, high)
    requires forall n: nat :: Covers(sorted[..k], n) <==> 1 <= n <= EndOf(sorted[..k])
    ensures sorted[k].from <= EndOf(sorted[..k]) + 1
  {
    var r, d := sorted[k], EndOf(sorted[..k]) + 1;
    assert r in sorted && r.Has(r.through);
    assert Covers(sorted, r.through);
    if r.from > d {
      assert Covers(sorted, d) && !Covers(sorted[..k], d);
      var j :| 0 <= j < |sorted| && sorted[j].Has(d);
      HolderBefore(sorted, k, j, d);
    }
  }

  /** In a sorted tiling whose first k ranges are consecutive, so is the next one. */
  lemma NextIsConsecutive(sorted: seq<Interval>, high: nat, k: nat)
    requires k < |sorted| && Sorted(sorted) && Proper(sorted) && Tiles(sorted, high)
    requires Consecutive(sorted[..k])
    ensures sorted[k].from == EndOf(sorted[..k]) + 1
  {
    assert Proper(sorted[..k]);
    ConsecutiveCovers(sorted[..k]);
    NoOverlap(sorted, high, k);
    NoHole(sorted, high, k);
  }

  lemma ConsecutiveSnoc(sorted: seq<Interval>, k: nat)
    requires k < |sorted| && Consecutive(sorted[..k]) && sorted[k].from == EndOf(sorted[..k]) + 1
    ensures Consecutive(sorted[..k + 1])
  {
    var longer := sorted[..k + 1];
    forall i | 0 <= i < |longer| ensures longer[i].from == EndOf(longer[..i]) + 1 {
      assert longer[..i] == sorted[..i];
      if i < k { assert sorted[..k][..i] == sorted[..i]; }
    }
  }

  lemma OneTiling(ranges: seq<Interval>, a: nat, b: nat)
    requires Tiles(ranges, a) && Tiles(ranges, b)
    ensures a == b
  {
    assert Covers(ranges, a) <==> 1 <= a <= b;
    assert Covers(ranges, b) <==> 1 <= b <= a;
  }

  /** The audit's decision-floor loop accepts exactly the tilings, and returns their end. */
  method TiledThrough(ranges: seq<Interval>) returns (end: Option<nat>)
    requires Proper(ranges)
    ensures forall high: nat :: Tiles(ranges, high) <==> end == Some(high)
  {
    var sorted := SortByFrom(ranges);
    SameMembers(ranges, sorted);
    var decision := 0;
    for i := 0 to |sorted|
      invariant Consecutive(sorted[..i]) && decision == EndOf(sorted[..i])
    {
      if sorted[i].from != decision + 1 {
        forall high: nat ensures !Tiles(ranges, high) {
          SameTiles(ranges, sorted, high);
          if Tiles(sorted, high) { NextIsConsecutive(sorted, high, i); }
        }
        return None;
      }
      ConsecutiveSnoc(sorted, i);
      decision := sorted[i].through;
    }
    assert sorted[..|sorted|] == sorted;
    ConsecutiveTiles(sorted);
    forall high: nat ensures Tiles(ranges, high) <==> high == decision {
      SameTiles(ranges, sorted, high);
      SameTiles(ranges, sorted, decision);
      if Tiles(ranges, high) { OneTiling(ranges, high, decision); }
    }
    end := Some(decision);
  }
}
