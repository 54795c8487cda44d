/** Packing a capture: the snapshot is cut into parts, the export lines are packed greedily,
    and an estimate made before either must bound the number of parts. */
module Packing {
  import opened Types
  import opened Archive

  const LINE_LIMIT: nat := 2 * MIB
  const LINE_OVERHEAD: nat := 256
  const RECEIPT_ALLOWANCE: nat := 512

  function Sum(xs: seq<nat>): nat {
    if xs == [] then 0 else Sum(xs[..|xs| - 1]) + xs[|xs| - 1]
  }

  function Join(groups: seq<seq<nat>>): seq<nat> {
    if groups == [] then [] else Join(groups[..|groups| - 1]) + groups[|groups| - 1]
  }

  function Sums(groups: seq<seq<nat>>): (sizes: seq<nat>)
    ensures |sizes| == |groups| && forall i :: 0 <= i < |groups| ==> sizes[i] == Sum(groups[i])
  {
    seq(|groups|, i requires 0 <= i < |groups| => Sum(groups[i]))
  }

  lemma {:induction false} SumAppend(a: seq<nat>, b: seq<nat>)
    ensures Sum(a + b) == Sum(a) + Sum(b)
    decreases |b|
  {
    if b == [] {
      assert a + b == a;
    } else {
      assert (a + b)[..|a + b| - 1] == a + b[..|b| - 1];
      SumAppend(a, b[..|b| - 1]);
    }
  }

  lemma SumSnoc(xs: seq<nat>, x: nat)
    ensures Sum(xs + [x]) == Sum(xs) + x
  {
    assert (xs + [x])[..|xs|] == xs;
  }

  lemma JoinSnoc(groups: seq<seq<nat>>, g: seq<nat>)
    ensures Join(groups + [g]) == Join(groups) + g
  {
    assert (groups + [g])[..|groups|] == groups;
  }

  // ---- cutting the snapshot -----------------------------------------------------------------------

  function Chunks(n: nat, size: nat): seq<nat>
    requires size > 0
  {
    if n == 0 then [] else if n <= size then [n] else [size] + Chunks(n - size, size)
  }

  function CeilDiv(a: nat, b: nat): nat requires b > 0 { (a + b - 1) / b }

  lemma MulMonotone(x: int, y: int, b: nat)
    requires x <= y
    ensures x * b <= y * b
  {
    assert y * b == x * b + (y - x) * b;
  }

  lemma DivIs(a: nat, b: nat, q: nat)
    requires b > 0 && q * b <= a < q * b + b
    ensures a / b == q
  {
    var d := a / b;
    assert a == d * b + a % b;
    if d < q { MulMonotone(d + 1, q, b); }
    if d > q { MulMonotone(q + 1, d, b); }
  }

  /** The ceiling is the least number of pieces of size b that hold a. */
  lemma CeilMeans(a: nat, b: nat, q: nat)
    requires b > 0 && a <= q * b && (q > 0 ==> (q - 1) * b < a)
    ensures CeilDiv(a, b) == q
  {
    assert q > 0 ==> (q - 1) * b == q * b - b;
    DivIs(a + b - 1, b, q);
  }

  lemma CeilHolds(a: nat, b: nat)
    requires b > 0
    ensures a <= CeilDiv(a, b) * b
  {
    var t := a + b - 1;
    assert t == (t / b) * b + t % b;
  }

  lemma {:induction false} ChunksCut(n: nat, size: nat)
    requires size > 0
    ensures Sum(Chunks(n, size)) == n && |Chunks(n, size)| == CeilDiv(n, size)
    ensures forall c <- Chunks(n, size) :: 1 <= c <= size
  {
    ChunksHold(n, size);
    CeilMeans(n, size, |Chunks(n, size)|);
  }

  lemma OneMoreChunk(q: nat, n: nat, size: nat)
    requires n > size && n - size <= q * size && (q > 0 ==> (q - 1) * size < n - size)
    ensures n <= (q + 1) * size && q * size < n
  {
    assert (q + 1) * size == q * size + size && (q - 1) * size + size == q * size;
  }

  lemma {:induction false} ChunksHold(n: nat, size: nat)
    requires size > 0
    ensures Sum(Chunks(n, size)) == n && forall c <- Chunks(n, size) :: 1 <= c <= size
    ensures var q := |Chunks(n, size)|; n <= q * size && (q > 0 ==> (q - 1) * size < n)
  {
    if n > size {
      ChunksHold(n - size, size);
      SumAppend([size], Chunks(n - size, size));
      SumSnoc([], size);
      OneMoreChunk(|Chunks(n - size, size)|, n, size);
    } else if n > 0 {
      SumSnoc([], n);
    }
  }

  // ---- packing lines --------------------------------------------------------------------------------

  /** The flushed groups and the lines still in the buffer. */
  datatype Buffer = Buffer(flushed: seq<seq<nat>>, raw: seq<nat>) {
    function Flush(): Buffer { if raw == [] then this else Buffer(flushed + [raw], []) }
    function Add(line: nat, size: nat): Buffer {
      var b := if Sum(raw) + line > size then Flush() else this;
      b.(raw := b.raw + [line])
    }
  }

  function Packed(lines: seq<nat>, size: nat): Buffer {
    if lines == [] then Buffer([], []) else Packed(lines[..|lines| - 1], size).Add(lines[|lines| - 1], size)
  }

  function Grouped(lines: seq<nat>, size: nat): seq<seq<nat>> { Packed(lines, size).Flush().flushed }

  predicate FullBefore(groups: seq<seq<nat>>, size: nat, i: nat) requires 0 < i < |groups| {
    groups[i] != [] && Sum(groups[i - 1]) + groups[i][0] > size
  }

  /** Each group fits a part, and no group could have taken the first line of the next. */
  predicate Greedy(groups: seq<seq<nat>>, size: nat) {
    && (forall i :: 0 <= i < |groups| ==> groups[i] != [] && Sum(groups[i]) <= size)
    && (forall i :: 0 < i < |groups| ==> FullBefore(groups, size, i))
  }

  lemma GreedySnoc(groups: seq<seq<nat>>, g: seq<nat>, size: nat)
    requires Greedy(groups, size) && g != [] && Sum(g) <= size
    requires groups != [] ==> Sum(groups[|groups| - 1]) + g[0] > size
    ensures Greedy(groups + [g], size)
  {
    var longer := groups + [g];
    forall i | 0 < i < |longer| ensures FullBefore(longer, size, i) {
      if i < |groups| { assert FullBefore(groups, size, i); }
    }
  }

  /** The buffer is a greedy grouping of the lines so far, with an open last group. */
  ghost predicate BufferOk(b: Buffer, lines: seq<nat>, size: nat) {
    && Greedy(b.flushed, size) && Sum(b.raw) <= size && Join(b.flushed) + b.raw == lines
    && (b.flushed != [] && b.raw != [] ==> Sum(b.flushed[|b.flushed| - 1]) + b.raw[0] > size)
    && (b.flushed != [] ==> b.raw != [])
  }

  lemma AddKeeps(b: Buffer, lines: seq<nat>, line: nat, size: nat, all: seq<nat>)
    requires BufferOk(b, lines, size) && 1 <= line <= size && all == lines + [line]
    ensures BufferOk(b.Add(line, size), all, size)
  {
    SumSnoc(b.raw, line);
    SumSnoc([], line);
    if Sum(b.raw) + line > size {
      GreedySnoc(b.flushed, b.raw, size);
      JoinSnoc(b.flushed, b.raw);
      assert Join(b.flushed + [b.raw]) + [line] == lines + [line];
    } else {
      assert Join(b.flushed) + (b.raw + [line]) == lines + [line];
    }
  }

  lemma PackedIs(lines: seq<nat>, size: nat)
    requires lines != []
    ensures Packed(lines, size) == Packed(lines[..|lines| - 1], size).Add(lines[|lines| - 1], size)
  {}

  predicate Fit(lines: seq<nat>, size: nat) { forall i :: 0 <= i < |lines| ==> 1 <= lines[i] <= size }

  lemma FitMember(lines: seq<nat>, size: nat, x: nat)
    requires Fit(lines, size) && x in lines
    ensures 1 <= x <= size
  {}

  lemma {:induction false} PackedOk(lines: seq<nat>, size: nat)
    requires Fit(lines, size)
    ensures BufferOk(Packed(lines, size), lines, size)
  {
    if lines != [] {
      var rest, l := lines[..|lines| - 1], lines[|lines| - 1];
      PackedOk(rest, size);
      AddKeeps(Packed(rest, size), rest, l, size, lines);
      PackedIs(lines, size);
    }
  }

  lemma FlushGreedy(b: Buffer, lines: seq<nat>, size: nat)
    requires BufferOk(b, lines, size)
    ensures Greedy(b.Flush().flushed, size) && Join(b.Flush().flushed) == lines
  {
    if b.raw != [] {
      GreedySnoc(b.flushed, b.raw, size);
      JoinSnoc(b.flushed, b.raw);
    }
  }

  /** Packing loses no line, splits none, keeps their order, and is greedy. */
  lemma GroupedIsGreedy(lines: seq<nat>, size: nat)
    requires Fit(lines, size)
    ensures Greedy(Grouped(lines, size), size) && Join(Grouped(lines, size)) == lines
  {
    PackedOk(lines, size);
    FlushGreedy(Packed(lines, size), lines, size);
  }

  // ---- the estimate -----------------------------------------------------------------------------------

  /** The number of export parts allowed for before packing. */
  function RawParts(rawBound: nat, count: nat, size: nat): nat {
    if rawBound == 0 then 0
    else if size <= LINE_LIMIT then count
    else CeilDiv(rawBound, size - LINE_LIMIT)
  }

  lemma {:induction false} GroupsHold(groups: seq<seq<nat>>)
    requires forall i :: 0 <= i < |groups| ==> groups[i] != []
    ensures |groups| <= |Join(groups)|
  {
    if groups != [] { GroupsHold(groups[..|groups| - 1]); }
  }

  lemma {:induction false} FullGroups(groups: seq<seq<nat>>, q: nat)
    requires forall i :: 0 <= i < |groups| ==> Sum(groups[i]) >= q
    ensures |groups| * q <= Sum(Join(groups))
  {
    if groups != [] {
      var rest, last := groups[..|groups| - 1], groups[|groups| - 1];
      FullGroups(rest, q);
      SumAppend(Join(rest), last);
      assert |groups| * q == |rest| * q + q;
    }
  }

  lemma LastLine(g: seq<nat>)
    requires g != [] && forall x <- g :: x >= 1
    ensures Sum(g) >= 1
  {
    assert g[|g| - 1] in g;
  }

  lemma {:induction false} GroupIn(groups: seq<seq<nat>>, i: nat, x: nat)
    requires i < |groups| && x in groups[i]
    ensures x in Join(groups)
    decreases |groups|
  {
    if i < |groups| - 1 { GroupIn(groups[..|groups| - 1], i, x); }
  }

  lemma CountFromBytes(k: nat, q: nat, total: nat)
    requires q > 0 && k > 0 && (k - 1) * q < total
    ensures k <= CeilDiv(total, q)
  {
    CeilHolds(total, q);
    if k > CeilDiv(total, q) { MulMonotone(CeilDiv(total, q), k - 1, q); }
  }

  lemma CeilMonotone(a: nat, b: nat, q: nat)
    requires a <= b && q > 0
    ensures CeilDiv(a, q) <= CeilDiv(b, q)
  {
    var s, t := a + q - 1, b + q - 1;
    assert s == (s / q) * q + s % q && t == (t / q) * q + t % q;
    if s / q > t / q { MulMonotone(t / q + 1, s / q, q); }
  }

  lemma FullGroup(groups: seq<seq<nat>>, size: nat, i: nat)
    requires Greedy(groups, size) && i + 1 < |groups| && Fit(Join(groups), LINE_LIMIT) && size > LINE_LIMIT
    ensures Sum(groups[i]) >= size - LINE_LIMIT
  {
    assert FullBefore(groups, size, i + 1);
    GroupIn(groups, i + 1, groups[i + 1][0]);
    FitMember(Join(groups), LINE_LIMIT, groups[i + 1][0]);
  }

  lemma LastGroup(groups: seq<seq<nat>>, size: nat)
    requires Greedy(groups, size) && groups != [] && Fit(Join(groups), LINE_LIMIT)
    ensures Sum(groups[|groups| - 1]) >= 1
  {
    var k := |groups| - 1;
    forall x | x in groups[k] ensures x >= 1 {
      GroupIn(groups, k, x);
      FitMember(Join(groups), LINE_LIMIT, x);
    }
    LastLine(groups[k]);
  }

  /** With parts above the line limit, all groups but the last exceed what the estimate
      divides by. */
  lemma LargeParts(groups: seq<seq<nat>>, size: nat, k: nat, q: nat)
    requires Greedy(groups, size) && k + 1 == |groups| && size > LINE_LIMIT && q == size - LINE_LIMIT
    requires Fit(Join(groups), LINE_LIMIT)
    ensures k * q < Sum(Join(groups))
  {
    var full := groups[..k];
    forall i | 0 <= i < |full| ensures Sum(full[i]) >= q { FullGroup(groups, size, i); }
    FullGroups(full, q);
    LastGroup(groups, size);
    SumAppend(Join(full), groups[k]);
  }

  lemma LargeCount(groups: seq<seq<nat>>, size: nat, rawBound: nat)
    requires Greedy(groups, size) && groups != [] && size > LINE_LIMIT && Fit(Join(groups), LINE_LIMIT)
    requires Sum(Join(groups)) <= rawBound
    ensures |groups| <= CeilDiv(rawBound, size - LINE_LIMIT)
  {
    hide Greedy, Fit, Join, Sum, CeilDiv;
    var k, q := |groups| - 1, size - LINE_LIMIT;
    LargeParts(groups, size, k, q);
    CountFromBytes(k + 1, q, Sum(Join(groups)));
    CeilMonotone(Sum(Join(groups)), rawBound, q);
  }

  lemma FitPositive(lines: seq<nat>, size: nat)
    requires Fit(lines, size) && lines != []
    ensures Sum(lines) >= 1
  {}

  /** Greedy packing never produces more parts than the estimate. */
  lemma PartsWithinEstimate(lines: seq<nat>, rawBound: nat, size: nat)
    requires Fit(lines, LINE_LIMIT) && Fit(lines, size) && Sum(lines) <= rawBound
    ensures |Grouped(lines, size)| <= RawParts(rawBound, |lines|, size)
  {
    var groups := Grouped(lines, size);
    GroupedIsGreedy(lines, size);
    GroupsHold(groups);
    if lines != [] { FitPositive(lines, size); }
    if groups != [] && size > LINE_LIMIT { LargeCount(groups, size, rawBound); }
  }
}
