/** The quicksort of the dump pass as a function on sequences, and exactly when it sorts. */
module QsortSpec {

  /** A comparison that is a total preorder; ties between different elements are allowed. */
  ghost predicate TotalPreorder<T(!new)>(cmp: (T, T) -> int) {
    && Reflexive(cmp)
    && (forall x, y :: cmp(x, y) < 0 <==> cmp(y, x) > 0)
    && (forall x, y, z :: cmp(x, y) <= 0 && cmp(y, z) <= 0 ==> cmp(x, z) <= 0)
  }

  ghost predicate Reflexive<T(!new)>(cmp: (T, T) -> int) {
    forall x :: cmp(x, x) == 0
  }

  ghost predicate Sorted<T>(s: seq<T>, cmp: (T, T) -> int) {
    forall i, j :: 0 <= i < j < |s| ==> cmp(s[i], s[j]) <= 0
  }

  /** No two elements compare equal. */
  ghost predicate TieFree<T(!new)>(m: multiset<T>, cmp: (T, T) -> int) {
    && (forall x :: m[x] <= 1)
    && (forall x, y :: x in m && y in m && cmp(x, y) == 0 ==> x == y)
  }

  function Swap<T>(s: seq<T>, i: nat, j: nat): (r: seq<T>)
    requires i < |s| && j < |s|
    ensures |r| == |s| && multiset(r) == multiset(s)
  {
    s[i := s[j]][j := s[i]]
  }

  // ----- insertion sort of short ranges

  function Sink<T>(s: seq<T>, l: nat, cmp: (T, T) -> int): (r: seq<T>)
    requires l < |s|
    ensures |r| == |s| && multiset(r) == multiset(s)
    decreases l
  {
    if l > 0 && cmp(s[l - 1], s[l]) > 0 then Sink(Swap(s, l, l - 1), l - 1, cmp) else s
  }

  function Isort<T>(s: seq<T>, m: nat, cmp: (T, T) -> int): (r: seq<T>)
    ensures |r| == |s| && multiset(r) == multiset(s)
    decreases |s| - m
  {
    if m < |s| then Isort(Sink(s, m, cmp), m + 1, cmp) else s
  }

  // ----- the pivot

  function Med3<T>(s: seq<T>, a: nat, b: nat, c: nat, cmp: (T, T) -> int): (r: nat)
    requires a < |s| && b < |s| && c < |s|
    ensures r < |s|
  {
    if cmp(s[a], s[b]) < 0 then (if cmp(s[b], s[c]) < 0 then b else if cmp(s[a], s[c]) < 0 then c else a)
    else (if cmp(s[b], s[c]) > 0 then b else if cmp(s[a], s[c]) > 0 then c else a)
  }

  function Pivot<T>(s: seq<T>, cmp: (T, T) -> int): (r: nat)
    requires |s| >= 7
    ensures r < |s|
  {
    var n := |s|;
    if n == 7 then n / 2
    else if n <= 40 then Med3(s, 0, n / 2, n - 1, cmp)
    else
      var d := n / 8;
      Med3(s, Med3(s, 0, d, 2 * d, cmp), Med3(s, n / 2 - d, n / 2, n / 2 + d, cmp),
           Med3(s, n - 1 - 2 * d, n - 1 - d, n - 1, cmp), cmp)
  }

  // ----- the four-pointer partition

  datatype Parts<T> = Parts(s: seq<T>, pa: int, pb: int, pc: int, pd: int)

  /** Equal to the pivot, less, not yet seen, greater, equal: in this order. */
  ghost predicate Regions<T>(p: Parts<T>, v: T, cmp: (T, T) -> int) {
    && 0 <= p.pa <= p.pb <= p.pc + 1 && p.pc <= p.pd < |p.s|
    && (forall k :: 0 <= k < p.pa ==> cmp(p.s[k], v) == 0)
    && (forall k :: p.pa <= k < p.pb ==> cmp(p.s[k], v) < 0)
    && (forall k :: p.pc < k <= p.pd ==> cmp(p.s[k], v) > 0)
    && (forall k :: p.pd < k < |p.s| ==> cmp(p.s[k], v) == 0)
  }

  // The five moves of the partition; each keeps the regions.

  function EqualUp<T>(p: Parts<T>, v: T, cmp: (T, T) -> int): (r: Parts<T>)
    requires Regions(p, v, cmp) && p.pb <= p.pc && cmp(p.s[p.pb], v) == 0
    ensures Regions(r, v, cmp) && |r.s| == |p.s| && multiset(r.s) == multiset(p.s)
  {
    p.(s := Swap(p.s, p.pa, p.pb), pa := p.pa + 1, pb := p.pb + 1)
  }

  function LessUp<T>(p: Parts<T>, v: T, cmp: (T, T) -> int): (r: Parts<T>)
    requires Regions(p, v, cmp) && p.pb <= p.pc && cmp(p.s[p.pb], v) < 0
    ensures Regions(r, v, cmp)
  {
    p.(pb := p.pb + 1)
  }

  function EqualDown<T>(p: Parts<T>, v: T, cmp: (T, T) -> int): (r: Parts<T>)
    requires Regions(p, v, cmp) && p.pb <= p.pc && cmp(p.s[p.pc], v) == 0
    ensures Regions(r, v, cmp) && |r.s| == |p.s| && multiset(r.s) == multiset(p.s)
    ensures forall k :: 0 <= k < p.pc ==> r.s[k] == p.s[k]
  {
    p.(s := Swap(p.s, p.pc, p.pd), pc := p.pc - 1, pd := p.pd - 1)
  }

  function GreaterDown<T>(p: Parts<T>, v: T, cmp: (T, T) -> int): (r: Parts<T>)
    requires Regions(p, v, cmp) && p.pb <= p.pc && cmp(p.s[p.pc], v) > 0
    ensures Regions(r, v, cmp)
  {
    p.(pc := p.pc - 1)
  }

  function Exchange<T>(p: Parts<T>, v: T, cmp: (T, T) -> int): (r: Parts<T>)
    requires Regions(p, v, cmp) && p.pb <= p.pc && cmp(p.s[p.pb], v) > 0 && cmp(p.s[p.pc], v) < 0
    ensures Regions(r, v, cmp) && |r.s| == |p.s| && multiset(r.s) == multiset(p.s)
  {
    p.(s := Swap(p.s, p.pb, p.pc), pb := p.pb + 1, pc := p.pc - 1)
  }

  function ScanUp<T>(p: Parts<T>, v: T, cmp: (T, T) -> int): (r: Parts<T>)
    requires Regions(p, v, cmp)
    ensures Regions(r, v, cmp) && |r.s| == |p.s| && multiset(r.s) == multiset(p.s)
    ensures r.pc == p.pc && r.pd == p.pd && r.pb >= p.pb && (r.pb > r.pc || cmp(r.s[r.pb], v) > 0)
    decreases p.pc - p.pb
  {
    if p.pb <= p.pc && cmp(p.s[p.pb], v) <= 0 then
      if cmp(p.s[p.pb], v) == 0 then ScanUp(EqualUp(p, v, cmp), v, cmp) else ScanUp(LessUp(p, v, cmp), v, cmp)
    else p
  }

  function ScanDown<T>(p: Parts<T>, v: T, cmp: (T, T) -> int): (r: Parts<T>)
    requires Regions(p, v, cmp)
    ensures Regions(r, v, cmp) && |r.s| == |p.s| && multiset(r.s) == multiset(p.s)
    ensures r.pa == p.pa && r.pb == p.pb && r.pc <= p.pc && (r.pb > r.pc || cmp(r.s[r.pc], v) < 0)
    ensures r.pb <= r.pc ==> r.s[r.pb] == p.s[r.pb]
    decreases p.pc - p.pb
  {
    if p.pb <= p.pc && cmp(p.s[p.pc], v) >= 0 then
      if cmp(p.s[p.pc], v) == 0 then ScanDown(EqualDown(p, v, cmp), v, cmp)
      else ScanDown(GreaterDown(p, v, cmp), v, cmp)
    else p
  }

  function Split<T>(p: Parts<T>, v: T, cmp: (T, T) -> int): (r: Parts<T>)
    requires Regions(p, v, cmp)
    ensures Regions(r, v, cmp) && |r.s| == |p.s| && multiset(r.s) == multiset(p.s) && r.pb == r.pc + 1
    decreases p.pc - p.pb
  {
    var u := ScanUp(p, v, cmp);
    var d := ScanDown(u, v, cmp);
    if d.pb > d.pc then d else Split(Exchange(d, v, cmp), v, cmp)
  }

  /** Swaps `count` cells from `x` on with as many from `y` on, one after the other. */
  function Flip<T>(s: seq<T>, x: nat, y: nat, count: nat): (r: seq<T>)
    requires x + count <= |s| && y + count <= |s|
    ensures |r| == |s| && multiset(r) == multiset(s)
    decreases count
  {
    if count == 0 then s else Flip(Swap(s, x, y), x + 1, y + 1, count - 1)
  }

  /** `r` is `s` with the cells from `x` on taken from `d` places further up, `count` of them; what
      was before the other block moves up to it if the two do not overlap. */
  ghost predicate Flipped<T>(s: seq<T>, r: seq<T>, x: nat, d: nat, count: nat) {
    && |r| == |s| && x + d + count <= |s|
    && (forall k {:trigger r[k]} :: x <= k < x + count ==> r[k] == s[k + d])
    && (forall k {:trigger r[k]} :: 0 <= k < x || x + d + count <= k < |s| ==> r[k] == s[k])
    && (count <= d ==> forall k {:trigger r[k]} :: x + count <= k < x + d ==> r[k] == s[k])
    && (count <= d ==> forall k {:trigger r[k]} :: x + d <= k < x + d + count ==> r[k] == s[k - d])
  }

  lemma {:induction false} FlipMoves<T>(s: seq<T>, x: nat, d: nat, count: nat)
    requires x + d + count <= |s|
    ensures Flipped(s, Flip(s, x, x + d, count), x, d, count)
    decreases count
  {
    hide Flipped, Swap;
    if count == 0 {
      FlippedNone(s, x, d);
    } else {
      var s' := Swap(s, x, x + d);
      FlipMoves(s', x + 1, d, count - 1);
      FlippedStep(s, Flip(s', x + 1, x + 1 + d, count - 1), x, d, count);
    }
  }

  lemma {:induction false} FlippedNone<T>(s: seq<T>, x: nat, d: nat)
    requires x + d <= |s|
    ensures Flipped(s, s, x, d, 0)
  {}

  lemma {:induction false} FlippedStep<T>(s: seq<T>, r: seq<T>, x: nat, d: nat, count: nat)
    requires x + d + count <= |s| && count > 0 && Flipped(Swap(s, x, x + d), r, x + 1, d, count - 1)
    ensures Flipped(s, r, x, d, count)
  {
    forall k | x <= k < x + count ensures r[k] == s[k + d] {}
    if count <= d {
      forall k | x + d <= k < x + d + count ensures r[k] == s[k - d] {}
    }
  }

  lemma {:induction false} Cancel<T>(a: seq<T>, b: seq<T>, c: seq<T>, d: seq<T>, e: seq<T>)
    requires multiset(a + b + c + d) == multiset(a + e + b + d)
    ensures multiset(c) == multiset(e)
  {
    var m := multiset(a) + multiset(b) + multiset(d);
    assert multiset(a + b + c + d) == m + multiset(c);
    assert multiset(a + e + b + d) == m + multiset(e);
    assert (m + multiset(c)) - m == multiset(c) && (m + multiset(e)) - m == multiset(e);
  }

  /** Even when the two blocks overlap, the cells after the first block hold what the cells before
      the second block held. */
  lemma {:induction false} FlipRest<T>(s: seq<T>, x: nat, d: nat, count: nat)
    requires x + d + count <= |s|
    ensures multiset(Flip(s, x, x + d, count)[x + count..x + d + count]) == multiset(s[x..x + d])
  {
    hide Flip, Flipped;
    var r := Flip(s, x, x + d, count);
    FlipMoves(s, x, d, count);
    FlippedSlices(s, r, x, d, count);
    Cancel(s[..x], s[x + d..x + d + count], r[x + count..x + d + count], s[x + d + count..], s[x..x + d]);
  }

  lemma {:induction false} FlippedSlices<T>(s: seq<T>, r: seq<T>, x: nat, d: nat, count: nat)
    requires Flipped(s, r, x, d, count)
    ensures var y, z := x + d, x + d + count;
      && r == s[..x] + s[y..z] + r[x + count..z] + s[z..]
      && s == s[..x] + s[x..y] + s[y..z] + s[z..]
  {
    var y, z := x + d, x + d + count;
    assert r[..x] == s[..x] && r[z..] == s[z..] && r[x..x + count] == s[y..z];
    assert r == r[..x] + r[x..x + count] + r[x + count..z] + r[z..];
  }

  // ----- the sort

  /** A partitioned sequence, with the sizes of the low and the high part that are sorted next. */
  datatype Partition<T> = Partition(t: seq<T>, v: T, pa: nat, low: nat, high: nat)

  function SplitAll<T>(s: seq<T>, cmp: (T, T) -> int): (p: Parts<T>)
    requires |s| >= 7
    ensures Regions(p, s[Pivot(s, cmp)], cmp) && |p.s| == |s| && multiset(p.s) == multiset(s) && p.pb == p.pc + 1
  {
    Split(Parts(s, 0, 0, |s| - 1, |s| - 1), s[Pivot(s, cmp)], cmp)
  }

  function Partitioned<T>(s: seq<T>, cmp: (T, T) -> int): (r: Partition<T>)
    requires |s| >= 7
    ensures |r.t| == |s| && multiset(r.t) == multiset(s) && r.pa + r.low + r.high <= |s|
  {
    var p := SplitAll(s, cmp);
    var t := Flip(p.s, 0, p.pb - p.pa, p.pa);
    Partition(Flip(t, p.pb, p.pd + 1, |s| - 1 - p.pd), s[Pivot(s, cmp)], p.pa, p.pb - p.pa, p.pd + 1 - p.pb)
  }

  /** The pivot itself ends up in neither part, so the recursion gets smaller. */
  lemma {:induction false} PivotLeftOut<T(!new)>(s: seq<T>, cmp: (T, T) -> int)
    requires |s| >= 7 && Reflexive(cmp)
    ensures Partitioned(s, cmp).low + Partitioned(s, cmp).high < |s|
  {
    var p := SplitAll(s, cmp);
    var v := s[Pivot(s, cmp)];
    assert v in multiset(s);
    assert v in multiset(p.s);
    var k :| 0 <= k < |p.s| && p.s[k] == v;
    assert cmp(p.s[k], v) == 0;
  }

  lemma {:induction false} PiecesKeepMultiset<T>(t: seq<T>, i: nat, j: nat, a: seq<T>, c: seq<T>)
    requires i <= j <= |t| && multiset(a) == multiset(t[..i]) && multiset(c) == multiset(t[j..])
    ensures multiset(a + t[i..j] + c) == multiset(t)
  {
    assert t == t[..i] + t[i..j] + t[j..];
  }

  /** For any reflexive comparison the sort ends and permutes its input. */
  function Qsort<T(!new)>(s: seq<T>, cmp: (T, T) -> int): (r: seq<T>)
    requires Reflexive(cmp)
    ensures |r| == |s| && multiset(r) == multiset(s)
    decreases |s|
  {
    if |s| < 7 then Isort(s, 1, cmp)
    else
      PivotLeftOut(s, cmp);
      var p := Partitioned(s, cmp);
      var i, j := p.low, |s| - p.high;
      var a, c := Qsort(p.t[..i], cmp), Qsort(p.t[j..], cmp);
      PiecesKeepMultiset(p.t, i, j, a, c);
      a + p.t[i..j] + c
  }

  /** Short parts need no call. */
  lemma {:induction false} QsortShort<T(!new)>(s: seq<T>, cmp: (T, T) -> int)
    requires Reflexive(cmp) && |s| <= 1
    ensures Qsort(s, cmp) == s
  {}

  // ----- when it sorts

  /** The guard that the block swap at the left end lacks: at every level of the recursion there are
      no more keys equal to the pivot at the left end than keys below it, or none below it at all. */
  predicate SwapsFit<T(!new)>(s: seq<T>, cmp: (T, T) -> int)
    requires Reflexive(cmp)
    decreases |s|
  {
    if |s| < 7 then true
    else
      PivotLeftOut(s, cmp);
      var p := Partitioned(s, cmp);
      && (p.pa <= p.low || p.low == 0)
      && SwapsFit(p.t[..p.low], cmp) && SwapsFit(p.t[|s| - p.high..], cmp)
  }

  ghost predicate All<T>(s: seq<T>, lo: int, hi: int, sign: int, v: T, cmp: (T, T) -> int)
    requires 0 <= lo <= hi <= |s|
  {
    forall k :: lo <= k < hi ==>
      if sign < 0 then cmp(s[k], v) < 0 else if sign > 0 then cmp(s[k], v) > 0 else cmp(s[k], v) == 0
  }

  /** What one partition achieves. The high part is always right; the low part exactly if its block
      swap fits, and otherwise an equal key is left before a smaller one. */
  lemma {:induction false} PartitionExact<T>(s: seq<T>, cmp: (T, T) -> int)
    requires |s| >= 7
    ensures var p := Partitioned(s, cmp); var n := |s|;
      && All(p.t, n - p.high, n, 1, p.v, cmp)
      && All(p.t, p.pa + p.low, n - p.high, 0, p.v, cmp)
      && (if p.pa <= p.low || p.low == 0
          then All(p.t, 0, p.low, -1, p.v, cmp) && All(p.t, p.low, p.pa + p.low, 0, p.v, cmp)
          else cmp(p.t[0], p.v) == 0 && cmp(p.t[p.pa - 1], p.v) < 0)
  {
    hide Regions, Flip, SplitAll, Pivot, Split;
    var q := SplitAll(s, cmp);
    BoundsOf(q, s[Pivot(s, cmp)], cmp);
    var v := s[Pivot(s, cmp)];
    var t := Flip(q.s, 0, q.pb - q.pa, q.pa);
    LeftBlock(q, v, t, cmp);
    RightBlock(q, v, t, Flip(t, q.pb, q.pd + 1, |s| - 1 - q.pd), cmp);
  }

  lemma {:induction false} BoundsOf<T>(p: Parts<T>, v: T, cmp: (T, T) -> int)
    requires Regions(p, v, cmp)
    ensures 0 <= p.pa <= p.pb <= p.pc + 1 && p.pc <= p.pd < |p.s|
  {}

  lemma {:induction false} LeftBlock<T>(q: Parts<T>, v: T, t: seq<T>, cmp: (T, T) -> int)
    requires Regions(q, v, cmp) && t == Flip(q.s, 0, q.pb - q.pa, q.pa)
    ensures var low := q.pb - q.pa;
      if q.pa <= low || low == 0 then All(t, 0, low, -1, v, cmp) && All(t, low, q.pb, 0, v, cmp)
      else cmp(t[0], v) == 0 && cmp(t[q.pa - 1], v) < 0
    ensures forall k :: q.pb <= k < |t| ==> t[k] == q.s[k]
  {
    hide Flip;
    FlipMoves(q.s, 0, q.pb - q.pa, q.pa);
  }

  lemma {:induction false} RightBlock<T>(q: Parts<T>, v: T, t: seq<T>, r: seq<T>, cmp: (T, T) -> int)
    requires Regions(q, v, cmp) && |t| == |q.s| && q.pb == q.pc + 1
    requires forall k :: q.pb <= k < |t| ==> t[k] == q.s[k]
    requires r == Flip(t, q.pb, q.pd + 1, |t| - 1 - q.pd)
    ensures var n, high := |t|, q.pd + 1 - q.pb;
      All(r, n - high, n, 1, v, cmp) && All(r, q.pb, n - high, 0, v, cmp)
    ensures forall k :: 0 <= k < q.pb ==> r[k] == t[k]
  {
    hide Flip, Swap;
    var n, high, c := |t|, q.pd + 1 - q.pb, |t| - 1 - q.pd;
    FlipMoves(t, q.pb, high, c);
    forall k | n - high <= k < n ensures cmp(r[k], v) > 0 {
      var j := FlipOrigin(t, q.pb, high, c, k);
      assert t[j] == q.s[j];
    }
  }

  /** Where a cell after the first block came from. */
  lemma {:induction false} FlipOrigin<T>(s: seq<T>, x: nat, d: nat, count: nat, k: nat) returns (j: nat)
    requires x + d + count <= |s| && x + count <= k < x + d + count
    ensures x <= j < x + d && s[j] == Flip(s, x, x + d, count)[k]
  {
    hide Flip, Swap;
    FlipRest(s, x, d, count);
    var r := Flip(s, x, x + d, count);
    var a, b := r[x + count..x + d + count], s[x..x + d];
    assert a[k - x - count] == r[k];
    assert r[k] in multiset(a);
    assert r[k] in b;
    var i :| 0 <= i < |b| && b[i] == r[k];
    j := x + i;
  }

  lemma {:induction false} Below<T(!new)>(x: T, v: T, y: T, cmp: (T, T) -> int)
    requires TotalPreorder(cmp) && cmp(x, v) <= 0 && cmp(y, v) >= 0
    ensures cmp(x, y) <= 0 && (cmp(x, v) < 0 || cmp(y, v) > 0 ==> cmp(y, x) > 0)
  {
    assert cmp(v, y) <= 0;
    if cmp(y, x) <= 0 {
      assert cmp(v, x) <= 0 && cmp(y, v) <= 0;
    }
  }

  // Insertion sort.

  /** The first `m` cells are in order, but for how cell `l` compares with the cells before it. */
  ghost predicate SortedBut<T>(s: seq<T>, l: int, m: int, cmp: (T, T) -> int) {
    m <= |s| && forall i, j :: 0 <= i < j < m && j != l ==> cmp(s[i], s[j]) <= 0
  }

  lemma {:induction false} SinkSorts<T(!new)>(s: seq<T>, l: nat, m: nat, cmp: (T, T) -> int)
    requires TotalPreorder(cmp) && l < m <= |s| && SortedBut(s, l, m, cmp)
    ensures SortedBut(Sink(s, l, cmp), -1, m, cmp)
    decreases l
  {
    if l > 0 && cmp(s[l - 1], s[l]) > 0 {
      SinkStep(s, l, m, cmp);
      hide TotalPreorder, SortedBut, Swap;
      SinkSorts(Swap(s, l, l - 1), l - 1, m, cmp);
    } else {
      SinkDone(s, l, m, cmp);
    }
  }

  lemma {:induction false} SinkDone<T(!new)>(s: seq<T>, l: nat, m: nat, cmp: (T, T) -> int)
    requires TotalPreorder(cmp) && l < m <= |s| && SortedBut(s, l, m, cmp)
    requires l > 0 ==> cmp(s[l - 1], s[l]) <= 0
    ensures SortedBut(s, -1, m, cmp)
  {
    forall i | 0 <= i < l ensures cmp(s[i], s[l]) <= 0 {
      if i < l - 1 { assert cmp(s[i], s[l - 1]) <= 0; }
    }
  }

  lemma {:induction false} SinkStep<T(!new)>(s: seq<T>, l: nat, m: nat, cmp: (T, T) -> int)
    requires TotalPreorder(cmp) && 0 < l < m <= |s| && SortedBut(s, l, m, cmp) && cmp(s[l - 1], s[l]) > 0
    ensures SortedBut(Swap(s, l, l - 1), l - 1, m, cmp)
  {
    assert cmp(s[l], s[l - 1]) <= 0;
  }

  lemma {:induction false} SortedOneMore<T>(s: seq<T>, m: nat, cmp: (T, T) -> int)
    requires m < |s| && SortedBut(s, -1, m, cmp)
    ensures SortedBut(s, m, m + 1, cmp)
  {}

  lemma {:induction false} IsortSorts<T(!new)>(s: seq<T>, m: nat, cmp: (T, T) -> int)
    requires TotalPreorder(cmp) && SortedBut(s, -1, if m < |s| then m else |s|, cmp)
    ensures Sorted(Isort(s, m, cmp), cmp)
    decreases |s| - m
  {
    hide TotalPreorder, Sink;
    if m < |s| {
      hide SortedBut, Sorted;
      SortedOneMore(s, m, cmp);
      SinkSorts(s, m, m + 1, cmp);
      IsortSorts(Sink(s, m, cmp), m + 1, cmp);
    }
  }

  // The whole sort.

  lemma {:induction false} PermAll<T>(s: seq<T>, t: seq<T>, sign: int, v: T, cmp: (T, T) -> int)
    requires multiset(s) == multiset(t) && All(s, 0, |s|, sign, v, cmp)
    ensures |s| == |t| && All(t, 0, |t|, sign, v, cmp)
  {
    assert |multiset(s)| == |s| && |multiset(t)| == |t|;
    forall k | 0 <= k < |t|
      ensures if sign < 0 then cmp(t[k], v) < 0 else if sign > 0 then cmp(t[k], v) > 0 else cmp(t[k], v) == 0
    {
      assert t[k] in multiset(t);
      assert t[k] in s;
    }
  }

  lemma {:induction false} AllSlice<T>(s: seq<T>, lo: nat, hi: nat, sign: int, v: T, cmp: (T, T) -> int)
    requires lo <= hi <= |s| && All(s, lo, hi, sign, v, cmp)
    ensures All(s[lo..hi], 0, hi - lo, sign, v, cmp)
  {}

  lemma {:induction false} SortedPieces<T(!new)>(a: seq<T>, b: seq<T>, c: seq<T>, v: T, cmp: (T, T) -> int)
    requires TotalPreorder(cmp) && Sorted(a, cmp) && Sorted(c, cmp)
    requires All(a, 0, |a|, -1, v, cmp) && All(b, 0, |b|, 0, v, cmp) && All(c, 0, |c|, 1, v, cmp)
    ensures Sorted(a + b + c, cmp)
  {
    var s := a + b + c;
    forall i, j | 0 <= i < j < |s| ensures cmp(s[i], s[j]) <= 0 {
      if j < |a| {
        assert s[i] == a[i] && s[j] == a[j];
      } else if |a| + |b| <= i {
        assert s[i] == c[i - |a| - |b|] && s[j] == c[j - |a| - |b|];
      } else {
        assert cmp(s[i], v) <= 0 && cmp(s[j], v) >= 0;
        Below(s[i], v, s[j], cmp);
      }
    }
  }

  lemma {:induction false} SortedSlice<T>(s: seq<T>, i: nat, j: nat, cmp: (T, T) -> int)
    requires i <= j <= |s| && Sorted(s, cmp)
    ensures Sorted(s[i..j], cmp)
  {}

  /** The sort sorts exactly the inputs on which every block swap fits. */
  lemma {:induction false} SortsIffSwapsFit<T(!new)>(s: seq<T>, cmp: (T, T) -> int)
    requires TotalPreorder(cmp)
    ensures Sorted(Qsort(s, cmp), cmp) <==> SwapsFit(s, cmp)
    decreases |s|
  {
    assert Reflexive(cmp);
    hide TotalPreorder, Reflexive, Sorted, Partitioned, Qsort, SwapsFit;
    if |s| < 7 {
      ShortSorts(s, cmp);
    } else {
      PivotLeftOut(s, cmp);
      var p := Partitioned(s, cmp);
      SortsIffSwapsFit(p.t[..p.low], cmp);
      SortsIffSwapsFit(p.t[|s| - p.high..], cmp);
      SortsIffStep(s, p, cmp);
    }
  }

  lemma {:induction false} ShortSorts<T(!new)>(s: seq<T>, cmp: (T, T) -> int)
    requires TotalPreorder(cmp) && |s| < 7 && Reflexive(cmp)
    ensures Sorted(Qsort(s, cmp), cmp) && SwapsFit(s, cmp)
  {
    hide Sorted, Isort;
    assert SortedBut(s, -1, if 1 < |s| then 1 else |s|, cmp);
    IsortSorts(s, 1, cmp);
  }

  lemma {:induction false} QsortUnfold<T(!new)>(s: seq<T>, cmp: (T, T) -> int)
    requires Reflexive(cmp) && |s| >= 7
    ensures var p := Partitioned(s, cmp); var i, j := p.low, |s| - p.high;
      Qsort(s, cmp) == Qsort(p.t[..i], cmp) + p.t[i..j] + Qsort(p.t[j..], cmp)
  {
    hide Partitioned;
  }

  lemma {:induction false} SwapsFitUnfold<T(!new)>(s: seq<T>, cmp: (T, T) -> int)
    requires Reflexive(cmp) && |s| >= 7
    ensures var p := Partitioned(s, cmp);
      SwapsFit(s, cmp) <==>
        (p.pa <= p.low || p.low == 0) && SwapsFit(p.t[..p.low], cmp) && SwapsFit(p.t[|s| - p.high..], cmp)
  {
    hide Partitioned;
  }

  lemma {:induction false} SortsIffStep<T(!new)>(s: seq<T>, p: Partition<T>, cmp: (T, T) -> int)
    requires TotalPreorder(cmp) && Reflexive(cmp) && |s| >= 7 && p == Partitioned(s, cmp)
    requires Sorted(Qsort(p.t[..p.low], cmp), cmp) <==> SwapsFit(p.t[..p.low], cmp)
    requires Sorted(Qsort(p.t[|s| - p.high..], cmp), cmp) <==> SwapsFit(p.t[|s| - p.high..], cmp)
    ensures Sorted(Qsort(s, cmp), cmp) <==> SwapsFit(s, cmp)
  {
    hide Sorted, All, Qsort, SwapsFit, TotalPreorder, Partitioned, Reflexive;
    QsortUnfold(s, cmp);
    SwapsFitUnfold(s, cmp);
    PartitionExact(s, cmp);
    SortedIffParts(s, p, Qsort(p.t[..p.low], cmp), Qsort(p.t[|s| - p.high..], cmp), cmp);
  }

  lemma {:induction false} SortedIffParts<T(!new)>(s: seq<T>, p: Partition<T>, a: seq<T>, c: seq<T>, cmp: (T, T) -> int)
    requires TotalPreorder(cmp) && |s| == |p.t| && p.pa + p.low + p.high <= |s|
    requires |a| == p.low && multiset(a) == multiset(p.t[..p.low])
    requires |c| == p.high && multiset(c) == multiset(p.t[|s| - p.high..])
    requires All(p.t, |s| - p.high, |s|, 1, p.v, cmp) && All(p.t, p.pa + p.low, |s| - p.high, 0, p.v, cmp)
    requires if p.pa <= p.low || p.low == 0
      then All(p.t, 0, p.low, -1, p.v, cmp) && All(p.t, p.low, p.pa + p.low, 0, p.v, cmp)
      else cmp(p.t[0], p.v) == 0 && cmp(p.t[p.pa - 1], p.v) < 0
    ensures var r := a + p.t[p.low..|s| - p.high] + c;
      Sorted(r, cmp) <==> (p.pa <= p.low || p.low == 0) && Sorted(a, cmp) && Sorted(c, cmp)
  {
    hide Sorted, All, TotalPreorder;
    var i, j := p.low, |s| - p.high;
    var r := a + p.t[i..j] + c;
    assert r[0..i] == a && r[j..|r|] == c && p.t[0..i] == p.t[..i] && p.t[j..|s|] == p.t[j..];
    if Sorted(r, cmp) {
      SortedSlice(r, 0, i, cmp);
      SortedSlice(r, j, |r|, cmp);
    }
    if p.pa <= p.low || p.low == 0 {
      AllSlice(p.t, 0, i, -1, p.v, cmp);
      MiddleEqual(p, i, j, cmp);
      AllSlice(p.t, j, |s|, 1, p.v, cmp);
      PermAll(p.t[..i], a, -1, p.v, cmp);
      PermAll(p.t[j..], c, 1, p.v, cmp);
      if Sorted(a, cmp) && Sorted(c, cmp) { SortedPieces(a, p.t[i..j], c, p.v, cmp); }
    } else {
      MisfitUnsorted(p, i, j, a, c, cmp);
    }
  }

  lemma {:induction false} MiddleEqual<T>(p: Partition<T>, i: nat, j: nat, cmp: (T, T) -> int)
    requires i == p.low <= p.pa + p.low <= j <= |p.t|
    requires All(p.t, p.low, p.pa + p.low, 0, p.v, cmp) && All(p.t, p.pa + p.low, j, 0, p.v, cmp)
    ensures All(p.t[i..j], 0, j - i, 0, p.v, cmp)
  {}

  /** A block swap that does not fit leaves a key equal to the pivot in the low part, and a smaller
      one beyond it, where no later step looks. */
  lemma {:induction false} MisfitUnsorted<T(!new)>(p: Partition<T>, i: nat, j: nat, a: seq<T>, c: seq<T>,
                                                   cmp: (T, T) -> int)
    requires TotalPreorder(cmp) && 0 < i == p.low < p.pa && p.pa + p.low <= j <= |p.t|
    requires multiset(a) == multiset(p.t[..i]) && |a| == i
    requires cmp(p.t[0], p.v) == 0 && cmp(p.t[p.pa - 1], p.v) < 0
    ensures !Sorted(a + p.t[i..j] + c, cmp)
  {
    var r := a + p.t[i..j] + c;
    var x := p.t[0];
    assert p.t[..i][0] == x;
    assert x in multiset(a);
    var k :| 0 <= k < |a| && a[k] == x;
    var m := p.pa - 1;
    assert r[k] == x && r[m] == p.t[m];
    Below(p.t[m], p.v, x, cmp);
  }

  lemma {:induction false} TwoAlike<T>(s: seq<T>, x: T)
    requires |s| >= 2 && s[0] == s[1] == x
    ensures multiset(s)[x] >= 2
  {
    assert s == [x] + [x] + s[2..];
  }

  /** Without ties every block swap fits: at most the pivot itself stands at the left end. */
  lemma {:induction false} TieFreeFits<T(!new)>(s: seq<T>, cmp: (T, T) -> int)
    requires Reflexive(cmp) && TieFree(multiset(s), cmp)
    ensures SwapsFit(s, cmp)
    decreases |s|
  {
    hide TieFree, Partitioned, Reflexive, SwapsFit;
    if |s| >= 7 {
      PivotLeftOut(s, cmp);
      LeftEndShort(s, cmp);
      SwapsFitUnfold(s, cmp);
      var p := Partitioned(s, cmp);
      var i, j := p.low, |s| - p.high;
      PartOf(p.t, 0, i, cmp);
      PartOf(p.t, j, |s|, cmp);
      assert p.t[0..i] == p.t[..i] && p.t[j..|s|] == p.t[j..];
      TieFreeFits(p.t[..i], cmp);
      TieFreeFits(p.t[j..], cmp);
    } else {
      ShortFits(s, cmp);
    }
  }

  lemma {:induction false} ShortFits<T(!new)>(s: seq<T>, cmp: (T, T) -> int)
    requires Reflexive(cmp) && |s| < 7
    ensures SwapsFit(s, cmp)
  {}

  lemma {:induction false} LeftEndShort<T(!new)>(s: seq<T>, cmp: (T, T) -> int)
    requires |s| >= 7 && TieFree(multiset(s), cmp)
    ensures Partitioned(s, cmp).pa <= 1
  {
    hide TieFree, Regions;
    FirstTwo(s, SplitAll(s, cmp), s[Pivot(s, cmp)], cmp);
  }

  lemma {:induction false} FirstTwo<T(!new)>(s: seq<T>, q: Parts<T>, v: T, cmp: (T, T) -> int)
    requires TieFree(multiset(s), cmp) && v in s && multiset(q.s) == multiset(s) && Regions(q, v, cmp)
    ensures q.pa <= 1
  {
    if q.pa >= 2 {
      assert q.s[0] in multiset(q.s) && q.s[1] in multiset(q.s) && v in multiset(s);
      assert cmp(q.s[0], v) == 0 && cmp(q.s[1], v) == 0;
      TwoAlike(q.s, v);
    }
  }

  lemma {:induction false} PartOf<T(!new)>(t: seq<T>, i: nat, j: nat, cmp: (T, T) -> int)
    requires i <= j <= |t| && TieFree(multiset(t), cmp)
    ensures TieFree(multiset(t[i..j]), cmp)
  {
    assert t == t[..i] + t[i..j] + t[j..];
    var m := multiset(t[i..j]);
    assert multiset(t) == multiset(t[..i]) + m + multiset(t[j..]);
    forall x ensures m[x] <= 1 { assert m[x] <= multiset(t)[x]; }
  }

  /** The dump's use of the sort: keys without ties come out in order. */
  lemma {:induction false} SortsWithoutTies<T(!new)>(s: seq<T>, cmp: (T, T) -> int)
    requires TotalPreorder(cmp) && TieFree(multiset(s), cmp)
    ensures Sorted(Qsort(s, cmp), cmp) && multiset(Qsort(s, cmp)) == multiset(s)
  {
    hide TieFree, Sorted, Qsort, SwapsFit;
    TieFreeFits(s, cmp);
    SortsIffSwapsFit(s, cmp);
  }
}
