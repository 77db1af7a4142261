/** The dump pass's sort: the quicksort in place, and the order it is used with. */
module DumpSort {
  import opened QsortSpec

  /** The cells of `a` that a call works on, in the terms of the specification. */
  ghost function View<T>(a: array<T>, lo: nat, n: nat): (s: seq<T>)
    requires lo + n <= a.Length
    reads a
    ensures |s| == n && forall k :: 0 <= k < n ==> s[k] == a[lo + k]
  {
    a[lo..lo + n]
  }

  /** The cells of `a` before and after them. */
  ghost function Around<T>(a: array<T>, lo: nat, n: nat): (seq<T>, seq<T>)
    requires lo + n <= a.Length
    reads a
  {
    (a[..lo], a[lo + n..])
  }

  method SwapCells<T>(a: array<T>, lo: nat, n: nat, i: nat, j: nat)
    requires lo + n <= a.Length && i < n && j < n
    modifies a
    ensures View(a, lo, n) == Swap(old(View(a, lo, n)), i, j)
    ensures Around(a, lo, n) == old(Around(a, lo, n))
  {
    a[lo + i], a[lo + j] := a[lo + j], a[lo + i];
  }

  method Med3Cells<T>(a: array<T>, lo: nat, ghost n: nat, x: nat, y: nat, z: nat, cmp: (T, T) -> int) returns (r: nat)
    requires lo + n <= a.Length && x < n && y < n && z < n
    ensures r == Med3(View(a, lo, n), x, y, z, cmp) && r < n
  {
    hide View;
    if cmp(a[lo + x], a[lo + y]) < 0 {
      if cmp(a[lo + y], a[lo + z]) < 0 { r := y; } else if cmp(a[lo + x], a[lo + z]) < 0 { r := z; } else { r := x; }
    } else {
      if cmp(a[lo + y], a[lo + z]) > 0 { r := y; } else if cmp(a[lo + x], a[lo + z]) > 0 { r := z; } else { r := x; }
    }
  }

  method ChoosePivot<T>(a: array<T>, lo: nat, n: nat, cmp: (T, T) -> int) returns (pm: nat)
    requires lo + n <= a.Length && n >= 7
    ensures pm == Pivot(View(a, lo, n), cmp)
  {
    hide View, Med3;
    pm := n / 2;
    if n > 7 {
      var pl, pn := 0, n - 1;
      if n > 40 {
        var s := n / 8;
        pl := Med3Cells(a, lo, n, pl, pl + s, pl + 2 * s, cmp);
        pm := Med3Cells(a, lo, n, pm - s, pm, pm + s, cmp);
        pn := Med3Cells(a, lo, n, pn - 2 * s, pn - s, pn, cmp);
      }
      pm := Med3Cells(a, lo, n, pl, pm, pn, cmp);
    }
  }

  method SinkCells<T>(a: array<T>, lo: nat, n: nat, pm: nat, cmp: (T, T) -> int)
    requires lo + n <= a.Length && pm < n
    modifies a
    ensures View(a, lo, n) == Sink(old(View(a, lo, n)), pm, cmp)
    ensures Around(a, lo, n) == old(Around(a, lo, n))
  {
    hide View, Around, Swap;
    var pl := pm;
    while pl > 0 && cmp(a[lo + pl - 1], a[lo + pl]) > 0
      invariant 0 <= pl <= pm && Sink(View(a, lo, n), pl, cmp) == Sink(old(View(a, lo, n)), pm, cmp)
      invariant Around(a, lo, n) == old(Around(a, lo, n))
    {
      assert View(a, lo, n)[pl - 1] == a[lo + (pl - 1)];
      SwapCells(a, lo, n, pl, pl - 1);
      pl := pl - 1;
    }
    assert pl > 0 ==> View(a, lo, n)[pl - 1] == a[lo + (pl - 1)];
  }

  method InsertionSort<T>(a: array<T>, lo: nat, n: nat, cmp: (T, T) -> int)
    requires lo + n <= a.Length
    modifies a
    ensures View(a, lo, n) == Isort(old(View(a, lo, n)), 1, cmp)
    ensures Around(a, lo, n) == old(Around(a, lo, n))
  {
    hide View, Around, Sink;
    var pm := 1;
    while pm < n
      invariant 1 <= pm
      invariant Isort(View(a, lo, n), pm, cmp) == Isort(old(View(a, lo, n)), 1, cmp)
      invariant Around(a, lo, n) == old(Around(a, lo, n))
    {
      SinkCells(a, lo, n, pm, cmp);
      pm := pm + 1;
    }
  }

  lemma {:induction false} StartRegions<T>(p: Parts<T>, v: T, cmp: (T, T) -> int)
    requires p.pa == p.pb == 0 && p.pc == p.pd == |p.s| - 1 && |p.s| > 0
    ensures Regions(p, v, cmp)
  {}

  // One step of each scan, without the definition of the regions.

  lemma {:induction false} ScanUpStep<T>(p: Parts<T>, v: T, cmp: (T, T) -> int)
    requires Regions(p, v, cmp) && p.pb <= p.pc && cmp(p.s[p.pb], v) <= 0
    ensures var q := if cmp(p.s[p.pb], v) == 0 then EqualUp(p, v, cmp) else LessUp(p, v, cmp);
      Regions(q, v, cmp) && ScanUp(q, v, cmp) == ScanUp(p, v, cmp)
  {}

  lemma {:induction false} ScanDownStep<T>(p: Parts<T>, v: T, cmp: (T, T) -> int)
    requires Regions(p, v, cmp) && p.pb <= p.pc && cmp(p.s[p.pc], v) >= 0
    ensures var q := if cmp(p.s[p.pc], v) == 0 then EqualDown(p, v, cmp) else GreaterDown(p, v, cmp);
      Regions(q, v, cmp) && ScanDown(q, v, cmp) == ScanDown(p, v, cmp)
  {}

  method ScanUpCells<T>(a: array<T>, lo: nat, n: nat, v: T, pa0: nat, pb0: nat, pc: int, pd: int, cmp: (T, T) -> int)
      returns (pa: nat, pb: nat)
    requires lo + n <= a.Length && Regions(Parts(View(a, lo, n), pa0, pb0, pc, pd), v, cmp)
    modifies a
    ensures Parts(View(a, lo, n), pa, pb, pc, pd) == ScanUp(Parts(old(View(a, lo, n)), pa0, pb0, pc, pd), v, cmp)
    ensures Around(a, lo, n) == old(Around(a, lo, n))
  {
    hide Regions, View, Around, Swap, ScanUp;
    pa, pb := pa0, pb0;
    ghost var p0 := Parts(View(a, lo, n), pa0, pb0, pc, pd);
    ghost var p := p0;
    BoundsOf(p, v, cmp);
    while pb <= pc && cmp(a[lo + pb], v) <= 0
      invariant p == Parts(View(a, lo, n), pa, pb, pc, pd) && Regions(p, v, cmp)
      invariant pa <= pb <= pc + 1 <= n
      invariant ScanUp(p, v, cmp) == ScanUp(p0, v, cmp)
      invariant Around(a, lo, n) == old(Around(a, lo, n))
      decreases pc - pb
    {
      ScanUpStep(p, v, cmp);
      if cmp(a[lo + pb], v) == 0 {
        p := EqualUp(p, v, cmp);
        SwapCells(a, lo, n, pa, pb);
        pa := pa + 1;
      } else {
        p := LessUp(p, v, cmp);
      }
      pb := pb + 1;
      BoundsOf(p, v, cmp);
    }
    ScanUpStops(p, v, cmp);
  }

  lemma {:induction false} ScanUpStops<T>(p: Parts<T>, v: T, cmp: (T, T) -> int)
    requires Regions(p, v, cmp) && (p.pb > p.pc || cmp(p.s[p.pb], v) > 0)
    ensures ScanUp(p, v, cmp) == p
  {}

  lemma {:induction false} ScanDownStops<T>(p: Parts<T>, v: T, cmp: (T, T) -> int)
    requires Regions(p, v, cmp) && (p.pb > p.pc || cmp(p.s[p.pc], v) < 0)
    ensures ScanDown(p, v, cmp) == p
  {}

  method ScanDownCells<T>(a: array<T>, lo: nat, n: nat, v: T, pa: nat, pb: nat, pc0: int, pd0: int, cmp: (T, T) -> int)
      returns (pc: int, pd: int)
    requires lo + n <= a.Length && Regions(Parts(View(a, lo, n), pa, pb, pc0, pd0), v, cmp)
    modifies a
    ensures Parts(View(a, lo, n), pa, pb, pc, pd) == ScanDown(Parts(old(View(a, lo, n)), pa, pb, pc0, pd0), v, cmp)
    ensures Around(a, lo, n) == old(Around(a, lo, n))
  {
    hide Regions, View, Around, Swap, ScanDown;
    pc, pd := pc0, pd0;
    ghost var p0 := Parts(View(a, lo, n), pa, pb, pc0, pd0);
    ghost var p := p0;
    BoundsOf(p, v, cmp);
    while pb <= pc && cmp(a[lo + pc], v) >= 0
      invariant p == Parts(View(a, lo, n), pa, pb, pc, pd) && Regions(p, v, cmp)
      invariant pb <= pc + 1 && pc <= pd < n
      invariant ScanDown(p, v, cmp) == ScanDown(p0, v, cmp)
      invariant Around(a, lo, n) == old(Around(a, lo, n))
      decreases pc - pb
    {
      ScanDownStep(p, v, cmp);
      if cmp(a[lo + pc], v) == 0 {
        p := EqualDown(p, v, cmp);
        SwapCells(a, lo, n, pc, pd);
        pd := pd - 1;
      } else {
        p := GreaterDown(p, v, cmp);
      }
      pc := pc - 1;
      BoundsOf(p, v, cmp);
    }
    ScanDownStops(p, v, cmp);
  }

  lemma {:induction false} SplitStep<T>(p: Parts<T>, v: T, cmp: (T, T) -> int)
    requires Regions(p, v, cmp)
    ensures var d := ScanDown(ScanUp(p, v, cmp), v, cmp);
      Split(p, v, cmp) == if d.pb > d.pc then d else Split(Exchange(d, v, cmp), v, cmp)
  {
    hide ScanUp, ScanDown, Regions;
  }

  /** The four-pointer loop, with the pointers taken relative to the start of the range. */
  method PartitionCells<T>(a: array<T>, lo: nat, n: nat, v: T, cmp: (T, T) -> int)
      returns (pa: nat, pb: nat, pc: int, pd: int)
    requires lo + n <= a.Length && n > 0
    modifies a
    ensures Regions(Parts(old(View(a, lo, n)), 0, 0, n - 1, n - 1), v, cmp)
    ensures Parts(View(a, lo, n), pa, pb, pc, pd) == Split(Parts(old(View(a, lo, n)), 0, 0, n - 1, n - 1), v, cmp)
    ensures Around(a, lo, n) == old(Around(a, lo, n))
  {
    hide Regions, View, Around, Swap, Split, ScanUp, ScanDown;
    pa, pb, pc, pd := 0, 0, n - 1, n - 1;
    ghost var p0 := Parts(View(a, lo, n), 0, 0, n - 1, n - 1);
    StartRegions(p0, v, cmp);
    ghost var p := p0;
    while true
      invariant p == Parts(View(a, lo, n), pa, pb, pc, pd) && Regions(p, v, cmp) && |p.s| == n
      invariant Split(p, v, cmp) == Split(p0, v, cmp)
      invariant Around(a, lo, n) == old(Around(a, lo, n))
      decreases pc - pb
    {
      SplitStep(p, v, cmp);
      pa, pb := ScanUpCells(a, lo, n, v, pa, pb, pc, pd, cmp);
      pc, pd := ScanDownCells(a, lo, n, v, pa, pb, pc, pd, cmp);
      p := ScanDown(ScanUp(p, v, cmp), v, cmp);
      BoundsOf(p, v, cmp);
      if pb > pc { break; }
      p := Exchange(p, v, cmp);
      SwapCells(a, lo, n, pb, pc);
      pb := pb + 1;
      pc := pc - 1;
    }
  }

  method FlipCells<T>(a: array<T>, lo: nat, n: nat, x: nat, y: nat, count: nat)
    requires lo + n <= a.Length && x + count <= n && y + count <= n
    modifies a
    ensures View(a, lo, n) == Flip(old(View(a, lo, n)), x, y, count)
    ensures Around(a, lo, n) == old(Around(a, lo, n))
  {
    hide View, Around, Swap;
    for r := 0 to count
      invariant Flip(View(a, lo, n), x + r, y + r, count - r) == Flip(old(View(a, lo, n)), x, y, count)
      invariant Around(a, lo, n) == old(Around(a, lo, n))
    {
      SwapCells(a, lo, n, x + r, y + r);
    }
  }

  lemma {:induction false} NoFlip<T>(s: seq<T>, x: nat, y: nat)
    requires x <= |s| && y <= |s|
    ensures Flip(s, x, y, 0) == s
  {}

  lemma {:induction false} PartitionedIs<T>(s: seq<T>, cmp: (T, T) -> int)
    requires |s| >= 7
    ensures var n, v := |s|, s[Pivot(s, cmp)]; var p0 := Parts(s, 0, 0, n - 1, n - 1);
      && Regions(p0, v, cmp)
      && var p := Split(p0, v, cmp);
      && 0 <= p.pa <= p.pb == p.pc + 1 && p.pc <= p.pd < |p.s| == n
      && Partitioned(s, cmp) == Partition(Flip(Flip(p.s, 0, p.pb - p.pa, p.pa), p.pb, p.pd + 1, n - 1 - p.pd),
           v, p.pa, p.pb - p.pa, p.pd + 1 - p.pb)
  {
    hide Split, Flip, Pivot;
  }

  method PartitionAndFlip<T>(a: array<T>, lo: nat, n: nat, cmp: (T, T) -> int) returns (low: nat, high: nat)
    requires lo + n <= a.Length && n >= 7
    modifies a
    ensures var p := Partitioned(old(View(a, lo, n)), cmp); View(a, lo, n) == p.t && low == p.low && high == p.high
    ensures Around(a, lo, n) == old(Around(a, lo, n))
  {
    hide Split, Pivot, View, Around, Regions, Flip, Partitioned;
    PartitionedIs(View(a, lo, n), cmp);
    var pm := ChoosePivot(a, lo, n, cmp);
    var v := a[lo + pm];
    var pa, pb, pc, pd := PartitionCells(a, lo, n, v, cmp);
    pc := pc + 1;
    var s := pa;
    NoFlip(View(a, lo, n), 0, pb - pa);
    if s > 0 { FlipCells(a, lo, n, 0, pb - s, s); }
    s := n - 1 - pd;
    NoFlip(View(a, lo, n), pb, pd + 1);
    if s > 0 { FlipCells(a, lo, n, pc, n - s, s); }
    low, high := pb - pa, pd + 1 - pc;
  }

  /** Sorts `n` cells from `lo` on. It touches no others, and terminates for every comparison that
      finds an element equal to itself. */
  method Qsort<T(!new)>(a: array<T>, lo: nat, n: nat, cmp: (T, T) -> int)
    requires lo + n <= a.Length && Reflexive(cmp)
    modifies a
    ensures View(a, lo, n) == QsortSpec.Qsort(old(View(a, lo, n)), cmp)
    ensures Around(a, lo, n) == old(Around(a, lo, n))
    decreases n, 1
  {
    hide Isort, Partitioned, Reflexive, View, Around, QsortSpec.Qsort;
    if n < 7 {
      QsortFew(View(a, lo, n), cmp);
      InsertionSort(a, lo, n, cmp);
    } else {
      ghost var s := View(a, lo, n);
      var low, high := PartitionAndFlip(a, lo, n, cmp);
      SortParts(a, lo, n, low, high, s, cmp);
    }
  }

  method SortParts<T(!new)>(a: array<T>, lo: nat, n: nat, low: nat, high: nat, ghost s: seq<T>, cmp: (T, T) -> int)
    requires lo + n <= a.Length && Reflexive(cmp) && n >= 7 && |s| == n
    requires var p := Partitioned(s, cmp); View(a, lo, n) == p.t && low == p.low && high == p.high
    modifies a
    ensures View(a, lo, n) == QsortSpec.Qsort(s, cmp)
    ensures Around(a, lo, n) == old(Around(a, lo, n))
    decreases n, 0
  {
    hide Reflexive, Partitioned, View, Around, QsortSpec.Qsort, PartSorted;
    assert low + high < n by { PivotLeftOut(s, cmp); }
    ghost var t := View(a, lo, n);
    SortPart(a, lo, n, 0, low, cmp);
    ghost var u := View(a, lo, n);
    CallsComplete(s, t, u, low, high, cmp);
    SortPart(a, lo, n, n - high, high, cmp);
  }

  /** A recursive call, which is left out for parts of fewer than two cells. */
  method SortPart<T(!new)>(a: array<T>, lo: nat, n: nat, d: nat, m: nat, cmp: (T, T) -> int)
    requires lo + n <= a.Length && d + m <= n && Reflexive(cmp)
    modifies a
    ensures View(a, lo, n) == PartSorted(old(View(a, lo, n)), d, m, cmp)
    ensures Around(a, lo, n) == old(Around(a, lo, n))
    decreases m, 2
  {
    hide Reflexive, View, Around, QsortSpec.Qsort;
    ghost var c := a[..];
    Narrow(a, lo, n, d, m);
    if m > 1 { Qsort(a, lo + d, m, cmp); } else { QsortShort(View(a, lo + d, m), cmp); }
    Widen(a, c, lo, n, d, m);
  }

  ghost function PartSorted<T(!new)>(t: seq<T>, d: nat, m: nat, cmp: (T, T) -> int): (r: seq<T>)
    requires Reflexive(cmp) && d + m <= |t|
    ensures |r| == |t|
  {
    t[..d] + QsortSpec.Qsort(t[d..d + m], cmp) + t[d + m..]
  }

  lemma {:induction false} QsortFew<T(!new)>(s: seq<T>, cmp: (T, T) -> int)
    requires Reflexive(cmp) && |s| < 7
    ensures QsortSpec.Qsort(s, cmp) == Isort(s, 1, cmp)
  {}

  lemma {:induction false} Pieces<T>(t: seq<T>, i: nat, j: nat, x: seq<T>, y: seq<T>)
    requires i <= j <= |t| && |x| == i && |y| == |t| - j
    ensures var u := t[..0] + x + t[i..];
      && u[..j] + y + u[|t|..] == x + t[i..j] + y && u[j..|t|] == t[j..] && t[0..i] == t[..i]
  {}

  /** The two recursive calls, one after the other, complete the sort. */
  lemma {:induction false} CallsComplete<T(!new)>(s: seq<T>, t: seq<T>, u: seq<T>, low: nat, high: nat,
                                                  cmp: (T, T) -> int)
    requires Reflexive(cmp) && |s| >= 7
    requires var p := Partitioned(s, cmp); t == p.t && low == p.low && high == p.high
    requires u == PartSorted(t, 0, low, cmp)
    ensures PartSorted(u, |s| - high, high, cmp) == QsortSpec.Qsort(s, cmp)
  {
    hide Reflexive, Partitioned, QsortSpec.Qsort;
    PivotLeftOut(s, cmp);
    QsortUnfold(s, cmp);
    Pieces(t, low, |s| - high, QsortSpec.Qsort(t[..low], cmp), QsortSpec.Qsort(t[|s| - high..], cmp));
  }

  lemma {:induction false} Narrow<T>(a: array<T>, lo: nat, n: nat, d: nat, m: nat)
    requires lo + n <= a.Length && d + m <= n
    ensures View(a, lo + d, m) == View(a, lo, n)[d..d + m]
    ensures View(a, lo, n) == a[..][lo..lo + n] && Around(a, lo, n) == (a[..][..lo], a[..][lo + n..])
    ensures Around(a, lo + d, m) == (a[..][..lo + d], a[..][lo + d + m..])
  {}

  /** What a change of some of the cells, from contents `c` before, does to a wider view. */
  lemma {:induction false} Widen<T>(a: array<T>, c: seq<T>, lo: nat, n: nat, d: nat, m: nat)
    requires lo + n <= a.Length == |c| && d + m <= n
    requires Around(a, lo + d, m) == (c[..lo + d], c[lo + d + m..])
    ensures View(a, lo, n) == c[lo..lo + n][..d] + View(a, lo + d, m) + c[lo..lo + n][d + m..]
    ensures Around(a, lo, n) == (c[..lo], c[lo + n..])
  {
    Narrow(a, lo, n, d, m);
    SlicesWiden(a[..], c, lo, n, d, m);
    hide Around, View;
    Narrow(a, lo + d, m, 0, m);
  }

  lemma {:induction false} SlicesWiden<T>(s: seq<T>, c: seq<T>, lo: nat, n: nat, d: nat, m: nat)
    requires lo + n <= |s| == |c| && d + m <= n
    requires s[..lo + d] == c[..lo + d] && s[lo + d + m..] == c[lo + d + m..]
    ensures s[lo..lo + n] == c[lo..lo + n][..d] + s[lo + d..lo + d + m] + c[lo..lo + n][d + m..]
    ensures s[..lo] == c[..lo] && s[lo + n..] == c[lo + n..]
  {
    var x, y := lo + d, lo + d + m;
    assert forall i :: 0 <= i < x ==> s[i] == s[..x][i] == c[i];
    assert forall i :: y <= i < |s| ==> s[i] == s[y..][i - y] == c[i];
  }
}
