/** The order in which the dump pass wants its cost centres. */
module BbccOrder {
  import opened Arithmetic
  import opened QsortSpec
  import opened QsortAgree
  import DumpSort

  /** A function in its file and object, each known by its address in units of its own size. */
  datatype Fn = Fn(obj: int, file: int, fn: int)

  /** What the order looks at: the context with its current function first, the recursion level, and
      the offset of the basic block. */
  datatype CostKey = CostKey(top: Fn, callers: seq<Fn>, recIndex: int, offset: int)

  /** The comparison from caller `off - 1` on, once everything before is equal. */
  function Chain(x: CostKey, y: CostKey, off: nat): int
    requires off >= 1
    decreases |x.callers| + 1 - off
  {
    var m, n := |x.callers| + 1, |y.callers| + 1;
    if off < m && off < n then
      var f, g := x.callers[off - 1], y.callers[off - 1];
      if f.obj != g.obj then f.obj - g.obj
      else if f.fn != g.fn then f.fn - g.fn
      else Chain(x, y, off + 1)
    else if m > n then 1
    else if m < n then -1
    else x.offset - y.offset
  }

  function Compare(x: CostKey, y: CostKey): int {
    if x.top.obj != y.top.obj then x.top.obj - y.top.obj
    else if x.top.file != y.top.file then x.top.file - y.top.file
    else if x.top.fn != y.top.fn then x.top.fn - y.top.fn
    else if x.recIndex != y.recIndex then x.recIndex - y.recIndex
    else Chain(x, y, 1)
  }

  const INT_RANGE := 0x1_0000_0000

  /** What is left of a difference in an `int` of 32 bits. */
  function Narrow(d: int): (r: int)
    ensures -INT_RANGE / 2 <= r < INT_RANGE / 2
    ensures r == d <==> -INT_RANGE / 2 <= d < INT_RANGE / 2
  {
    (d + INT_RANGE / 2) % INT_RANGE - INT_RANGE / 2
  }

  /** The comparison that the sort uses. */
  function CompareInt(x: CostKey, y: CostKey): int { Narrow(Compare(x, y)) }

  method MyCmp(x: CostKey, y: CostKey) returns (r: int)
    ensures r == CompareInt(x, y)
  {
    var off := 1;
    if x.top.obj != y.top.obj { return Narrow(x.top.obj - y.top.obj); }
    if x.top.file != y.top.file { return Narrow(x.top.file - y.top.file); }
    if x.top.fn != y.top.fn { return Narrow(x.top.fn - y.top.fn); }
    if x.recIndex != y.recIndex { return Narrow(x.recIndex - y.recIndex); }
    while off < |x.callers| + 1 && off < |y.callers| + 1
      invariant 1 <= off && Chain(x, y, off) == Compare(x, y)
      decreases |x.callers| + 1 - off
    {
      var f, g := x.callers[off - 1], y.callers[off - 1];
      if f.obj != g.obj { return Narrow(f.obj - g.obj); }
      if f.fn != g.fn { return Narrow(f.fn - g.fn); }
      off := off + 1;
    }
    if |x.callers| > |y.callers| { return 1; } else if |x.callers| < |y.callers| { return -1; }
    return Narrow(x.offset - y.offset);
  }

  lemma {:induction false} ChainOpposite(x: CostKey, y: CostKey, off: nat)
    requires off >= 1
    ensures Chain(x, y, off) == -Chain(y, x, off)
    decreases |x.callers| + 1 - off
  {
    if off < |x.callers| + 1 && off < |y.callers| + 1 { ChainOpposite(x, y, off + 1); }
  }

  lemma {:induction false} ChainTransitive(x: CostKey, y: CostKey, z: CostKey, off: nat)
    requires off >= 1 && Chain(x, y, off) <= 0 && Chain(y, z, off) <= 0
    ensures Chain(x, z, off) <= 0
    decreases |x.callers| + 1 - off
  {
    if off < |x.callers| + 1 && off < |y.callers| + 1 && off < |z.callers| + 1 {
      var f, g, h := x.callers[off - 1], y.callers[off - 1], z.callers[off - 1];
      if f.obj == g.obj == h.obj && f.fn == g.fn == h.fn { ChainTransitive(x, y, z, off + 1); }
    }
  }

  lemma {:induction false} ChainTies(x: CostKey, y: CostKey, off: nat)
    requires 1 <= off <= |x.callers| + 1 && off <= |y.callers| + 1
    ensures Chain(x, y, off) == 0 <==>
      && |x.callers| == |y.callers| && x.offset == y.offset
      && forall k :: off - 1 <= k < |x.callers| ==>
        x.callers[k].obj == y.callers[k].obj && x.callers[k].fn == y.callers[k].fn
    decreases |x.callers| + 1 - off
  {
    if off < |x.callers| + 1 && off < |y.callers| + 1 { ChainTies(x, y, off + 1); }
  }

  /** The comparison is a total preorder. */
  lemma {:induction false} CompareIsOrder()
    ensures TotalPreorder(Compare)
  {
    forall x: CostKey ensures Compare(x, x) == 0 { ChainTies(x, x, 1); }
    forall x: CostKey, y: CostKey ensures Compare(x, y) == -Compare(y, x) { ChainOpposite(x, y, 1); }
    forall x: CostKey, y: CostKey, z: CostKey | Compare(x, y) <= 0 && Compare(y, z) <= 0 ensures Compare(x, z) <= 0 {
      if x.top == y.top == z.top && x.recIndex == y.recIndex == z.recIndex { ChainTransitive(x, y, z, 1); }
    }
  }

  // ----- what decides

  /** What the comparison looks at before the offset, in this order: object, file, function, recursion
      level, and then of each caller, the nearest first, the object and the function. */
  function Keys(x: CostKey): seq<int> {
    [x.top.obj, x.top.file, x.top.fn, x.recIndex] + CallerKeys(x.callers)
  }

  function CallerKeys(callers: seq<Fn>): (r: seq<int>)
    ensures |r| == 2 * |callers|
  {
    if callers == [] then [] else [callers[0].obj, callers[0].fn] + CallerKeys(callers[1..])
  }

  /** `s` comes first in the order of words: it is smaller where the two differ first, or ends first. */
  ghost predicate Precedes(s: seq<int>, t: seq<int>) {
    exists k: nat :: PrecedesAt(s, t, k)
  }

  predicate PrecedesAt(s: seq<int>, t: seq<int>, k: nat) {
    k <= |s| && k < |t| && s[..k] == t[..k] && (k < |s| ==> s[k] < t[k])
  }

  lemma {:induction false} PrecedesTail(a: seq<int>, s: seq<int>, t: seq<int>)
    ensures Precedes(a + s, a + t) <==> Precedes(s, t)
  {
    forall k: nat | PrecedesAt(s, t, k) ensures PrecedesAt(a + s, a + t, |a| + k) {
      assert (a + s)[..|a| + k] == a + s[..k] && (a + t)[..|a| + k] == a + t[..k];
    }
    forall k: nat | PrecedesAt(a + s, a + t, k) ensures k >= |a| && PrecedesAt(s, t, k - |a|) {
      if k >= |a| {
        assert s[..k - |a|] == (a + s)[..k][|a|..] && t[..k - |a|] == (a + t)[..k][|a|..];
      }
    }
  }

  lemma {:induction false} PrecedesHead(s: seq<int>, t: seq<int>)
    requires s != [] && t != [] && s[0] != t[0]
    ensures Precedes(s, t) <==> s[0] < t[0]
  {
    if s[0] < t[0] { assert PrecedesAt(s, t, 0); }
    forall k: nat | PrecedesAt(s, t, k) ensures k == 0 { SameHead(s, t, k); }
  }

  lemma {:induction false} SameHead(s: seq<int>, t: seq<int>, k: nat)
    requires k <= |s| && k <= |t| && s[..k] == t[..k]
    ensures k == 0 || s[0] == t[0]
  {
    if k > 0 { assert s[..k][0] == s[0] && t[..k][0] == t[0]; }
  }

  lemma {:induction false} PrecedesEmpty(t: seq<int>)
    ensures Precedes([], t) <==> t != []
    ensures !Precedes(t, [])
  {
    if t != [] { assert PrecedesAt([], t, 0); }
  }

  lemma {:induction false} ChainOrder(x: CostKey, y: CostKey, off: nat)
    requires 1 <= off <= |x.callers| + 1 && off <= |y.callers| + 1
    ensures var s, t := CallerKeys(x.callers[off - 1..]), CallerKeys(y.callers[off - 1..]);
      Chain(x, y, off) < 0 <==> Precedes(s, t) || (s == t && x.offset < y.offset)
    decreases |x.callers| + 1 - off
  {
    var p, q := x.callers[off - 1..], y.callers[off - 1..];
    var s, t := CallerKeys(p), CallerKeys(q);
    if p == [] || q == [] {
      if p == [] { PrecedesEmpty(t); } else { PrecedesEmpty(s); }
      hide Precedes;
    } else {
      assert p[1..] == x.callers[off..] && q[1..] == y.callers[off..];
      var f, g := p[0], q[0];
      var s', t' := CallerKeys(p[1..]), CallerKeys(q[1..]);
      if f.obj != g.obj {
        PrecedesHead(s, t);
      } else if f.fn != g.fn {
        SecondDecides(f.obj, f.fn, g.fn, s, t, s', t');
      } else {
        PrecedesTail([f.obj, f.fn], s', t');
        ChainOrder(x, y, off + 1);
        assert s[2..] == s' && t[2..] == t';
      }
      hide Precedes;
    }
  }

  lemma {:induction false} SecondDecides(o: int, f: int, g: int, s: seq<int>, t: seq<int>, s': seq<int>, t': seq<int>)
    requires f != g && s == [o, f] + s' && t == [o, g] + t'
    ensures s != t && (Precedes(s, t) <==> f < g)
  {
    assert s == [o] + ([f] + s') && t == [o] + ([g] + t') && s[1] != t[1];
    PrecedesTail([o], [f] + s', [g] + t');
    PrecedesHead([f] + s', [g] + t');
  }

  /** The comparison is the order of words on the keys, and after that the order of the offsets. */
  lemma {:induction false} CompareDecides(x: CostKey, y: CostKey)
    ensures Compare(x, y) < 0 <==> Precedes(Keys(x), Keys(y)) || (Keys(x) == Keys(y) && x.offset < y.offset)
  {
    var a := [x.top.obj, x.top.file, x.top.fn, x.recIndex];
    var b := [y.top.obj, y.top.file, y.top.fn, y.recIndex];
    var s, t := CallerKeys(x.callers), CallerKeys(y.callers);
    assert x.callers[0..] == x.callers && y.callers[0..] == y.callers;
    if a == b {
      PrecedesTail(a, s, t);
      ChainOrder(x, y, 1);
      assert Keys(x)[4..] == s && Keys(y)[4..] == t;
    } else {
      HeadDecides(a, b, s, t);
      assert Keys(x)[..4] == a && Keys(y)[..4] == b;
    }
  }

  lemma {:induction false} HeadDecides(a: seq<int>, b: seq<int>, s: seq<int>, t: seq<int>)
    requires |a| == |b| == 4 && a != b
    ensures Precedes(a + s, b + t) <==>
      if a[0] != b[0] then a[0] < b[0] else if a[1] != b[1] then a[1] < b[1] else if a[2] != b[2] then a[2] < b[2]
      else a[3] < b[3]
  {
    var k := if a[0] != b[0] then 0 else if a[1] != b[1] then 1 else if a[2] != b[2] then 2 else 3;
    assert a[k] != b[k] && a[..k] == b[..k];
    assert a + s == a[..k] + (a[k..] + s) && b + t == a[..k] + (b[k..] + t);
    PrecedesTail(a[..k], a[k..] + s, b[k..] + t);
    PrecedesHead(a[k..] + s, b[k..] + t);
  }

  /** In a sorted dump the cost centres of an object stand together, and in it those of a file, and in it
      those of a function. */
  lemma {:induction false} DumpGroups(s: seq<CostKey>, i: nat, j: nat, k: nat)
    requires Sorted(s, Compare) && i < j < k < |s| && s[i].top.obj == s[k].top.obj
    ensures s[j].top.obj == s[i].top.obj
    ensures s[i].top.file == s[k].top.file ==> s[j].top.file == s[i].top.file
    ensures s[i].top == s[k].top ==> s[j].top == s[i].top
  {
    hide Chain;
    assert Compare(s[i], s[j]) <= 0 && Compare(s[j], s[k]) <= 0;
  }

  /** A function lies in one file. */
  ghost predicate OneFileEach(s: seq<CostKey>) {
    forall x, y :: x in s && y in s ==> forall f, g :: f in x.callers && g in y.callers && f.fn == g.fn ==> f == g
  }

  /** Only equal cost centres tie. */
  lemma {:induction false} TiesAreEqual(x: CostKey, y: CostKey)
    requires forall f, g :: f in x.callers && g in y.callers && f.fn == g.fn ==> f == g
    ensures Compare(x, y) == 0 <==> x == y
  {
    ChainTies(x, y, 1);
    if Compare(x, y) == 0 {
      forall k | 0 <= k < |x.callers| ensures x.callers[k] == y.callers[k] {
        assert x.callers[k].fn == y.callers[k].fn;
      }
    }
  }

  ghost predicate AllDifferent<T>(s: seq<T>) {
    forall i, j :: 0 <= i < j < |s| ==> s[i] != s[j]
  }

  /** A difference whose sign survives the narrowing: one that is no multiple of the range, unless it
      is zero, and whose bit 31 says whether it is negative. */
  predicate Kept(d: int) {
    d == 0 || (d > 0 && 0 < d % INT_RANGE < INT_RANGE / 2) || (d < 0 && d % INT_RANGE >= INT_RANGE / 2)
  }

  lemma {:induction false} KeptIff(d: int)
    ensures Kept(d) <==> (Narrow(d) < 0 <==> d < 0) && (Narrow(d) > 0 <==> d > 0)
    ensures -INT_RANGE / 2 <= d < INT_RANGE / 2 ==> Kept(d)
  {
    var q, m := d / INT_RANGE, d % INT_RANGE;
    var r := if m < INT_RANGE / 2 then m else m - INT_RANGE;
    Divided(d + INT_RANGE / 2, INT_RANGE, if r == m then q else q + 1, r + INT_RANGE / 2);
    assert Narrow(d) == r;
  }

  /** Whatever two cost centres of `s` differ in first, the sign of the difference survives. */
  ghost predicate SignsKept(s: seq<CostKey>) {
    forall x, y :: x in s && y in s ==> Kept(Compare(x, y))
  }

  /** The comparison of the sort says the same as the true order exactly if all signs survive. */
  lemma {:induction false} AgreeIffKept(s: seq<CostKey>)
    ensures Agree(multiset(s), Compare, CompareInt) <==> SignsKept(s)
  {
    hide Compare, Narrow, Kept;
    forall x: CostKey, y: CostKey
      ensures Kept(Compare(x, y)) <==>
        (Compare(x, y) < 0 <==> CompareInt(x, y) < 0) && (Compare(x, y) > 0 <==> CompareInt(x, y) > 0)
    {
      KeptIff(Compare(x, y));
    }
  }

  lemma {:induction false} SortedForDump(s: seq<CostKey>)
    requires SignsKept(s)
    ensures Reflexive(CompareInt) && Reflexive(Compare) && multiset(QsortSpec.Qsort(s, CompareInt)) == multiset(s)
    ensures var r := QsortSpec.Qsort(s, CompareInt);
      && (Sorted(r, Compare) <==> Sorted(r, CompareInt))
      && (Sorted(r, Compare) <==> SwapsFit(s, CompareInt)) && (SwapsFit(s, Compare) <==> SwapsFit(s, CompareInt))
      && (OneFileEach(s) && AllDifferent(s) ==> Sorted(r, Compare))
  {
    hide *;
    BothReflexive();
    AgreeIffKept(s);
    QsortAgrees(s, Compare, CompareInt);
    SortedAgrees(QsortSpec.Qsort(s, Compare), Compare, CompareInt);
    CompareIsOrder();
    SortsIffSwapsFit(s, Compare);
    if OneFileEach(s) && AllDifferent(s) {
      DifferentTieFree(s);
      SortsWithoutTies(s, Compare);
    }
  }

  lemma {:induction false} BothReflexive()
    ensures Reflexive(Compare) && Reflexive(CompareInt)
  {
    CompareIsOrder();
    forall x: CostKey ensures CompareInt(x, x) == 0 { assert Compare(x, x) == 0; }
  }

  /** What the dump pass gets: its cost centres, and if the signs of all comparisons survive, in order
      exactly if the block swaps of the sort fit, and so in any case if they are all different. */
  method SortForDump(a: array<CostKey>)
    modifies a
    ensures Reflexive(CompareInt) && a[..] == QsortSpec.Qsort(old(a[..]), CompareInt)
    ensures multiset(a[..]) == multiset(old(a[..]))
    ensures SignsKept(old(a[..])) ==> (Sorted(a[..], Compare) <==> SwapsFit(old(a[..]), CompareInt))
    ensures SignsKept(old(a[..])) && OneFileEach(old(a[..])) && AllDifferent(old(a[..])) ==> Sorted(a[..], Compare)
  {
    hide *;
    ghost var s := a[..];
    BothReflexive();
    if SignsKept(s) { SortedForDump(s); }
    WholeArray(a);
    DumpSort.Qsort(a, 0, a.Length, CompareInt);
    WholeArray(a);
  }

  lemma {:induction false} WholeArray<T>(a: array<T>)
    ensures DumpSort.View(a, 0, a.Length) == a[..]
  {}

  lemma {:induction false} DifferentTieFree(s: seq<CostKey>)
    requires OneFileEach(s) && AllDifferent(s)
    ensures TieFree(multiset(s), Compare)
  {
    hide Compare;
    AtMostOnce(s);
    forall x, y | x in multiset(s) && y in multiset(s) && Compare(x, y) == 0 ensures x == y { TiesAreEqual(x, y); }
  }

  lemma {:induction false} AtMostOnce<T>(s: seq<T>)
    requires AllDifferent(s)
    ensures forall x :: multiset(s)[x] <= 1
    decreases |s|
  {
    if s != [] {
      var n := |s| - 1;
      AtMostOnce(s[..n]);
      assert s == s[..n] + [s[n]];
      assert s[n] !in s[..n];
    }
  }

  // ----- the sort can fail on ties

  /** Blocks of one function in one context, told apart by their offsets only. */
  function At(offset: int): CostKey { CostKey(Fn(1, 1, 1), [], 0, offset) }

  /** A cost centre that was entered four times, in front of a single smaller one. */
  const TIED := [At(2), At(2), At(2), At(2), At(1), At(3), At(4)]

  lemma {:induction false} CompareAt(x: int, y: int)
    ensures Compare(At(x), At(y)) == x - y
  {}

  /** Four times the same cost centre in front of a single smaller one are enough. */
  lemma {:induction false} TiesCanBreakTheSort()
    ensures SignsKept(TIED) && OneFileEach(TIED)
    ensures Reflexive(CompareInt) && !Sorted(QsortSpec.Qsort(TIED, CompareInt), CompareInt)
  {
    TiedKept(TIED);
    NoCallers(TIED);
    hide *;
    SortedForDump(TIED);
    TiedMisfits(TIED);
  }

  lemma {:induction false} TiedKept(s: seq<CostKey>)
    requires s == TIED
    ensures SignsKept(s) && forall x :: x in s ==> x.callers == []
  {
    assert forall x :: x in s ==> x == At(x.offset) && 1 <= x.offset <= 4;
    forall x, y | x in s && y in s ensures Kept(Compare(x, y)) {
      CompareAt(x.offset, y.offset);
      KeptIff(Compare(x, y));
    }
  }

  lemma {:induction false} NoCallers(s: seq<CostKey>)
    requires forall x :: x in s ==> x.callers == []
    ensures OneFileEach(s)
  {}

  lemma {:induction false} TiedMisfits(s: seq<CostKey>)
    requires s == TIED && Reflexive(Compare)
    ensures !SwapsFit(s, Compare)
  {
    hide Compare, Reflexive, SwapsFit, Partitioned;
    SwapsFitUnfold(s, Compare);
    ExamplePartition(s);
  }

  lemma {:induction false} ExampleEqual(s: seq<CostKey>, k: nat)
    requires |s| == 7 && k < 4 && s[k] == At(2) && Regions(Parts(s, k, k, 6, 6), At(2), Compare)
    ensures Regions(Parts(s, k + 1, k + 1, 6, 6), At(2), Compare)
    ensures ScanUp(Parts(s, k, k, 6, 6), At(2), Compare) == ScanUp(Parts(s, k + 1, k + 1, 6, 6), At(2), Compare)
  {
    hide Regions, ScanUp, Compare;
    assert Swap(s, k, k) == s;
    CompareAt(2, 2);
    DumpSort.ScanUpStep(Parts(s, k, k, 6, 6), At(2), Compare);
  }

  lemma {:induction false} ExampleScans(s: seq<CostKey>)
    requires s == TIED && Regions(Parts(s, 4, 4, 6, 6), At(2), Compare)
    ensures var p := Parts(s, 4, 5, 6, 6);
      && Regions(p, At(2), Compare) && ScanUp(Parts(s, 4, 4, 6, 6), At(2), Compare) == p
      && ScanDown(p, At(2), Compare) == Parts(s, 4, 5, 4, 6)
  {
    hide Regions, ScanUp, ScanDown, Compare;
    assert s[4] == At(1) && s[5] == At(3) && s[6] == At(4);
    CompareAt(1, 2);
    CompareAt(3, 2);
    CompareAt(4, 2);
    DumpSort.ScanUpStep(Parts(s, 4, 4, 6, 6), At(2), Compare);
    DumpSort.ScanUpStops(Parts(s, 4, 5, 6, 6), At(2), Compare);
    DumpSort.ScanDownStep(Parts(s, 4, 5, 6, 6), At(2), Compare);
    DumpSort.ScanDownStep(Parts(s, 4, 5, 5, 6), At(2), Compare);
    DumpSort.ScanDownStops(Parts(s, 4, 5, 4, 6), At(2), Compare);
  }

  lemma {:induction false} ExamplePartition(s: seq<CostKey>)
    requires s == TIED
    ensures Partitioned(s, Compare).pa == 4 && Partitioned(s, Compare).low == 1
  {
    hide Flip, Regions, Split, ScanUp, ScanDown, Compare;
    assert s[Pivot(s, Compare)] == At(2);
    DumpSort.StartRegions(Parts(s, 0, 0, 6, 6), At(2), Compare);
    ExampleEqual(s, 0);
    ExampleEqual(s, 1);
    ExampleEqual(s, 2);
    ExampleEqual(s, 3);
    ExampleScans(s);
    DumpSort.SplitStep(Parts(s, 0, 0, 6, 6), At(2), Compare);
  }

  // ----- when the narrowed comparison is good enough

  /** The sort puts every array of different cost centres from `m` in order. */
  ghost predicate SortsAll(m: set<CostKey>)
    requires Reflexive(CompareInt)
  {
    forall s: seq<CostKey> :: (forall x :: x in s ==> x in m) && AllDifferent(s) ==>
      Sorted(QsortSpec.Qsort(s, CompareInt), Compare)
  }

  /** It does so exactly if the signs of all comparisons between them survive. */
  lemma {:induction false} SortsAllIff(m: set<CostKey>)
    requires forall x, y :: x in m && y in m ==>
      forall f, g :: f in x.callers && g in y.callers && f.fn == g.fn ==> f == g
    ensures Reflexive(CompareInt) && (SortsAll(m) <==> forall x, y :: x in m && y in m ==> Kept(Compare(x, y)))
  {
    BothReflexive();
    if forall x, y :: x in m && y in m ==> Kept(Compare(x, y)) {
      forall s: seq<CostKey> | (forall x :: x in s ==> x in m) && AllDifferent(s)
        ensures Sorted(QsortSpec.Qsort(s, CompareInt), Compare)
      {
        assert SignsKept(s) && OneFileEach(s);
        SortedForDump(s);
      }
    }
    if SortsAll(m) {
      forall x, y | x in m && y in m ensures Kept(Compare(x, y)) {
        if !Kept(Compare(x, y)) { var s := PairMisfits(x, y); }
      }
    }
  }

  /** Two cost centres whose comparison changes its sign stay in the wrong order. */
  lemma {:induction false} PairMisfits(x: CostKey, y: CostKey) returns (s: seq<CostKey>)
    requires !Kept(Compare(x, y)) && Reflexive(CompareInt)
    ensures (s == [x, y] || s == [y, x]) && AllDifferent(s) && !Sorted(QsortSpec.Qsort(s, CompareInt), Compare)
  {
    ChainOpposite(x, y, 1);
    assert Compare(y, x) == -Compare(x, y) && Compare(x, y) != 0 == Compare(x, x) by { CompareIsOrder(); }
    KeptIff(Compare(x, y));
    if Compare(x, y) < 0 { NarrowOpposite(Compare(x, y)); }
    hide Narrow, Kept, Compare, QsortSpec.Qsort;
    s := if Compare(x, y) > 0 then [x, y] else [y, x];
    PairStays(s, CompareInt);
  }

  lemma {:induction false} NarrowOpposite(d: int)
    requires Narrow(d) >= 0
    ensures Narrow(-d) == -Narrow(d)
  {
    var h := INT_RANGE / 2;
    var q := (d + h) / INT_RANGE;
    Divided(-d + h, INT_RANGE, -q, h - Narrow(d));
  }

  lemma {:induction false} PairStays<T(!new)>(s: seq<T>, cmp: (T, T) -> int)
    requires |s| == 2 && Reflexive(cmp) && cmp(s[0], s[1]) <= 0
    ensures QsortSpec.Qsort(s, cmp) == s
  {
    assert Sink(s, 1, cmp) == s && Isort(s, 2, cmp) == s;
  }

  // ----- no order at all

  /** Code that belongs to no object file has its address as offset, and so its blocks can be far
      apart in one function. */
  const FAR := [At(0x1000_0000), At(0x7000_0000), At(0xD000_0000)]

  lemma {:induction false} FarCircle()
    ensures CompareInt(FAR[1], FAR[0]) > 0 && CompareInt(FAR[2], FAR[1]) > 0 && CompareInt(FAR[0], FAR[2]) > 0
  {
    CompareAt(0x7000_0000, 0x1000_0000);
    CompareAt(0xD000_0000, 0x7000_0000);
    CompareAt(0x1000_0000, 0xD000_0000);
  }

  lemma {:induction false} Found<T>(s: seq<T>, x: T) returns (i: nat)
    requires x in multiset(s)
    ensures i < |s| && s[i] == x
  {
    i :| 0 <= i < |s| && s[i] == x;
  }

  /** The comparison goes round in a circle, so that no sort could put these in order. */
  lemma {:induction false} NoOrderFits(s: seq<CostKey>)
    requires multiset(s) == multiset(FAR)
    ensures AllDifferent(FAR) && OneFileEach(FAR) && !Sorted(s, CompareInt)
  {
    FarCircle();
    NoCallers(FAR);
    assert FAR[0] != FAR[1] && FAR[1] != FAR[2] && FAR[0] != FAR[2] && |FAR| == 3;
    assert FAR[0] in multiset(FAR) && FAR[1] in multiset(FAR) && FAR[2] in multiset(FAR);
    hide *;
    var i := Found(s, FAR[0]);
    var j := Found(s, FAR[1]);
    var k := Found(s, FAR[2]);
    NoCircle(s, i, j, k, CompareInt);
    AllDifferentThree(FAR);
  }

  lemma {:induction false} AllDifferentThree<T>(s: seq<T>)
    requires |s| == 3 && s[0] != s[1] && s[1] != s[2] && s[0] != s[2]
    ensures AllDifferent(s)
  {}

  lemma {:induction false} NoCircle<T>(s: seq<T>, i: nat, j: nat, k: nat, cmp: (T, T) -> int)
    requires i < |s| && j < |s| && k < |s| && i != j && j != k && i != k
    requires cmp(s[j], s[i]) > 0 && cmp(s[k], s[j]) > 0 && cmp(s[i], s[k]) > 0
    ensures !Sorted(s, cmp)
  {}
}
