/** The sort looks at nothing but the signs of the comparisons between its own elements. */
module QsortAgree {
  import opened QsortSpec

  /** Two comparisons that say the same about the elements of `m`. */
  ghost predicate Agree<T(!new)>(m: multiset<T>, c: (T, T) -> int, d: (T, T) -> int) {
    forall x, y :: x in m && y in m ==> (c(x, y) < 0 <==> d(x, y) < 0) && (c(x, y) > 0 <==> d(x, y) > 0)
  }

  lemma {:induction false} AgreeAt<T(!new)>(s: seq<T>, i: int, v: T, c: (T, T) -> int, d: (T, T) -> int)
    requires 0 <= i < |s| && v in multiset(s) && Agree(multiset(s), c, d)
    ensures (c(s[i], v) < 0 <==> d(s[i], v) < 0) && (c(s[i], v) > 0 <==> d(s[i], v) > 0)
  {
    assert s[i] in multiset(s);
  }

  lemma {:induction false} AgreeOnPart<T(!new)>(s: seq<T>, i: nat, j: nat, c: (T, T) -> int, d: (T, T) -> int)
    requires i <= j <= |s| && Agree(multiset(s), c, d)
    ensures Agree(multiset(s[i..j]), c, d)
  {
    forall x | x in multiset(s[i..j]) ensures x in multiset(s) {
      var k :| 0 <= k < j - i && s[i..j][k] == x;
      assert s[i + k] == x;
    }
  }

  lemma {:induction false} SinkAgrees<T(!new)>(s: seq<T>, l: nat, c: (T, T) -> int, d: (T, T) -> int)
    requires l < |s| && Agree(multiset(s), c, d)
    ensures Sink(s, l, c) == Sink(s, l, d)
    decreases l
  {
    if l > 0 {
      AgreeAt(s, l - 1, s[l], c, d);
      hide Agree;
      if c(s[l - 1], s[l]) > 0 { SinkAgrees(Swap(s, l, l - 1), l - 1, c, d); }
    }
  }

  lemma {:induction false} IsortAgrees<T(!new)>(s: seq<T>, m: nat, c: (T, T) -> int, d: (T, T) -> int)
    requires Agree(multiset(s), c, d)
    ensures Isort(s, m, c) == Isort(s, m, d)
    decreases |s| - m
  {
    hide Agree;
    if m < |s| {
      SinkAgrees(s, m, c, d);
      IsortAgrees(Sink(s, m, c), m + 1, c, d);
    }
  }

  lemma {:induction false} Med3Agrees<T(!new)>(s: seq<T>, i: nat, j: nat, k: nat, c: (T, T) -> int, d: (T, T) -> int)
    requires i < |s| && j < |s| && k < |s| && Agree(multiset(s), c, d)
    ensures Med3(s, i, j, k, c) == Med3(s, i, j, k, d)
  {
    AgreeAt(s, i, s[j], c, d);
    AgreeAt(s, j, s[k], c, d);
    AgreeAt(s, i, s[k], c, d);
  }

  lemma {:induction false} PivotAgrees<T(!new)>(s: seq<T>, c: (T, T) -> int, d: (T, T) -> int)
    requires |s| >= 7 && Agree(multiset(s), c, d)
    ensures Pivot(s, c) == Pivot(s, d)
  {
    hide Agree, Med3;
    var n, e := |s|, |s| / 8;
    if n > 40 {
      Med3Agrees(s, 0, e, 2 * e, c, d);
      Med3Agrees(s, n / 2 - e, n / 2, n / 2 + e, c, d);
      Med3Agrees(s, n - 1 - 2 * e, n - 1 - e, n - 1, c, d);
      Med3Agrees(s, Med3(s, 0, e, 2 * e, c), Med3(s, n / 2 - e, n / 2, n / 2 + e, c),
                 Med3(s, n - 1 - 2 * e, n - 1 - e, n - 1, c), c, d);
    } else if n > 7 {
      Med3Agrees(s, 0, n / 2, n - 1, c, d);
    }
  }

  lemma {:induction false} RegionsAgree<T(!new)>(p: Parts<T>, v: T, c: (T, T) -> int, d: (T, T) -> int)
    requires Agree(multiset(p.s), c, d) && v in multiset(p.s) && Regions(p, v, c)
    ensures Regions(p, v, d)
  {
    forall k | 0 <= k < |p.s|
      ensures (c(p.s[k], v) < 0 <==> d(p.s[k], v) < 0) && (c(p.s[k], v) > 0 <==> d(p.s[k], v) > 0)
    {
      AgreeAt(p.s, k, v, c, d);
    }
  }

  lemma {:induction false} ScanUpAgrees<T(!new)>(p: Parts<T>, v: T, c: (T, T) -> int, d: (T, T) -> int)
    requires Agree(multiset(p.s), c, d) && v in multiset(p.s) && Regions(p, v, c)
    ensures Regions(p, v, d) && ScanUp(p, v, c) == ScanUp(p, v, d)
    decreases p.pc - p.pb
  {
    RegionsAgree(p, v, c, d);
    if p.pb <= p.pc {
      assert 0 <= p.pb < |p.s|;
      AgreeAt(p.s, p.pb, v, c, d);
      hide Agree, Regions;
      if c(p.s[p.pb], v) == 0 {
        ScanUpAgrees(EqualUp(p, v, c), v, c, d);
      } else if c(p.s[p.pb], v) < 0 {
        ScanUpAgrees(LessUp(p, v, c), v, c, d);
      }
    }
  }

  lemma {:induction false} ScanDownAgrees<T(!new)>(p: Parts<T>, v: T, c: (T, T) -> int, d: (T, T) -> int)
    requires Agree(multiset(p.s), c, d) && v in multiset(p.s) && Regions(p, v, c)
    ensures Regions(p, v, d) && ScanDown(p, v, c) == ScanDown(p, v, d)
    decreases p.pc - p.pb
  {
    RegionsAgree(p, v, c, d);
    if p.pb <= p.pc {
      assert 0 <= p.pc < |p.s|;
      AgreeAt(p.s, p.pc, v, c, d);
      hide Agree, Regions;
      if c(p.s[p.pc], v) == 0 {
        ScanDownAgrees(EqualDown(p, v, c), v, c, d);
      } else if c(p.s[p.pc], v) > 0 {
        ScanDownAgrees(GreaterDown(p, v, c), v, c, d);
      }
    }
  }

  lemma {:induction false} SplitAgrees<T(!new)>(p: Parts<T>, v: T, c: (T, T) -> int, d: (T, T) -> int)
    requires Agree(multiset(p.s), c, d) && v in multiset(p.s) && Regions(p, v, c)
    ensures Regions(p, v, d) && Split(p, v, c) == Split(p, v, d)
    decreases p.pc - p.pb
  {
    hide Agree, Regions, ScanUp, ScanDown;
    ScanUpAgrees(p, v, c, d);
    var u := ScanUp(p, v, c);
    ScanDownAgrees(u, v, c, d);
    var w := ScanDown(u, v, c);
    if w.pb <= w.pc { SplitAgrees(Exchange(w, v, c), v, c, d); }
  }

  lemma {:induction false} PartitionedAgrees<T(!new)>(s: seq<T>, c: (T, T) -> int, d: (T, T) -> int)
    requires |s| >= 7 && Agree(multiset(s), c, d)
    ensures Partitioned(s, c) == Partitioned(s, d)
  {
    hide Agree, Split, Pivot, Flip;
    PivotAgrees(s, c, d);
    SplitAgrees(Parts(s, 0, 0, |s| - 1, |s| - 1), s[Pivot(s, c)], c, d);
  }

  /** One level of the sort: the two parts that are sorted next, what is between them, and whether the
      left block swap fits. */
  ghost predicate Level<T(!new)>(s: seq<T>, cmp: (T, T) -> int, low: seq<T>, mid: seq<T>, high: seq<T>, fits: bool)
    requires Reflexive(cmp)
  {
    && Qsort(s, cmp) == Qsort(low, cmp) + mid + Qsort(high, cmp)
    && (SwapsFit(s, cmp) <==> fits && SwapsFit(low, cmp) && SwapsFit(high, cmp))
  }

  lemma {:induction false} LevelOf<T(!new)>(s: seq<T>, cmp: (T, T) -> int)
    requires |s| >= 7 && Reflexive(cmp)
    ensures var p := Partitioned(s, cmp); var j := |s| - p.high;
      && |p.t| == |s| && p.low <= j && p.low + p.high < |s| && multiset(p.t) == multiset(s)
      && Level(s, cmp, p.t[..p.low], p.t[p.low..j], p.t[j..], p.pa <= p.low || p.low == 0)
  {
    hide Partitioned;
    PivotLeftOut(s, cmp);
  }

  lemma {:induction false} LevelsAgree<T(!new)>(s: seq<T>, c: (T, T) -> int, d: (T, T) -> int)
      returns (low: seq<T>, mid: seq<T>, high: seq<T>, fits: bool)
    requires |s| >= 7 && Reflexive(c) && Reflexive(d) && Agree(multiset(s), c, d)
    ensures |low| < |s| && |high| < |s| && Agree(multiset(low), c, d) && Agree(multiset(high), c, d)
    ensures Level(s, c, low, mid, high, fits) && Level(s, d, low, mid, high, fits)
  {
    hide *;
    LevelOf(s, c);
    LevelOf(s, d);
    PartitionedAgrees(s, c, d);
    var p := Partitioned(s, c);
    var j := |s| - p.high;
    AgreeOnPart(p.t, 0, p.low, c, d);
    AgreeOnPart(p.t, j, |s|, c, d);
    low, mid, high, fits := p.t[..p.low], p.t[p.low..j], p.t[j..], p.pa <= p.low || p.low == 0;
    assert p.t[0..p.low] == low && p.t[j..|s|] == high;
  }

  lemma {:induction false} ShortAgrees<T(!new)>(s: seq<T>, c: (T, T) -> int, d: (T, T) -> int)
    requires |s| < 7 && Reflexive(c) && Reflexive(d) && Agree(multiset(s), c, d)
    ensures Qsort(s, c) == Qsort(s, d) && (SwapsFit(s, c) <==> SwapsFit(s, d))
  {
    hide Agree, Isort;
    IsortAgrees(s, 1, c, d);
  }

  /** The result of the sort, and whether its block swaps fit, are the same for both. */
  lemma {:induction false} QsortAgrees<T(!new)>(s: seq<T>, c: (T, T) -> int, d: (T, T) -> int)
    requires Reflexive(c) && Reflexive(d) && Agree(multiset(s), c, d)
    ensures Qsort(s, c) == Qsort(s, d) && (SwapsFit(s, c) <==> SwapsFit(s, d))
    decreases |s|
  {
    hide *;
    if |s| < 7 {
      ShortAgrees(s, c, d);
    } else {
      var low, mid, high, fits := LevelsAgree(s, c, d);
      QsortAgrees(low, c, d);
      QsortAgrees(high, c, d);
      LevelGives(s, c, d, low, mid, high, fits);
    }
  }

  lemma {:induction false} LevelGives<T(!new)>(s: seq<T>, c: (T, T) -> int, d: (T, T) -> int,
                                               low: seq<T>, mid: seq<T>, high: seq<T>, fits: bool)
    requires Reflexive(c) && Reflexive(d) && Level(s, c, low, mid, high, fits) && Level(s, d, low, mid, high, fits)
    requires Qsort(low, c) == Qsort(low, d) && (SwapsFit(low, c) <==> SwapsFit(low, d))
    requires Qsort(high, c) == Qsort(high, d) && (SwapsFit(high, c) <==> SwapsFit(high, d))
    ensures Qsort(s, c) == Qsort(s, d) && (SwapsFit(s, c) <==> SwapsFit(s, d))
  {
    hide Qsort, SwapsFit, Reflexive;
  }

  lemma {:induction false} SortedAgrees<T(!new)>(s: seq<T>, c: (T, T) -> int, d: (T, T) -> int)
    requires Agree(multiset(s), c, d)
    ensures Sorted(s, c) <==> Sorted(s, d)
  {
    forall i, j | 0 <= i < j < |s| ensures c(s[i], s[j]) <= 0 <==> d(s[i], s[j]) <= 0 { AgreeAt(s, i, s[j], c, d); }
  }
}
