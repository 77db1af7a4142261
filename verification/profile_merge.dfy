/** Merging profiles: counts are added line by line, and nothing is lost or counted twice. */
module ProfileMerge {
  import opened Wrappers
  import opened Costs
  import opened ProfileText
  import opened Profile
  import opened ProfileRoundtrip

  function MergeInner(a: Inner, b: Inner, n: nat): Inner {
    map l | l in a.Keys + b.Keys :: if l !in a then b[l] else if l !in b then a[l] else Added(n, a[l], b[l])
  }

  function MergeLines(a: Outer, b: Outer, n: nat): Outer {
    map k | k in a.Keys + b.Keys :: if k !in a then b[k] else if k !in b then a[k] else MergeInner(a[k], b[k], n)
  }

  /** The profile after merging `src` into `dst`; only profiles of the same events can be merged. The
      description and the command stay those of `dst`. */
  function Merge(dst: CacheProf, src: CacheProf): Option<CacheProf> {
    if dst.events != src.events then None
    else
      Some(dst.(lines := MergeLines(dst.lines, src.lines, dst.nEvents),
                summary := Added(dst.nEvents, dst.summary, src.summary)))
  }

  /** The count of event `e` in a line; zero where there is none. */
  function CountOf(lines: Outer, k: FileFn, l: Counter, e: nat): Counter {
    if k in lines && l in lines[k] then At(lines[k][l], e) else 0
  }

  /** Merging adds up every count of every line of every function, modulo 2^64. */
  lemma {:induction false} MergeAdds(a: Outer, b: Outer, n: nat, k: FileFn, l: Counter, e: nat)
    requires e < n
    ensures CountOf(MergeLines(a, b, n), k, l, e) == Wrap(CountOf(a, k, l, e) + CountOf(b, k, l, e))
    ensures var r := MergeLines(a, b, n);
      (k in r && l in r[k]) <==> (k in a && l in a[k]) || (k in b && l in b[k])
  {}

  lemma {:induction false} WithoutOne<K, V>(b: map<K, V>, k: K)
    requires k in b
    ensures var rest := b - {k}; b == rest[k := b[k]] && |rest| < |b| && k !in rest
  {
    assert (b - {k}).Keys == b.Keys - {k};
  }

  lemma {:induction false} MergeInnerStep(a: Inner, b: Inner, n: nat, l: Counter)
    requires l in b
    ensures MergeInner(a, b, n) == MergeInner(a, b - {l}, n)[l := if l in a then Added(n, a[l], b[l]) else b[l]]
    ensures l in MergeInner(a, b - {l}, n) <==> l in a
    ensures l in a ==> MergeInner(a, b - {l}, n)[l] == a[l]
  {
    hide Added;
  }

  lemma {:induction false} MergeLinesStep(a: Outer, b: Outer, n: nat, k: FileFn)
    requires k in b
    ensures MergeLines(a, b, n) == MergeLines(a, b - {k}, n)[k := if k in a then MergeInner(a[k], b[k], n) else b[k]]
    ensures k in MergeLines(a, b - {k}, n) <==> k in a
    ensures k in a ==> MergeLines(a, b - {k}, n)[k] == a[k]
  {
    hide MergeInner;
  }

  /** Replacing a part `before` of a total by `before + y` adds `y` to the total. */
  lemma {:induction false} Replaced(x: int, before: int, after: int, y: int, total: int)
    requires Wrap(after) == Wrap(before + y) && Wrap(x) == Wrap(total)
    ensures Wrap(x - before + after) == Wrap(total + y)
  {
    hide Wrap;
    SameWrap(after, before + y, x - before);
    SameWrap(x, total, y);
  }

  lemma {:induction false} MergeNothing(a: Inner, o: Outer, n: nat)
    ensures MergeInner(a, map[], n) == a && MergeLines(o, map[], n) == o
  {}

  lemma {:induction false} MergeEmptyTotal(a: Inner, b: Inner, o: Outer, q: Outer, n: nat, e: nat)
    requires |b| == |q| == 0
    ensures Wrap(InnerTotal(MergeInner(a, b, n), e)) == Wrap(InnerTotal(a, e) + InnerTotal(b, e))
    ensures Wrap(Total(MergeLines(o, q, n), e)) == Wrap(Total(o, e) + Total(q, e))
  {
    hide *;
    IsEmpty(b);
    IsEmpty(q);
    MergeNothing(a, o, n);
    EmptyTotal(e);
  }

  lemma {:induction false} IsEmpty<K, V>(b: map<K, V>)
    requires |b| == 0
    ensures b == map[]
  {}

  lemma {:induction false} SomeKey<K, V>(b: map<K, V>) returns (k: K)
    requires |b| > 0
    ensures k in b
  {
    assert b.Keys != {};
    k :| k in b.Keys;
  }

  /** What one more line of the source adds. */
  lemma {:induction false} InnerStepTotals(a: Inner, b: Inner, n: nat, e: nat, l: Counter)
      returns (old': int, new': int)
    requires l in b && e < n
    ensures InnerTotal(MergeInner(a, b, n), e) == InnerTotal(MergeInner(a, b - {l}, n), e) - old' + new'
    ensures InnerTotal(b, e) == InnerTotal(b - {l}, e) + At(b[l], e)
    ensures Wrap(new') == Wrap(old' + At(b[l], e))
  {
    hide InnerTotal, Wrap, MergeInner;
    WithoutOne(b, l);
    MergeInnerStep(a, b, n, l);
    var c := if l in a then Added(n, a[l], b[l]) else b[l];
    InnerTotalUpdate(MergeInner(a, b - {l}, n), l, c, e);
    InnerTotalUpdate(b - {l}, l, b[l], e);
    AddedAt(n, a, b, l, e);
    old', new' := if l in a then At(a[l], e) else 0, At(c, e);
  }

  lemma {:induction false} MergeInnerTotal(a: Inner, b: Inner, n: nat, e: nat)
    requires e < n
    ensures Wrap(InnerTotal(MergeInner(a, b, n), e)) == Wrap(InnerTotal(a, e) + InnerTotal(b, e))
    decreases |b|
  {
    hide *;
    if |b| == 0 {
      MergeEmptyTotal(a, b, map[], map[], n, e);
    } else {
      var l := SomeKey(b);
      WithoutOne(b, l);
      MergeInnerTotal(a, b - {l}, n, e);
      var old', new' := InnerStepTotals(a, b, n, e, l);
      Replaced(InnerTotal(MergeInner(a, b - {l}, n), e), old', new', At(b[l], e),
        InnerTotal(a, e) + InnerTotal(b - {l}, e));
    }
  }

  lemma {:induction false} AddedAt(n: nat, a: Inner, b: Inner, l: Counter, e: nat)
    requires e < n && l in b
    ensures if l in a then Wrap(At(Added(n, a[l], b[l]), e)) == Wrap(At(a[l], e) + At(b[l], e))
      else Wrap(At(b[l], e)) == Wrap(0 + At(b[l], e))
  {
    if l in a { WrapAdd(At(a[l], e) + At(b[l], e), 0); }
  }

  lemma {:induction false} StepTotals(a: Outer, b: Outer, n: nat, e: nat, k: FileFn) returns (old': int, new': int)
    requires k in b && e < n
    ensures Total(MergeLines(a, b, n), e) == Total(MergeLines(a, b - {k}, n), e) - old' + new'
    ensures Total(b, e) == Total(b - {k}, e) + InnerTotal(b[k], e)
    ensures Wrap(new') == Wrap(old' + InnerTotal(b[k], e))
  {
    hide InnerTotal, Total, Wrap, MergeInner, MergeLines;
    WithoutOne(b, k);
    MergeLinesStep(a, b, n, k);
    var inner := if k in a then MergeInner(a[k], b[k], n) else b[k];
    TotalUpdate(MergeLines(a, b - {k}, n), k, inner, e);
    TotalUpdate(b - {k}, k, b[k], e);
    if k in a { MergeInnerTotal(a[k], b[k], n, e); }
    old', new' := if k in a then InnerTotal(a[k], e) else 0, InnerTotal(inner, e);
  }

  lemma {:induction false} MergeTotal(a: Outer, b: Outer, n: nat, e: nat)
    requires e < n
    ensures Wrap(Total(MergeLines(a, b, n), e)) == Wrap(Total(a, e) + Total(b, e))
    decreases |b|
  {
    hide *;
    if |b| == 0 {
      MergeEmptyTotal(map[], map[], a, b, n, e);
    } else {
      var k := SomeKey(b);
      WithoutOne(b, k);
      MergeTotal(a, b - {k}, n, e);
      var old', new' := StepTotals(a, b, n, e, k);
      Replaced(Total(MergeLines(a, b - {k}, n), e), old', new', InnerTotal(b[k], e), Total(a, e) + Total(b - {k}, e));
    }
  }

  lemma {:induction false} MergeWholeLines(a: Outer, b: Outer, n: nat)
    requires WholeLines(a, n) && WholeLines(b, n)
    ensures WholeLines(MergeLines(a, b, n), n)
  {
    var r := MergeLines(a, b, n);
    forall k | k in r ensures r[k] != map[] {
      if k in a {
        var l :| l in a[k].Keys;
        assert l in r[k];
      }
    }
  }

  /** Merging whole profiles gives a whole profile: its summary is again the sum of its lines. */
  lemma {:induction false} MergeWhole(dst: CacheProf, src: CacheProf)
    requires Whole(dst) && Whole(src) && dst.events == src.events
    ensures Whole(Merge(dst, src).value)
  {
    hide MergeLines, WholeLines, Total, StartsWith, EventCount;
    var n, r := dst.nEvents, Merge(dst, src).value;
    MergeWholeLines(dst.lines, src.lines, n);
    forall e | 0 <= e < n ensures r.summary[e] == Wrap(Total(r.lines, e)) {
      MergeTotal(dst.lines, src.lines, n, e);
      WrapAdd(Total(dst.lines, e), At(src.summary, e));
      WrapAdd(Total(src.lines, e), Total(dst.lines, e));
    }
  }

  /** The order in which files are merged makes no difference to the lines and the summary. */
  lemma {:induction false} MergeCommutes(a: CacheProf, b: CacheProf)
    requires Whole(a) && Whole(b) && a.events == b.events
    ensures Merge(b, a) == Some(Merge(a, b).value.(desc := b.desc, cmd := b.cmd))
  {
    hide Total, StartsWith, EventCount;
    var n := a.nEvents;
    forall k | k in a.lines && k in b.lines
      ensures MergeInner(a.lines[k], b.lines[k], n) == MergeInner(b.lines[k], a.lines[k], n)
    {
      forall l | l in a.lines[k] && l in b.lines[k]
        ensures Added(n, a.lines[k][l], b.lines[k][l]) == Added(n, b.lines[k][l], a.lines[k][l]) {}
    }
    assert MergeLines(a.lines, b.lines, n) == MergeLines(b.lines, a.lines, n);
    assert Added(n, a.summary, b.summary) == Added(n, b.summary, a.summary);
  }

  lemma {:induction false} AddedAssociates(n: nat, a: Cost, b: Cost, c: Cost)
    ensures Added(n, Added(n, a, b), c) == Added(n, a, Added(n, b, c))
  {
    forall e | 0 <= e < n ensures Added(n, Added(n, a, b), c)[e] == Added(n, a, Added(n, b, c))[e] {
      WrapAdd(At(a, e) + At(b, e), At(c, e));
      WrapAdd(At(b, e) + At(c, e), At(a, e));
    }
  }

  lemma {:induction false} MergeInnerAssociates(a: Inner, b: Inner, c: Inner, n: nat)
    ensures MergeInner(MergeInner(a, b, n), c, n) == MergeInner(a, MergeInner(b, c, n), n)
  {
    hide Added;
    var x, y := MergeInner(MergeInner(a, b, n), c, n), MergeInner(a, MergeInner(b, c, n), n);
    forall l | l in x ensures l in y && x[l] == y[l] {
      if l in a && l in b && l in c { AddedAssociates(n, a[l], b[l], c[l]); }
    }
  }

  /** Nor does how the merges are grouped. */
  lemma {:induction false} MergeAssociates(a: Outer, b: Outer, c: Outer, n: nat)
    ensures MergeLines(MergeLines(a, b, n), c, n) == MergeLines(a, MergeLines(b, c, n), n)
  {
    hide MergeInner;
    var x, y := MergeLines(MergeLines(a, b, n), c, n), MergeLines(a, MergeLines(b, c, n), n);
    forall k | k in x ensures k in y && x[k] == y[k] {
      if k in a && k in b && k in c { MergeInnerAssociates(a[k], b[k], c[k], n); }
    }
  }
}
