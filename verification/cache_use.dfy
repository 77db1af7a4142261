/** Cache-use collection: each way's tag carries, in its low bits, a pointer to the slot that holds
    the statistics of its line. Shuffling moves the tags; the slots stay where they are. */
module CacheUse {
  import opened Arithmetic
  import opened LruSet
  import opened CacheSim

  datatype Use = Use(count: nat, mask: bv32)

  /** A resident line with its statistics: the form that has no pointers. */
  datatype Line = Line(tag: nat, memline: nat, use: Use)

  function PtrOf(x: nat, m: nat): (p: nat)
    requires m > 0
    ensures p < m && p <= x
  {
    x % m
  }

  function TagOf(x: nat, m: nat): nat
    requires m > 0
  {
    x - PtrOf(x, m)
  }

  /** The slot pointers of a set are a permutation of 0 to assoc - 1: in range and all different. */
  ghost predicate Permuted(tags: seq<nat>, m: nat)
    requires m > 0
  {
    && (forall k :: 0 <= k < |tags| ==> PtrOf(tags[k], m) < |tags|)
    && (forall j, k :: 0 <= j < k < |tags| ==> PtrOf(tags[j], m) != PtrOf(tags[k], m))
  }

  /** A set read through its pointers. */
  ghost function Lines(tags: seq<nat>, loaded: seq<nat>, use: seq<Use>, m: nat): (r: seq<Line>)
    requires m > 0 && |tags| == |loaded| == |use| && Permuted(tags, m)
    ensures |r| == |tags|
  {
    seq(|tags|, k requires 0 <= k < |tags| =>
      var p := PtrOf(tags[k], m); Line(TagOf(tags[k], m), loaded[p], use[p]))
  }

  function LineTags(lines: seq<Line>): (r: seq<nat>)
    ensures |r| == |lines| && forall k :: 0 <= k < |lines| ==> r[k] == lines[k].tag
  {
    seq(|lines|, k requires 0 <= k < |lines| => lines[k].tag)
  }

  /** The pointer-free step: a hit line moves to the front with its statistics; a miss replaces the last line. */
  function Refer(lines: seq<Line>, tag: nat, memline: nat): (r: seq<Line>)
    requires lines != []
    ensures |r| == |lines|
  {
    var i := Index(LineTags(lines), tag);
    if i < |lines| then MoveFront(lines, i, lines[i])
    else MoveFront(lines, |lines| - 1, Line(tag, memline, Use(0, 0)))
  }

  /** The parts in one mask or in the other. */
  function Union(a: bv32, b: bv32): bv32 { a | b }

  lemma {:induction false} UnionOfNone(b: bv32)
    ensures Union(0, b) == b
  {}

  /** One more use of a line, of the parts that `mask` says. */
  function Used(u: Use, mask: bv32): Use { Use(u.count + 1, Union(u.mask, mask)) }

  function Count(lines: seq<Line>, mask: bv32): (r: seq<Line>)
    requires lines != []
  {
    lines[0 := lines[0].(use := Used(lines[0].use, mask))]
  }

  lemma {:induction false} Unpack(tag: nat, p: nat, m: nat)
    requires m > 0 && tag % m == 0 && p < m
    ensures PtrOf(tag + p, m) == p && TagOf(tag + p, m) == tag
  {
    var q := tag / m;
    assert tag + p == m * q + p;
    Divided(tag + p, m, q, p);
  }

  /** Shuffling packed tags keeps the pointers a permutation if the front entry brings the pointer
      of the entry it replaces. */
  lemma {:induction false} ShufflePermuted(tags: seq<nat>, i: nat, x: nat, m: nat)
    requires m > 0 && i < |tags| && Permuted(tags, m) && PtrOf(x, m) == PtrOf(tags[i], m)
    ensures Permuted(MoveFront(tags, i, x), m)
  {
    var r := MoveFront(tags, i, x);
    forall j, k | 0 <= j < k < |r| ensures PtrOf(r[j], m) != PtrOf(r[k], m) {
      var k' := if k <= i then k - 1 else k;
      var j' := if j == 0 then i else if j <= i then j - 1 else j;
      assert r[k] == tags[k'] && k' != j';
      assert PtrOf(r[j], m) == PtrOf(tags[j'], m);
    }
  }

  lemma {:induction false} ShuffleLines(tags: seq<nat>, loaded: seq<nat>, use: seq<Use>, i: nat, m: nat)
    requires m > 0 && |tags| == |loaded| == |use| && Permuted(tags, m) && i < |tags|
    ensures Permuted(MoveFront(tags, i, tags[i]), m)
    ensures Lines(MoveFront(tags, i, tags[i]), loaded, use, m)
      == var l := Lines(tags, loaded, use, m); MoveFront(l, i, l[i])
  {
    ShufflePermuted(tags, i, tags[i], m);
    var l := Lines(tags, loaded, use, m);
    var a, b := Lines(MoveFront(tags, i, tags[i]), loaded, use, m), MoveFront(l, i, l[i]);
    forall k | 0 <= k < |a| ensures a[k] == b[k] {}
    assert a == b;
  }

  lemma {:induction false} InstallLines(tags: seq<nat>, loaded: seq<nat>, use: seq<Use>, tag: nat, memline: nat, m: nat)
    requires m > 0 && |tags| == |loaded| == |use| > 0 && Permuted(tags, m) && tag % m == 0
    ensures var n := |tags| - 1; var p := PtrOf(tags[n], m); var tags' := MoveFront(tags, n, tag + p);
      && Permuted(tags', m)
      && Lines(tags', loaded[p := memline], use[p := Use(0, 0)], m)
         == MoveFront(Lines(tags, loaded, use, m), n, Line(tag, memline, Use(0, 0)))
  {
    var n := |tags| - 1;
    var p := PtrOf(tags[n], m);
    Unpack(tag, p, m);
    ShufflePermuted(tags, n, tag + p, m);
    var l := Lines(tags, loaded, use, m);
    var a := Lines(MoveFront(tags, n, tag + p), loaded[p := memline], use[p := Use(0, 0)], m);
    var b := MoveFront(l, n, Line(tag, memline, Use(0, 0)));
    forall k | 0 <= k < |a| ensures a[k] == b[k] {
      if k > 0 { assert PtrOf(tags[k - 1], m) != p; }
    }
    assert a == b;
  }

  lemma {:induction false} CountLines(tags: seq<nat>, loaded: seq<nat>, use: seq<Use>, mask: bv32, m: nat)
    requires m > 0 && |tags| == |loaded| == |use| > 0 && Permuted(tags, m)
    ensures var p := PtrOf(tags[0], m);
      Lines(tags, loaded, use[p := Used(use[p], mask)], m) == Count(Lines(tags, loaded, use, m), mask)
  {
    hide Used;
    var p := PtrOf(tags[0], m);
    var a := Lines(tags, loaded, use[p := Used(use[p], mask)], m);
    var b := Count(Lines(tags, loaded, use, m), mask);
    forall k | 0 <= k < |a| ensures a[k] == b[k] {
      if k > 0 { assert PtrOf(tags[0], m) != PtrOf(tags[k], m); }
    }
    assert a == b;
  }

  // ----- what the simple form promises

  /** Collecting use statistics does not change which references hit. */
  lemma {:induction false} SameHits(lines: seq<Line>, tag: nat, memline: nat)
    requires lines != []
    ensures LineTags(Refer(lines, tag, memline)) == Touch(LineTags(lines), tag)
  {
    var a, b := LineTags(Refer(lines, tag, memline)), Touch(LineTags(lines), tag);
    forall k | 0 <= k < |a| ensures a[k] == b[k] {}
    assert a == b;
  }

  /** Every line's recorded memory line carries the line's own tag. */
  ghost predicate Consistent(lines: seq<Line>, m: nat)
    requires m > 0
  {
    forall k :: 0 <= k < |lines| ==> TagOf(lines[k].memline, m) == lines[k].tag
  }

  lemma {:induction false} ReferConsistent(lines: seq<Line>, tag: nat, memline: nat, mask: bv32, m: nat)
    requires m > 0 && lines != [] && Consistent(lines, m) && TagOf(memline, m) == tag
    ensures Consistent(Refer(lines, tag, memline), m)
    ensures Consistent(Count(Refer(lines, tag, memline), mask), m)
  {}

  function Total(lines: seq<Line>): nat {
    if lines == [] then 0 else lines[0].use.count + Total(lines[1..])
  }

  lemma {:induction false} TotalConcat(a: seq<Line>, b: seq<Line>)
    ensures Total(a + b) == Total(a) + Total(b)
  {
    if a == [] {
      assert a + b == b;
    } else {
      assert (a + b)[1..] == a[1..] + b;
      TotalConcat(a[1..], b);
    }
  }

  lemma {:induction false} TotalMoveFront(lines: seq<Line>, i: nat, x: Line)
    requires i < |lines|
    ensures Total(MoveFront(lines, i, x)) + lines[i].use.count == Total(lines) + x.use.count
  {
    assert lines == lines[..i] + ([lines[i]] + lines[i + 1..]);
    TotalConcat(lines[..i], [lines[i]] + lines[i + 1..]);
    TotalConcat(lines[..i], lines[i + 1..]);
    assert MoveFront(lines, i, x) == [x] + (lines[..i] + lines[i + 1..]);
    TotalConcat([x], lines[..i] + lines[i + 1..]);
    TotalConcat([lines[i]], lines[i + 1..]);
    assert Total([x]) == x.use.count && Total([lines[i]]) == lines[i].use.count;
  }

  /** The uses handed over when a line is thrown out. */
  function Evicted(lines: seq<Line>, tag: nat): nat
    requires lines != []
  {
    if Index(LineTags(lines), tag) < |lines| then 0 else lines[|lines| - 1].use.count
  }

  /** Each reference is counted once: in the line it touches, until that line is thrown out. */
  lemma {:induction false} UsesConserved(lines: seq<Line>, tag: nat, memline: nat, mask: bv32)
    requires lines != []
    ensures Total(Count(Refer(lines, tag, memline), mask)) + Evicted(lines, tag) == Total(lines) + 1
  {
    hide MoveFront;
    var i := Index(LineTags(lines), tag);
    if i < |lines| {
      TotalMoveFront(lines, i, lines[i]);
    } else {
      TotalMoveFront(lines, |lines| - 1, Line(tag, memline, Use(0, 0)));
    }
    var r := Refer(lines, tag, memline);
    assert Count(r, mask)[1..] == r[1..];
  }

  // ----- whole runs

  datatype Access = Access(tag: nat, memline: nat, mask: bv32)

  function AccessTags(trace: seq<Access>): (r: seq<nat>)
    ensures |r| == |trace| && forall k :: 0 <= k < |trace| ==> r[k] == trace[k].tag
  {
    seq(|trace|, k requires 0 <= k < |trace| => trace[k].tag)
  }

  function RunUse(lines: seq<Line>, trace: seq<Access>): (r: seq<Line>)
    requires lines != []
    ensures |r| == |lines|
  {
    if trace == [] then lines
    else
      var a := trace[|trace| - 1];
      Count(Refer(RunUse(lines, trace[..|trace| - 1]), a.tag, a.memline), a.mask)
  }

  /** The uses handed over by all lines thrown out on the way. */
  function HandedOver(lines: seq<Line>, trace: seq<Access>): nat
    requires lines != []
  {
    if trace == [] then 0
    else
      var before := trace[..|trace| - 1];
      HandedOver(lines, before) + Evicted(RunUse(lines, before), trace[|trace| - 1].tag)
  }

  /** Over every run of a set: it hits as the plain cache does, every line's statistics belong to the
      line, and every reference is counted exactly once, in a line still there or in one thrown out. */
  lemma {:induction false} RunUseCounts(lines: seq<Line>, trace: seq<Access>, m: nat)
    requires m > 0 && lines != [] && Consistent(lines, m)
    requires forall k :: 0 <= k < |trace| ==> TagOf(trace[k].memline, m) == trace[k].tag
    ensures LineTags(RunUse(lines, trace)) == LruSet.Run(LineTags(lines), AccessTags(trace))
    ensures Consistent(RunUse(lines, trace), m)
    ensures Total(RunUse(lines, trace)) + HandedOver(lines, trace) == Total(lines) + |trace|
    decreases |trace|
  {
    if trace != [] {
      hide Refer, Count, Touch, TagOf, Total, Evicted;
      var n := |trace| - 1;
      var a := trace[n];
      RunUseCounts(lines, trace[..n], m);
      var r := RunUse(lines, trace[..n]);
      SameHits(r, a.tag, a.memline);
      CountKeepsTags(Refer(r, a.tag, a.memline), a.mask);
      ReferConsistent(r, a.tag, a.memline, a.mask, m);
      UsesConserved(r, a.tag, a.memline, a.mask);
      assert AccessTags(trace)[..n] == AccessTags(trace[..n]);
    }
  }

  lemma {:induction false} CountKeepsTags(lines: seq<Line>, mask: bv32)
    requires lines != []
    ensures LineTags(Count(lines, mask)) == LineTags(lines)
  {}

  // ----- whose statistics

  datatype Statistics = Statistics(count: nat, mask: bv32, memline: nat)

  /** The statistics of a tag as the trace gives them: how many references there were to it since the one
      that last missed, the parts that these used, and the memory line of the one that missed. Whether a
      reference misses is told by the plain cache. */
  function Since(start: seq<nat>, trace: seq<Access>, tag: nat): Statistics
    requires start != []
  {
    if trace == [] then Statistics(0, 0, 0)
    else
      var before, a := trace[..|trace| - 1], trace[|trace| - 1];
      if a.tag != tag then Since(start, before, tag)
      else if tag in LruSet.Run(start, AccessTags(before)) then
        var s := Since(start, before, tag);
        s.(count := s.count + 1, mask := Union(s.mask, a.mask))
      else Statistics(1, a.mask, a.memline)
  }

  function StatisticsOf(l: Line): Statistics { Statistics(l.use.count, l.use.mask, l.memline) }

  /** Every line that a reference brought in has the statistics of its own tag, and no other line has
      that tag. */
  ghost predicate Attributed(start: seq<nat>, trace: seq<Access>, lines: seq<Line>)
    requires start != []
  {
    && (forall k :: 0 <= k < |lines| && lines[k].tag !in start ==>
          StatisticsOf(lines[k]) == Since(start, trace, lines[k].tag))
    && (forall j, k :: 0 <= j < |lines| && 0 <= k < |lines| && j != k && lines[j].tag !in start ==>
          lines[j].tag != lines[k].tag)
  }

  /** Where the lines come from that a reference leaves. */
  function From(i: nat, n: nat, k: nat): int {
    if i < n then (if k <= i then k - 1 else k) else k - 1
  }

  lemma {:induction false} ReferAt(lines: seq<Line>, a: Access, k: nat)
    requires k < |lines|
    ensures var r, i := Count(Refer(lines, a.tag, a.memline), a.mask), Index(LineTags(lines), a.tag);
      && |r| == |lines| && r[0].tag == a.tag
      && StatisticsOf(r[0]) ==
           (if i < |lines| then
              Statistics(lines[i].use.count + 1, Union(lines[i].use.mask, a.mask), lines[i].memline)
            else Statistics(1, a.mask, a.memline))
      && (k > 0 ==>
        0 <= From(i, |lines|, k) < |lines| && r[k] == lines[From(i, |lines|, k)] && From(i, |lines|, k) != i)
  {
    hide Union;
    UnionOfNone(a.mask);
  }

  lemma {:induction false} SinceMore(start: seq<nat>, trace: seq<Access>, a: Access, tag: nat)
    requires start != []
    ensures var s := Since(start, trace, tag);
      Since(start, trace + [a], tag) ==
        if a.tag != tag then s
        else if tag in LruSet.Run(start, AccessTags(trace)) then s.(count := s.count + 1, mask := Union(s.mask, a.mask))
        else Statistics(1, a.mask, a.memline)
  {
    hide Union;
    assert (trace + [a])[..|trace|] == trace;
  }

  lemma {:induction false} AttributedAt(start: seq<nat>, trace: seq<Access>, lines: seq<Line>, a: Access, k: nat)
    requires start != [] && k < |lines| && Attributed(start, trace, lines) && a.tag !in start
    requires LineTags(lines) == LruSet.Run(start, AccessTags(trace))
    ensures var r, i, n := Count(Refer(lines, a.tag, a.memline), a.mask), Index(LineTags(lines), a.tag), |lines|;
      && |r| == n && r[0].tag == a.tag
      && (k > 0 ==> 0 <= From(i, n, k) < n && r[k] == lines[From(i, n, k)] && r[k].tag != a.tag)
      && (r[k].tag !in start ==> StatisticsOf(r[k]) == Since(start, trace + [a], r[k].tag))
  {
    var r, i, n := Count(Refer(lines, a.tag, a.memline), a.mask), Index(LineTags(lines), a.tag), |lines|;
    ReferAt(lines, a, k);
    SinceMore(start, trace, a, r[k].tag);
    if i < n { assert LineTags(lines)[i] == lines[i].tag; }
    if k > 0 { assert LineTags(lines)[From(i, n, k)] == lines[From(i, n, k)].tag; }
    hide Refer, Count, Union, Since, LruSet.Run, From;
  }

  lemma {:induction false} AttributedStep(start: seq<nat>, trace: seq<Access>, lines: seq<Line>, a: Access)
    requires start != [] && lines != [] && Attributed(start, trace, lines) && a.tag !in start
    requires LineTags(lines) == LruSet.Run(start, AccessTags(trace))
    ensures Attributed(start, trace + [a], Count(Refer(lines, a.tag, a.memline), a.mask))
  {
    hide Union, Refer, Count, StatisticsOf, Since, LruSet.Run, LineTags;
    var r, i, n := Count(Refer(lines, a.tag, a.memline), a.mask), Index(LineTags(lines), a.tag), |lines|;
    AttributedAt(start, trace, lines, a, 0);
    forall k | 0 <= k < n
      ensures k > 0 ==> 0 <= From(i, n, k) < n && r[k] == lines[From(i, n, k)] && r[k].tag != a.tag
      ensures r[k].tag !in start ==> StatisticsOf(r[k]) == Since(start, trace + [a], r[k].tag)
    {
      AttributedAt(start, trace, lines, a, k);
    }
    forall j, k | 0 <= j < n && 0 <= k < n && j != k && r[j].tag !in start ensures r[j].tag != r[k].tag {
      if j > 0 && k > 0 { assert From(i, n, j) != From(i, n, k); }
    }
  }

  /** After every run from a set of unused lines: each line there has counted exactly the references to it
      since it was brought in, and the union of the parts that they used, and is recorded as the memory
      line of the reference that brought it in. */
  lemma {:induction false} RunAttributes(lines: seq<Line>, trace: seq<Access>)
    requires lines != [] && forall k :: 0 <= k < |trace| ==> trace[k].tag !in LineTags(lines)
    ensures Attributed(LineTags(lines), trace, RunUse(lines, trace))
    ensures LineTags(RunUse(lines, trace)) == LruSet.Run(LineTags(lines), AccessTags(trace))
    decreases |trace|
  {
    hide Refer, Count, Touch, Attributed;
    if trace == [] {
      NothingAttributed(lines);
    } else {
      var n := |trace| - 1;
      var a := trace[n];
      assert trace == trace[..n] + [a];
      RunAttributes(lines, trace[..n]);
      var r := RunUse(lines, trace[..n]);
      AttributedStep(LineTags(lines), trace[..n], r, a);
      SameHits(r, a.tag, a.memline);
      CountKeepsTags(Refer(r, a.tag, a.memline), a.mask);
      assert AccessTags(trace)[..n] == AccessTags(trace[..n]);
    }
  }

  lemma {:induction false} NothingAttributed(lines: seq<Line>)
    requires lines != []
    ensures Attributed(LineTags(lines), [], lines)
  {
    forall k | 0 <= k < |lines| ensures lines[k].tag in LineTags(lines) { assert LineTags(lines)[k] == lines[k].tag; }
  }

  // ----- in place

  class UseCache {
    const assoc: nat
    const sets: nat
    const span: nat                 // tags are multiples of this, and slot pointers smaller
    const tags: array<nat>
    const loaded: array<nat>        // the memory line each slot's statistics belong to
    const use: array<Use>

    ghost predicate Shape() {
      && 0 < assoc <= span && sets > 0
      && tags.Length == loaded.Length == use.Length == sets * assoc && tags != loaded
    }

    ghost predicate Valid()
      reads tags
    {
      Shape() && AllPermuted(tags[..], assoc, sets, span)
    }

    ghost function SetLines(i: nat): (r: seq<Line>)
      requires Valid() && i < sets
      reads tags, loaded, use
      ensures |r| == assoc
    {
      Lines(Row(tags[..], assoc, sets, i), Row(loaded[..], assoc, sets, i), Row(use[..], assoc, sets, i), span)
    }

    /** cachesim_clearcache: all tags zero, the low bits pointing at the slots in order. */
    constructor (assoc: nat, sets: nat, span: nat)
      requires 0 < assoc <= span && sets > 0
      ensures Valid() && fresh(tags) && fresh(loaded) && fresh(use)
      ensures this.assoc == assoc && this.sets == sets && this.span == span
      ensures forall i :: 0 <= i < sets ==> SetLines(i) == seq(assoc, _ => Line(0, 0, Use(0, 0)))
    {
      this.assoc, this.sets, this.span := assoc, sets, span;
      tags := new nat[sets * assoc](i => i % assoc);
      loaded := new nat[sets * assoc](_ => 0);
      use := new Use[sets * assoc](_ => Use(0, 0));
      new;
      forall i | 0 <= i < sets
        ensures Permuted(Row(tags[..], assoc, sets, i), span)
        ensures Lines(Row(tags[..], assoc, sets, i), Row(loaded[..], assoc, sets, i), Row(use[..], assoc, sets, i),
          span)
          == seq(assoc, _ => Line(0, 0, Use(0, 0)))
      {
        ClearedRow(tags[..], assoc, sets, i);
        RowFits(i, sets, assoc);
        ClearedLines(Row(tags[..], assoc, sets, i), Row(loaded[..], assoc, sets, i), Row(use[..], assoc, sets, i),
          span);
      }
    }

    method FindWay(setNo: nat, tag: nat) returns (i: nat)
      requires Valid() && setNo < sets
      ensures i == Index(LineTags(SetLines(setNo)), tag)
    {
      var base := setNo * assoc;
      ghost var ts := LineTags(SetLines(setNo));
      WaysAre(setNo);
      hide Lines, LineTags, TagOf, AllPermuted, SetLines, Index, Row;
      i := 0;
      while i < assoc && tag != TagOf(tags[base + i], span)
        invariant i <= assoc && forall k :: 0 <= k < i ==> ts[k] != tag
      {
        i := i + 1;
      }
      IndexIs(ts, tag, i);
    }

    lemma {:induction false} WaysAre(setNo: nat)
      requires Valid() && setNo < sets
      ensures setNo * assoc + assoc <= tags.Length && |LineTags(SetLines(setNo))| == assoc
      ensures forall k :: 0 <= k < assoc ==> LineTags(SetLines(setNo))[k] == TagOf(tags[setNo * assoc + k], span)
    {
      hide TagOf, Permuted, Lines, LineTags, Row;
      RowAt(tags[..], assoc, sets, setNo);
      var row := Row(tags[..], assoc, sets, setNo);
      LineTagsAre(row, Row(loaded[..], assoc, sets, setNo), Row(use[..], assoc, sets, setNo), span);
      forall k | 0 <= k < assoc ensures LineTags(SetLines(setNo))[k] == TagOf(tags[setNo * assoc + k], span) {
        assert row[k] == tags[setNo * assoc + k];
      }
    }

    /** A hit: the way's packed tag, pointer and all, moves to the front. */
    method ToFront(setNo: nat, i: nat) returns (idx: nat)
      requires Valid() && setNo < sets && i < assoc
      modifies tags
      ensures Valid() && SetLines(setNo) == var l := old(SetLines(setNo)); MoveFront(l, i, l[i])
      ensures forall j :: 0 <= j < sets && j != setNo ==> SetLines(j) == old(SetLines(j))
      ensures idx == setNo * assoc + PtrOf(Row(tags[..], assoc, sets, setNo)[0], span)
    {
      hide MoveFront, Permuted, Lines, Shifted;
      RowAt(tags[..], assoc, sets, setNo);
      var base := setNo * assoc;
      var tmpTag := tags[base + i];
      ShuffleTags(tags, base, i, tmpTag);
      HitRows(old(tags[..]), tags[..], loaded[..], use[..], assoc, sets, setNo, i, span);
      idx := base + PtrOf(tmpTag, span);
    }

    /** A miss: the new tag takes over the slot pointer of the last way, and the slot is cleared. */
    method Install(setNo: nat, tag: nat, memline: nat) returns (idx: nat, evicted: Use)
      requires Valid() && setNo < sets && tag % span == 0
      modifies tags, loaded, use
      ensures Valid() && SetLines(setNo) == MoveFront(old(SetLines(setNo)), assoc - 1, Line(tag, memline, Use(0, 0)))
      ensures forall j :: 0 <= j < sets && j != setNo ==> SetLines(j) == old(SetLines(j))
      ensures evicted == old(SetLines(setNo))[assoc - 1].use
      ensures idx == setNo * assoc + PtrOf(Row(tags[..], assoc, sets, setNo)[0], span)
    {
      hide MoveFront, Permuted, AllPermuted, Row, Lines, Shifted, PtrOf;
      ghost var t, d, u := tags[..], loaded[..], use[..];
      LastSlot(t, d, u, assoc, sets, setNo, span);
      var base := setNo * assoc;
      var tmpTag := PtrOf(tags[base + assoc - 1], span);
      ShuffleTags(tags, base, assoc - 1, tag + tmpTag);
      idx := base + tmpTag;
      evicted := use[idx];
      use[idx] := Use(0, 0);
      loaded[idx] := memline;
      assert use[..] == u[idx := Use(0, 0)] && loaded[..] == d[idx := memline];
      MissRows(t, tags[..], d, u, assoc, sets, setNo, tag, memline, span);
    }

    /** Finds the tag in its set, or installs it in the last way's slot; either way its tag comes to
        the front and the result is its slot. */
    method Reference(setNo: nat, tag: nat, memline: nat) returns (hit: bool, idx: nat, evicted: Use)
      requires Valid() && setNo < sets && tag % span == 0
      modifies tags, loaded, use
      ensures Valid() && SetLines(setNo) == Refer(old(SetLines(setNo)), tag, memline)
      ensures forall j :: 0 <= j < sets && j != setNo ==> SetLines(j) == old(SetLines(j))
      ensures hit == (tag in LineTags(old(SetLines(setNo))))
      ensures evicted.count == Evicted(old(SetLines(setNo)), tag)
      ensures idx == setNo * assoc + PtrOf(Row(tags[..], assoc, sets, setNo)[0], span)
    {
      hide MoveFront, Permuted, Lines, Valid, SetLines;
      evicted := Use(0, 0);
      var i := FindWay(setNo, tag);
      hit := i < assoc;
      if hit {
        idx := ToFront(setNo, i);
      } else {
        idx, evicted := Install(setNo, tag, memline);
      }
    }

    /** What an L1 cache adds at its slot on every reference, hit or miss. */
    method CountUse(setNo: nat, idx: nat, mask: bv32)
      requires Valid() && setNo < sets && idx == setNo * assoc + PtrOf(Row(tags[..], assoc, sets, setNo)[0], span)
      modifies use
      ensures Valid() && SetLines(setNo) == Count(old(SetLines(setNo)), mask)
      ensures forall i :: 0 <= i < sets && i != setNo ==> SetLines(i) == old(SetLines(i))
    {
      hide Lines, Used;
      ghost var s, u := Row(tags[..], assoc, sets, setNo), use[..];
      RowFits(setNo, sets, assoc);
      assert PtrOf(s[0], span) < assoc;
      use[idx] := Used(use[idx], mask);
      SlotRows(u, assoc, sets, setNo, PtrOf(s[0], span), use[idx]);
      RowAt(u, assoc, sets, setNo);
      CountLines(s, Row(loaded[..], assoc, sets, setNo), Row(u, assoc, sets, setNo), mask, span);
    }
  }

  lemma {:induction false} RowAt<T>(flat: seq<T>, assoc: nat, n: nat, i: nat)
    requires |flat| == n * assoc && i < n
    ensures i * assoc + assoc <= |flat|
    ensures forall k :: 0 <= k < assoc ==> Row(flat, assoc, n, i)[k] == flat[i * assoc + k]
  {
    RowFits(i, n, assoc);
  }

  lemma {:induction false} LineTagsAre(tags: seq<nat>, loaded: seq<nat>, use: seq<Use>, m: nat)
    requires m > 0 && |tags| == |loaded| == |use| && Permuted(tags, m)
    ensures var l := Lines(tags, loaded, use, m); forall k :: 0 <= k < |tags| ==>
      LineTags(l)[k] == TagOf(tags[k], m) && PtrOf(tags[k], m) < |tags| && l[k].use == use[PtrOf(tags[k], m)]
  {}

  lemma {:induction false} LastSlot(tags: seq<nat>, loaded: seq<nat>, use: seq<Use>, assoc: nat, n: nat, setNo: nat,
                                    m: nat)
    requires |tags| == |loaded| == |use| == n * assoc && setNo < n && assoc > 0 && m > 0
    requires AllPermuted(tags, assoc, n, m)
    ensures setNo * assoc + assoc <= |tags|
    ensures var p := PtrOf(tags[setNo * assoc + assoc - 1], m);
      var l := Lines(Row(tags, assoc, n, setNo), Row(loaded, assoc, n, setNo), Row(use, assoc, n, setNo), m);
      p < assoc && use[setNo * assoc + p] == l[assoc - 1].use
  {
    RowAt(tags, assoc, n, setNo);
    RowAt(use, assoc, n, setNo);
  }

  /** Writing one slot of one set. */
  lemma {:induction false} SlotRows<T>(flat: seq<T>, assoc: nat, n: nat, setNo: nat, p: nat, v: T)
    requires |flat| == n * assoc && setNo < n && p < assoc
    ensures setNo * assoc + p < |flat|
    ensures var flat' := flat[setNo * assoc + p := v];
      forall j :: 0 <= j < n ==>
        Row(flat', assoc, n, j) == if j == setNo then Row(flat, assoc, n, j)[p := v] else Row(flat, assoc, n, j)
  {
    RowFits(setNo, n, assoc);
    var flat' := flat[setNo * assoc + p := v];
    hide Row;
    forall j | 0 <= j < n
      ensures Row(flat', assoc, n, j) == if j == setNo then Row(flat, assoc, n, j)[p := v] else Row(flat, assoc, n, j)
    {
      if j == setNo { SlotInRow(flat, assoc, n, setNo, p, v); } else { SlotOutsideRow(flat, assoc, n, setNo, p, v, j); }
    }
  }

  lemma {:induction false} SlotInRow<T>(flat: seq<T>, assoc: nat, n: nat, setNo: nat, p: nat, v: T)
    requires |flat| == n * assoc && setNo < n && p < assoc && setNo * assoc + p < |flat|
    ensures Row(flat[setNo * assoc + p := v], assoc, n, setNo) == Row(flat, assoc, n, setNo)[p := v]
  {
    RowFits(setNo, n, assoc);
    SlotRow(flat, assoc, setNo * assoc + p, setNo * assoc, v);
  }

  lemma {:induction false} SlotOutsideRow<T>(flat: seq<T>, assoc: nat, n: nat, setNo: nat, p: nat, v: T, j: nat)
    requires |flat| == n * assoc && setNo < n && p < assoc && setNo * assoc + p < |flat| && j < n && j != setNo
    ensures Row(flat[setNo * assoc + p := v], assoc, n, j) == Row(flat, assoc, n, j)
  {
    RowFits(j, n, assoc);
    RowsApart(j, setNo, assoc);
    SlotRow(flat, assoc, setNo * assoc + p, j * assoc, v);
  }

  /** Writing one cell, seen from the row that starts at `base`. */
  lemma {:induction false} SlotRow<T>(flat: seq<T>, assoc: nat, at: nat, base: nat, v: T)
    requires at < |flat| && base + assoc <= |flat|
    ensures var r, r' := flat[base..base + assoc], flat[at := v][base..base + assoc];
      if base <= at < base + assoc then r' == r[at - base := v] else r' == r
  {}

  ghost predicate AllPermuted(flat: seq<nat>, assoc: nat, n: nat, m: nat)
    requires |flat| == n * assoc && m > 0
  {
    forall j :: 0 <= j < n ==> Permuted(Row(flat, assoc, n, j), m)
  }

  lemma {:induction false} HitRows(flat: seq<nat>, flat': seq<nat>, loaded: seq<nat>, use: seq<Use>,
                                   assoc: nat, n: nat, setNo: nat, i: nat, m: nat)
    requires |flat| == |flat'| == |loaded| == |use| == n * assoc && setNo < n && i < assoc && m > 0
    requires AllPermuted(flat, assoc, n, m)
    requires setNo * assoc + i < |flat| && Shifted(flat, flat', setNo * assoc, i, flat[setNo * assoc + i])
    ensures AllPermuted(flat', assoc, n, m)
    ensures forall j :: 0 <= j < n && j != setNo ==> Row(flat', assoc, n, j) == Row(flat, assoc, n, j)
    ensures Row(flat', assoc, n, setNo)[0] == flat[setNo * assoc + i]
    ensures Lines(Row(flat', assoc, n, setNo), Row(loaded, assoc, n, setNo), Row(use, assoc, n, setNo), m)
      == var l := Lines(Row(flat, assoc, n, setNo), Row(loaded, assoc, n, setNo), Row(use, assoc, n, setNo), m);
         MoveFront(l, i, l[i])
  {
    hide Shifted, Permuted, Lines;
    RowAt(flat, assoc, n, setNo);
    var s := Row(flat, assoc, n, setNo);
    ShiftedRows(flat, flat', assoc, n, setNo, i, s[i]);
    var st, st' := Rows(flat, assoc, n), Rows(flat', assoc, n);
    forall j | 0 <= j < n
      ensures Row(flat', assoc, n, j) == if j == setNo then MoveFront(s, i, s[i]) else Row(flat, assoc, n, j)
    {
      assert st'[j] == Row(flat', assoc, n, j) && st[j] == Row(flat, assoc, n, j);
    }
    ShuffleLines(s, Row(loaded, assoc, n, setNo), Row(use, assoc, n, setNo), i, m);
  }

  lemma {:induction false} MissRows(flat: seq<nat>, flat': seq<nat>, loaded: seq<nat>, use: seq<Use>,
                                    assoc: nat, n: nat, setNo: nat, tag: nat, memline: nat, m: nat)
    requires |flat| == |flat'| == |loaded| == |use| == n * assoc && setNo < n && assoc > 0 && m > 0 && tag % m == 0
    requires AllPermuted(flat, assoc, n, m) && setNo * assoc + assoc <= |flat|
    requires var p := PtrOf(flat[setNo * assoc + assoc - 1], m);
      p < assoc && Shifted(flat, flat', setNo * assoc, assoc - 1, tag + p)
    ensures var p := PtrOf(flat[setNo * assoc + assoc - 1], m);
      && AllPermuted(flat', assoc, n, m)
      && Row(flat', assoc, n, setNo)[0] == tag + p && PtrOf(tag + p, m) == p
      && (forall j :: 0 <= j < n && j != setNo ==>
          && Row(flat', assoc, n, j) == Row(flat, assoc, n, j)
          && Row(loaded[setNo * assoc + p := memline], assoc, n, j) == Row(loaded, assoc, n, j)
          && Row(use[setNo * assoc + p := Use(0, 0)], assoc, n, j) == Row(use, assoc, n, j))
      && Lines(Row(flat', assoc, n, setNo), Row(loaded[setNo * assoc + p := memline], assoc, n, setNo),
               Row(use[setNo * assoc + p := Use(0, 0)], assoc, n, setNo), m)
         == MoveFront(Lines(Row(flat, assoc, n, setNo), Row(loaded, assoc, n, setNo), Row(use, assoc, n, setNo), m),
                      assoc - 1, Line(tag, memline, Use(0, 0)))
  {
    hide Shifted, Permuted, Lines;
    RowAt(flat, assoc, n, setNo);
    var s := Row(flat, assoc, n, setNo);
    var p := PtrOf(s[assoc - 1], m);
    ShiftedRows(flat, flat', assoc, n, setNo, assoc - 1, tag + p);
    var st, st' := Rows(flat, assoc, n), Rows(flat', assoc, n);
    forall j | 0 <= j < n
      ensures Row(flat', assoc, n, j) == if j == setNo then MoveFront(s, assoc - 1, tag + p) else Row(flat, assoc, n, j)
    {
      assert st'[j] == Row(flat', assoc, n, j) && st[j] == Row(flat, assoc, n, j);
    }
    SlotRows(loaded, assoc, n, setNo, p, memline);
    SlotRows(use, assoc, n, setNo, p, Use(0, 0));
    Unpack(tag, p, m);
    InstallLines(s, Row(loaded, assoc, n, setNo), Row(use, assoc, n, setNo), tag, memline, m);
  }

  lemma {:induction false} ClearedRow(flat: seq<nat>, assoc: nat, n: nat, i: nat)
    requires assoc > 0 && |flat| == n * assoc && i < n
    requires forall j :: 0 <= j < |flat| ==> flat[j] == j % assoc
    ensures forall k :: 0 <= k < assoc ==> Row(flat, assoc, n, i)[k] == k
  {
    RowFits(i, n, assoc);
    var base := i * assoc;
    forall k | 0 <= k < assoc ensures Row(flat, assoc, n, i)[k] == k {
      assert flat[base + k] == (base + k) % assoc;
      assert i * assoc == assoc * i;
      Divided(base + k, assoc, i, k);
    }
  }

  lemma {:induction false} ClearedLines(tags: seq<nat>, loaded: seq<nat>, use: seq<Use>, m: nat)
    requires |tags| == |loaded| == |use| <= m && m > 0
    requires forall k :: 0 <= k < |tags| ==> tags[k] == k && loaded[k] == 0 && use[k] == Use(0, 0)
    ensures Permuted(tags, m) && Lines(tags, loaded, use, m) == seq(|tags|, _ => Line(0, 0, Use(0, 0)))
  {
    forall k | 0 <= k < |tags| ensures PtrOf(tags[k], m) == k { Divided(k, m, 0, k); }
  }
}
