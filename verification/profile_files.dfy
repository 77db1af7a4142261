/** Profiles as they are in memory: one array of counts for every line, updated in place. */
module ProfileFiles {
  import opened Wrappers
  import opened Costs
  import opened ProfileText
  import opened Profile
  import opened ProfileMerge

  type Cells = map<FileFn, map<Counter, array<Counter>>>

  /** Every line has an array of `n` counters of its own. */
  ghost predicate Separate(outer: Cells, cells: set<array<Counter>>, n: nat) {
    && (forall k, l :: k in outer && l in outer[k] ==> outer[k][l] in cells && outer[k][l].Length == n)
    && (forall k, l, k', l' ::
          k in outer && l in outer[k] && k' in outer && l' in outer[k'] && outer[k][l] == outer[k'][l'] ==>
          k == k' && l == l')
  }

  ghost function InnerView(m: map<Counter, array<Counter>>): (r: Inner)
    reads m.Values
  {
    map l | l in m :: m[l][..]
  }

  ghost function View(outer: Cells, cells: set<array<Counter>>, n: nat): (r: Outer)
    requires Separate(outer, cells, n)
    reads cells
  {
    map k | k in outer :: InnerView(outer[k])
  }

  /** Adds one array of counters to another. */
  method AddCounts(c1: array<Counter>, c2: array<Counter>)
    requires c1 != c2 && c1.Length == c2.Length
    modifies c1
    ensures c1[..] == Added(c1.Length, old(c1[..]), c2[..])
  {
    ghost var a, b := c1[..], c2[..];
    for i := 0 to c1.Length
      invariant c2[..] == b
      invariant forall e :: 0 <= e < i ==> c1[e] == Added(c1.Length, a, b)[e]
      invariant forall e :: i <= e < c1.Length ==> c1[e] == a[e]
    {
      assert c2[i] == b[i];
      var x: int, y: int := c1[i], c2[i];
      c1[i] := Wrap(x + y);
    }
    assert c1[..] == Added(c1.Length, a, b);
  }

  method CopyCounts(c: array<Counter>) returns (r: array<Counter>)
    ensures fresh(r) && r[..] == c[..]
  {
    r := new Counter[c.Length](i requires 0 <= i < c.Length reads c => c[i]);
    assert r[..] == c[..];
  }

  function PutCell(outer: Cells, k: FileFn, l: Counter, c: array<Counter>): Cells {
    var m: map<Counter, array<Counter>> := if k in outer then outer[k] else map[];
    outer[k := m[l := c]]
  }

  function SetCell(lines: Outer, k: FileFn, l: Counter, c: Cost): Outer {
    var m: Inner := if k in lines then lines[k] else map[];
    lines[k := m[l := c]]
  }

  lemma {:induction false} InnerPut(m: map<Counter, array<Counter>>, l: Counter, c: array<Counter>)
    ensures InnerView(m[l := c]) == InnerView(m)[l := c[..]]
  {}

  /** What is seen after one cell has changed. */
  lemma {:induction false} ChangedCell(outer: Cells, cells: set<array<Counter>>, n: nat, k: FileFn, l: Counter,
                                       was: Outer)
    requires Separate(outer, cells, n) && k in outer && l in outer[k] && was.Keys == outer.Keys
    requires forall k' :: k' in outer && k' != k ==> was[k'] == InnerView(outer[k'])
    requires InnerView(outer[k]) == was[k][l := outer[k][l][..]]
    ensures View(outer, cells, n) == SetCell(was, k, l, outer[k][l][..])
  {
    hide InnerView;
  }

  lemma {:induction false} OtherCells(outer: Cells, cells: set<array<Counter>>, n: nat, k: FileFn, l: Counter)
    requires Separate(outer, cells, n) && k in outer && l in outer[k]
    ensures outer[k][l] in cells && outer[k][l].Length == n
    ensures forall k' :: k' in outer && k' != k ==> outer[k][l] !in outer[k'].Values
    ensures forall l' :: l' in outer[k] && l' != l ==> outer[k][l'] != outer[k][l]
    ensures var v := View(outer, cells, n);
      v.Keys == outer.Keys && forall k' :: k' in outer ==> v[k'] == InnerView(outer[k'])
  {}

  /** What is seen after a line has got an array. */
  lemma {:induction false} NewCell(outer: Cells, cells: set<array<Counter>>, n: nat, k: FileFn, l: Counter,
                                   c: array<Counter>)
    requires Separate(outer, cells, n) && c !in cells && c.Length == n && (k in outer ==> l !in outer[k])
    ensures var o := PutCell(outer, k, l, c);
      Separate(o, cells + {c}, n) && View(o, cells + {c}, n) == SetCell(View(outer, cells, n), k, l, c[..])
  {
    NewSeparate(outer, cells, n, k, l, c);
    InnerPut(if k in outer then outer[k] else map[], l, c);
    NothingSeen();
    hide InnerView;
  }

  lemma {:induction false} NothingSeen()
    ensures InnerView(map[]) == map[]
  {}

  lemma {:induction false} NewSeparate(outer: Cells, cells: set<array<Counter>>, n: nat, k: FileFn, l: Counter,
                                       c: array<Counter>)
    requires Separate(outer, cells, n) && c !in cells && c.Length == n && (k in outer ==> l !in outer[k])
    ensures Separate(PutCell(outer, k, l, c), cells + {c}, n)
  {}

  lemma {:induction false} ViewHas(outer: Cells, cells: set<array<Counter>>, n: nat, k: FileFn)
    requires Separate(outer, cells, n)
    ensures k in View(outer, cells, n) <==> k in outer
    ensures k in outer ==> View(outer, cells, n)[k].Keys == outer[k].Keys
  {}

  lemma {:induction false} AddLineSets(lines: Outer, k: FileFn, l: Counter, c: Cost, n: nat)
    ensures AddLine(lines, k, l, c, n) ==
      SetCell(lines, k, l, if k in lines && l in lines[k] then Added(n, lines[k][l], c) else c)
  {}

  class CacheProfFile {
    var desc: seq<string>
    var cmd: string
    var events: string
    var nEvents: nat
    var outer: Cells
    var summary: array<Counter>
    ghost var cells: set<array<Counter>>

    ghost predicate Valid()
      reads this, cells
    {
      Separate(outer, cells, nEvents) && summary.Length == nEvents && summary !in cells
    }

    ghost function Lines(): Outer
      requires Valid()
      reads this, cells
    {
      View(outer, cells, nEvents)
    }

    ghost function Abs(): CacheProf
      requires Valid()
      reads this, cells, summary
    {
      CacheProf(desc, cmd, events, nEvents, Lines(), summary[..])
    }

    /** Adds counts to a line, or gives it `c` itself; says whether `c` is free again. */
    method AddCountsToMap(k: FileFn, l: Counter, c: array<Counter>) returns (free: bool)
      requires Valid() && c.Length == nEvents && c != summary && c !in cells
      modifies this`outer, this`cells, cells
      ensures Valid() && Lines() == AddLine(old(Lines()), k, l, c[..], nEvents)
      ensures c[..] == old(c[..]) && summary[..] == old(summary[..])
      ensures cells == if free then old(cells) else old(cells) + {c}
    {
      ViewHas(outer, cells, nEvents, k);
      AddLineSets(Lines(), k, l, c[..], nEvents);
      assert k in Lines() && l in Lines()[k] <==> k in outer && l in outer[k];
      hide *;
      free := k in outer && l in outer[k];
      if free { AddToCell(k, l, c); } else { StoreCell(k, l, c); }
    }

    method StoreCell(k: FileFn, l: Counter, c: array<Counter>)
      requires Valid() && c.Length == nEvents && c != summary && c !in cells && (k in outer ==> l !in outer[k])
      modifies this`outer, this`cells
      ensures Valid() && Lines() == SetCell(old(Lines()), k, l, c[..]) && cells == old(cells) + {c}
    {
      hide View, InnerView, SetCell, PutCell;
      NewCell(outer, cells, nEvents, k, l, c);
      outer := PutCell(outer, k, l, c);
      cells := cells + {c};
    }

    method AddToCell(k: FileFn, l: Counter, c: array<Counter>)
      requires Valid() && k in outer && l in outer[k] && c.Length == nEvents && c !in cells
      modifies cells
      ensures Valid() && k in old(Lines()) && l in old(Lines())[k] && cells == old(cells)
      ensures Lines() == SetCell(old(Lines()), k, l, Added(nEvents, old(Lines())[k][l], c[..]))
      ensures c[..] == old(c[..]) && summary[..] == old(summary[..])
    {
      ghost var was := Lines();
      OtherCells(outer, cells, nEvents, k, l);
      hide Added, Separate, View, SetCell;
      AddCounts(outer[k][l], c);
      ChangedCell(outer, cells, nEvents, k, l, was);
    }

    constructor (desc: seq<string>, cmd: string, events: string, nEvents: nat)
      ensures Valid() && fresh(summary) && cells == {}
      ensures Abs() == CacheProf(desc, cmd, events, nEvents, map[], seq(nEvents, _ => 0))
    {
      this.desc, this.cmd, this.events, this.nEvents := desc, cmd, events, nEvents;
      outer, cells := map[], {};
      summary := new Counter[nEvents](_ => 0);
    }

    /** Reads one line of counts. */
    method HandleCounts(fl: string, fn: string, line: string) returns (err: Option<Error>)
      requires Valid()
      modifies this`outer, this`cells, cells, summary
      ensures Valid() && fresh(cells - old(cells))
      ensures match Profile.HandleCounts(Acc(fl, fn, old(Lines()), old(summary[..])), line, nEvents)
        case Err(e) => err == Some(e)
        case Ok(a) => err == None && Acc(fl, fn, Lines(), summary[..]) == a
    {
      hide Added, AddLine, CountsLine, Separate;
      var r := SplitUp(line);
      if r == None { return Some(Garbage); }
      var ns := r.value;
      if |ns| < 2 { return Some(TooFewCounts); }
      if |ns| - 1 != nEvents { return Some(WrongCounts); }
      var c := new Counter[nEvents](i requires 0 <= i < |ns| - 1 => ns[i + 1]);
      assert c[..] == ns[1..];
      var free := AddCountsToMap(FileFn(fl, fn), ns[0], c);
      CountSummary(c);
      err := None;
    }

    method CountSummary(c: array<Counter>)
      requires Valid() && c.Length == nEvents && c != summary
      modifies summary
      ensures Valid() && Lines() == old(Lines()) && c[..] == old(c[..])
      ensures summary[..] == Added(nEvents, old(summary[..]), c[..])
    {
      hide Added;
      AddCounts(summary, c);
    }

    // ----- merging

    /** One line of another profile; its counts are added or copied, never shared. */
    method MergeLine(k: FileFn, l: Counter, c: array<Counter>)
      requires Valid() && k in outer && c.Length == nEvents && c !in cells && c != summary
      modifies this`outer, this`cells, cells
      ensures Valid() && k in outer && Lines() == AddLine(old(Lines()), k, l, c[..], nEvents)
      ensures fresh(cells - old(cells)) && old(cells) <= cells
      ensures c[..] == old(c[..]) && summary[..] == old(summary[..])
    {
      ViewHas(outer, cells, nEvents, k);
      AddLineSets(Lines(), k, l, c[..], nEvents);
      hide View, InnerView, AddLine, SetCell, PutCell, Separate, Added;
      if l in outer[k] {
        AddToCell(k, l, c);
      } else {
        var d := CopyCounts(c);
        var free := AddCountsToMap(k, l, d);
      }
      ViewHas(outer, cells, nEvents, k);
      AddLineHas(old(Lines()), k, l, c[..], nEvents);
    }

    method MergeLineOf(k: FileFn, m: map<Counter, array<Counter>>, l: Counter)
      requires Valid() && k in outer && l in m && m.Values !! cells && summary !in m.Values && m[l].Length == nEvents
      modifies this`outer, this`cells, cells
      ensures Valid() && k in outer && m.Values !! cells && InnerView(m) == old(InnerView(m)) && l in InnerView(m)
      ensures Lines() == AddLine(old(Lines()), k, l, InnerView(m)[l], nEvents)
      ensures fresh(cells - old(cells)) && old(cells) <= cells && summary[..] == old(summary[..])
    {
      InnerViewAt(m, l);
      hide View, InnerView, AddLine, Separate;
      assert m[l] in m.Values;
      MergeLine(k, l, m[l]);
      InnerViewAt(m, l);
    }

    /** The lines of a function that is in both profiles. */
    method MergeFunction(k: FileFn, m: map<Counter, array<Counter>>)
      requires Valid() && k in outer && m.Values !! cells && summary !in m.Values
      requires forall l :: l in m ==> m[l].Length == nEvents
      modifies this`outer, this`cells, cells
      ensures Valid() && k in outer && k in old(Lines())
      ensures Lines() == old(Lines())[k := MergeInner(old(Lines())[k], old(InnerView(m)), nEvents)]
      ensures fresh(cells - old(cells)) && old(cells) <= cells && summary[..] == old(summary[..])
    {
      ViewHas(outer, cells, nEvents, k);
      ghost var was, b := Lines(), InnerView(m);
      InnerViewKeys(m);
      NoLineMerged(was, k, b, nEvents);
      AllLinesMerged(was, k, b, nEvents);
      hide *;
      MergeRest(k, m, m.Keys, was, b);
    }

    /** The loop over the lines that the iterator has still to yield. */
    method MergeRest(k: FileFn, m: map<Counter, array<Counter>>, todo: set<Counter>, ghost was: Outer, ghost b: Inner)
      requires Valid() && k in outer && k in was && todo <= m.Keys && m.Values !! cells && summary !in m.Values
      requires forall l :: l in m ==> m[l].Length == nEvents
      requires InnerView(m) == b && Lines() == LinesMerged(was, k, b, todo, nEvents)
      modifies this`outer, this`cells, cells
      ensures Valid() && k in outer && Lines() == LinesMerged(was, k, b, {}, nEvents) && InnerView(m) == b
      ensures fresh(cells - old(cells)) && old(cells) <= cells && summary[..] == old(summary[..])
      decreases todo
    {
      hide *;
      if todo != {} {
        var l :| l in todo;
        MergeLineOf(k, m, l);
        OneLineMerged(was, k, b, todo, l, nEvents);
        MergeRest(k, m, todo - {l}, was, b);
      }
    }

    /** The lines of a function that is only in the other profile. */
    method CopyFunction(k: FileFn, m: map<Counter, array<Counter>>)
      requires Valid() && k !in outer
      requires forall l :: l in m ==> m[l].Length == nEvents
      modifies this`outer, this`cells
      ensures Valid() && Lines() == old(Lines())[k := old(InnerView(m))]
      ensures fresh(cells - old(cells)) && old(cells) <= cells && summary[..] == old(summary[..])
    {
      hide View, InnerView;
      var r, own := CopyInner(m, nEvents);
      NewFunction(outer, cells, nEvents, k, r, own);
      outer := outer[k := r];
      cells := cells + own;
    }

    /** A function of the other profile, in both or only there. */
    method TakeFunction(k: FileFn, m: map<Counter, array<Counter>>)
      requires Valid() && m.Values !! cells && summary !in m.Values
      requires forall l :: l in m ==> m[l].Length == nEvents
      modifies this`outer, this`cells, cells
      ensures Valid() && fresh(cells - old(cells)) && old(cells) <= cells && summary[..] == old(summary[..])
      ensures Lines() ==
        var a, b := old(Lines()), old(InnerView(m));
        a[k := if k in a then MergeInner(a[k], b, nEvents) else b]
    {
      ViewKeys(outer, cells, nEvents);
      hide *;
      if k in outer { MergeFunction(k, m); } else { CopyFunction(k, m); }
    }
  }

  /** Copies the counts of a function into arrays of their own. */
  method CopyInner(m: map<Counter, array<Counter>>, n: nat)
      returns (r: map<Counter, array<Counter>>, ghost own: set<array<Counter>>)
    requires forall l :: l in m ==> m[l].Length == n
    ensures fresh(own) && InnerView(r) == InnerView(m)
    ensures forall l :: l in r ==> r[l] in own && r[l].Length == n
    ensures forall l, l' :: l in r && l' in r && r[l] == r[l'] ==> l == l'
  {
    r, own := map[], {};
    var todo := m.Keys;
    while todo != {}
      invariant todo <= m.Keys && fresh(own) && r.Keys == m.Keys - todo
      invariant forall l :: l in r ==> r[l] in own && r[l].Length == n && r[l][..] == m[l][..]
      invariant forall l, l' :: l in r && l' in r && r[l] == r[l'] ==> l == l'
      decreases todo
    {
      var l :| l in todo;
      var c := CopyCounts(m[l]);
      r := r[l := c];
      own := own + {c};
      todo := todo - {l};
    }
  }

  lemma {:induction false} NewFunction(outer: Cells, cells: set<array<Counter>>, n: nat, k: FileFn,
                                       r: map<Counter, array<Counter>>, own: set<array<Counter>>)
    requires Separate(outer, cells, n) && k !in outer && own !! cells
    requires forall l :: l in r ==> r[l] in own && r[l].Length == n
    requires forall l, l' :: l in r && l' in r && r[l] == r[l'] ==> l == l'
    ensures Separate(outer[k := r], cells + own, n)
    ensures View(outer[k := r], cells + own, n) == View(outer, cells, n)[k := InnerView(r)]
  {
    assert Separate(outer[k := r], cells + own, n);
    hide Separate, InnerView;
  }

  lemma {:induction false} InnerViewKeys(m: map<Counter, array<Counter>>)
    ensures InnerView(m).Keys == m.Keys
  {}

  lemma {:induction false} InnerViewAt(m: map<Counter, array<Counter>>, l: Counter)
    requires l in m
    ensures l in InnerView(m) && InnerView(m)[l] == m[l][..]
  {}

  /** `was` with all lines of function `k` merged in but for `todo`. */
  ghost function LinesMerged(was: Outer, k: FileFn, b: Inner, todo: set<Counter>, n: nat): Outer
    requires k in was
  {
    was[k := MergeInner(was[k], b - todo, n)]
  }

  lemma {:induction false} NoLineMerged(was: Outer, k: FileFn, b: Inner, n: nat)
    requires k in was
    ensures LinesMerged(was, k, b, b.Keys, n) == was
  {
    assert MergeInner(was[k], b - b.Keys, n) == was[k];
  }

  lemma {:induction false} AllLinesMerged(was: Outer, k: FileFn, b: Inner, n: nat)
    requires k in was
    ensures LinesMerged(was, k, b, {}, n) == was[k := MergeInner(was[k], b, n)]
  {
    assert b - {} == b;
  }

  lemma {:induction false} OneLineMerged(was: Outer, k: FileFn, b: Inner, todo: set<Counter>, l: Counter, n: nat)
    requires k in was && l in todo && l in b
    ensures AddLine(LinesMerged(was, k, b, todo, n), k, l, b[l], n) == LinesMerged(was, k, b, todo - {l}, n)
  {
    var b' := b - (todo - {l});
    assert b' - {l} == b - todo;
    MergeInnerStep(was[k], b', n, l);
    hide MergeInner, Added;
    var m := MergeInner(was[k], b - todo, n);
    assert AddToInner(m, l, b[l], n) == MergeInner(was[k], b', n);
  }

  /** Merges `src` into `dst`, which shares no counts with it before or after. */
  method MergeCacheProfInfo(dst: CacheProfFile, src: CacheProfFile) returns (ok: bool)
    requires dst.Valid() && src.Valid() && dst != src && dst.cells + {dst.summary} !! src.cells + {src.summary}
    requires dst.events == src.events ==> dst.nEvents == src.nEvents
    modifies dst`outer, dst`cells, dst.cells, dst.summary
    ensures dst.Valid() && fresh(dst.cells - old(dst.cells)) && dst.cells + {dst.summary} !! src.cells + {src.summary}
    ensures src.Valid() && src.Abs() == old(src.Abs())
    ensures match Merge(old(dst.Abs()), old(src.Abs()))
      case None => !ok && dst.Abs() == old(dst.Abs())
      case Some(p) => ok && dst.Abs() == p
  {
    if dst.events != src.events { return false; }
    MergeAllFunctions(dst, src);
    dst.CountSummary(src.summary);
    ok := true;
  }

  method MergeAllFunctions(dst: CacheProfFile, src: CacheProfFile)
    requires dst.Valid() && src.Valid() && dst != src && dst.cells + {dst.summary} !! src.cells + {src.summary}
    requires dst.nEvents == src.nEvents
    modifies dst`outer, dst`cells, dst.cells
    ensures dst.Valid() && fresh(dst.cells - old(dst.cells)) && old(dst.cells) <= dst.cells
    ensures dst.summary[..] == old(dst.summary[..])
    ensures src.Valid() && src.Lines() == old(src.Lines()) && src.summary[..] == old(src.summary[..])
    ensures dst.Lines() == MergeLines(old(dst.Lines()), old(src.Lines()), dst.nEvents)
  {
    ghost var a, b, n := dst.Lines(), src.Lines(), dst.nEvents;
    ViewKeys(src.outer, src.cells, n);
    MergeNoFunction(a, b, n);
    hide *;
    MergeRest(dst, src, src.outer.Keys, a, b);
    WithoutNothing(b);
  }

  lemma {:induction false} WithoutNothing<K, V>(b: map<K, V>)
    ensures b - {} == b
  {}

  /** The loop over the functions that the iterator has still to yield. */
  method MergeRest(dst: CacheProfFile, src: CacheProfFile, todo: set<FileFn>, ghost a: Outer, ghost b: Outer)
    requires dst.Valid() && src.Valid() && dst != src && dst.cells + {dst.summary} !! src.cells + {src.summary}
    requires dst.nEvents == src.nEvents && todo <= src.outer.Keys && todo <= b.Keys && src.Lines() == b
    requires dst.Lines() == MergeLines(a, b - todo, dst.nEvents)
    modifies dst`outer, dst`cells, dst.cells
    ensures dst.Valid() && fresh(dst.cells - old(dst.cells)) && old(dst.cells) <= dst.cells
    ensures dst.summary[..] == old(dst.summary[..])
    ensures src.Valid() && src.Lines() == b && src.summary[..] == old(src.summary[..])
    ensures dst.Lines() == MergeLines(a, b - {}, dst.nEvents)
    decreases todo
  {
    hide *;
    if todo != {} {
      var k :| k in todo;
      MergeOneFunction(a, b, todo, k, dst.nEvents);
      MergeOne(dst, src, k);
      MergeRest(dst, src, todo - {k}, a, b);
    }
  }

  /** One function of the source. */
  method MergeOne(dst: CacheProfFile, src: CacheProfFile, k: FileFn)
    requires dst.Valid() && src.Valid() && dst != src && dst.cells + {dst.summary} !! src.cells + {src.summary}
    requires dst.nEvents == src.nEvents && k in src.outer
    modifies dst`outer, dst`cells, dst.cells
    ensures dst.Valid() && fresh(dst.cells - old(dst.cells)) && old(dst.cells) <= dst.cells
    ensures dst.cells + {dst.summary} !! src.cells + {src.summary} && src.outer == old(src.outer)
    ensures dst.summary[..] == old(dst.summary[..])
    ensures src.Valid() && src.Lines() == old(src.Lines()) && src.summary[..] == old(src.summary[..])
    ensures k in src.Lines()
    ensures dst.Lines() == var a, b := old(dst.Lines()), old(src.Lines());
      a[k := if k in a then MergeInner(a[k], b[k], dst.nEvents) else b[k]]
  {
    var m := src.outer[k];
    OtherFunction(src.outer, src.cells, src.nEvents, k);
    assert k in src.Lines() && InnerView(m) == src.Lines()[k];
    hide *;
    dst.TakeFunction(k, m);
  }

  lemma {:induction false} ViewKeys(outer: Cells, cells: set<array<Counter>>, n: nat)
    requires Separate(outer, cells, n)
    ensures View(outer, cells, n).Keys == outer.Keys
  {}

  lemma {:induction false} OtherFunction(outer: Cells, cells: set<array<Counter>>, n: nat, k: FileFn)
    requires Separate(outer, cells, n) && k in outer
    ensures outer[k].Values <= cells && (forall l :: l in outer[k] ==> outer[k][l].Length == n)
    ensures k in View(outer, cells, n) && View(outer, cells, n)[k] == InnerView(outer[k])
  {}

  lemma {:induction false} MergeNoFunction(a: Outer, b: Outer, n: nat)
    ensures MergeLines(a, b - b.Keys, n) == a
  {}

  lemma {:induction false} MergeOneFunction(a: Outer, b: Outer, todo: set<FileFn>, k: FileFn, n: nat)
    requires k in todo && todo <= b.Keys
    ensures MergeLines(a, b - (todo - {k}), n) ==
      MergeLines(a, b - todo, n)[k := if k in a then MergeInner(a[k], b[k], n) else b[k]]
    ensures k in MergeLines(a, b - todo, n) <==> k in a
    ensures k in a ==> MergeLines(a, b - todo, n)[k] == a[k]
  {
    var b' := b - (todo - {k});
    assert b' - {k} == b - todo;
    MergeLinesStep(a, b', n, k);
  }

  lemma {:induction false} AddLineHas(lines: Outer, k: FileFn, l: Counter, c: Cost, n: nat)
    ensures k in AddLine(lines, k, l, c, n)
  {}

  // ----- reading a file

  lemma {:induction false} FirstLine(t: string)
    ensures t != [] ==> Lines(t) == [t[..LineEnd(t)]] + Lines(AfterLine(t)) && Lines(t)[1..] == Lines(AfterLine(t))
    ensures t == [] <==> Lines(t) == []
  {}

  lemma {:induction false} DescStops(desc: seq<string>, rest: seq<string>)
    requires forall i :: 0 <= i < |desc| ==> StartsWith(desc[i], "desc: ")
    requires rest == [] || !StartsWith(rest[0], "desc: ")
    ensures DescCount(desc + rest) == |desc|
    decreases |desc|
  {
    if desc == [] {
      assert desc + rest == rest;
    } else {
      assert (desc + rest)[1..] == desc[1..] + rest;
      DescStops(desc[1..], rest);
    }
  }

  method ReadDesc(text: string) returns (desc: seq<string>, line: Option<string>, pos: nat)
    ensures pos <= |text|
    ensures Lines(text) == desc + (if line == None then [] else [line.value] + Lines(text[pos..]))
    ensures DescCount(Lines(text)) == |desc|
  {
    hide Lines;
    desc, pos := [], 0;
    assert text[0..] == text;
    while true
      invariant pos <= |text| && Lines(text) == desc + Lines(text[pos..])
      invariant forall i :: 0 <= i < |desc| ==> StartsWith(desc[i], "desc: ")
      decreases |text| - pos
    {
      FirstLine(text[pos..]);
      var next;
      line, next := ReadLine(text, pos);
      if line == None || !StartsWith(line.value, "desc: ") {
        DescStops(desc, Lines(text[pos..]));
        pos := next;
        return;
      }
      assert desc + Lines(text[pos..]) == desc + [line.value] + Lines(text[next..]);
      desc := desc + [line.value];
      pos := next;
    }
  }

  method CountEvents(events: string) returns (n: nat)
    ensures n == EventCount(events, 6)
  {
    n := 0;
    var p := 6;
    while p < |events|
      invariant 6 <= p && n + EventCount(events, p) == EventCount(events, 6)
      decreases |events| - p
    {
      if events[p] == ' ' && p + 1 < |events| && IsAlpha(events[p + 1]) { n := n + 1; }
      p := p + 1;
    }
  }

  /** Reads count lines up to the summary. */
  method ReadBody(f: CacheProfFile, text: string, start: nat) returns (r: Result<(string, nat), Error>)
    requires f.Valid() && start <= |text|
    modifies f`outer, f`cells, f.cells, f.summary
    ensures f.Valid() && fresh(f.cells - old(f.cells))
    ensures match Body(Lines(text[start..]), Acc("???", "???", old(f.Lines()), old(f.summary[..])), f.nEvents)
      case Err(e) => r == Err(e)
      case Ok(b) =>
        && r.Ok? && r.value.0 == b.1 && r.value.1 <= |text| && Lines(text[r.value.1..]) == b.2
        && f.Lines() == b.0.lines && f.summary[..] == b.0.summary
  {
    hide Lines, Profile.HandleCounts, Separate, View;
    var pos, fl, fn := start, "???", "???";
    ghost var ls, acc := Lines(text[start..]), Acc(fl, fn, f.Lines(), f.summary[..]);
    while true
      invariant f.Valid() && fresh(f.cells - old(f.cells)) && pos <= |text|
      invariant Body(ls, acc, f.nEvents) == Body(Lines(text[pos..]), Acc(fl, fn, f.Lines(), f.summary[..]), f.nEvents)
      decreases |text| - pos
    {
      FirstLine(text[pos..]);
      var line, next := ReadLine(text, pos);
      if line == None { return Err(EofBeforeSummary); }
      var l := line.value;
      if l != [] && IsDigit(l[0]) {
        var err := f.HandleCounts(fl, fn, l);
        if err.Some? { return Err(err.value); }
      } else if StartsWith(l, "fn=") {
        fn := l[3..];
      } else if StartsWith(l, "fl=") {
        fl := l[3..];
      } else if StartsWith(l, "summary: ") {
        return Ok((l, next));
      } else {
        return Err(UnexpectedLine);
      }
      pos := next;
    }
  }

  method CheckSummaryLine(f: CacheProfFile, line: string, text: string, pos: nat) returns (err: Option<Error>)
    requires f.Valid() && |line| >= 8 && pos <= |text|
    ensures err == CheckSummary(f.summary[..], line, Lines(text[pos..]), f.nEvents)
  {
    FirstLine(text[pos..]);
    var more, next := ReadLine(text, pos);
    hide Lines, CountsLine;
    if more.Some? { return Some(Extraneous); }
    var r := SplitUp(line[8..]);
    if r == None { return Some(Garbage); }
    var ns := r.value;
    if |ns| < 1 { return Some(TooFewCounts); }
    if |ns| != f.nEvents { return Some(SummaryCounts); }
    for i := 0 to |ns|
      invariant forall k :: 0 <= k < i ==> ns[k] == f.summary[k]
    {
      if ns[i] != f.summary[i] {
        assert ns[i] != f.summary[..][i];
        return Some(SummaryMismatch);
      }
    }
    assert ns == f.summary[..];
    err := None;
  }

  /** Reads a whole file. */
  method ParseCacheProfFile(text: string) returns (r: Result<CacheProfFile, Error>)
    ensures match Parse(Lines(text))
      case Err(e) => r == Err(e)
      case Ok(p) =>
        && r.Ok? && fresh(r.value) && fresh(r.value.cells) && fresh(r.value.summary)
        && r.value.Valid() && r.value.Abs() == p
  {
    hide Lines, Body, CheckSummary, Separate, View, EventCount, StartsWith, DescCount;
    var desc, line, pos := ReadDesc(text);
    ghost var ls := Lines(text);
    assert ls[..|desc|] == desc;
    if desc == [] { return Err(NoDesc); }
    if line == None { return Err(NullLine); }
    var cmd := line.value;
    assert ls[|desc|] == cmd && ls[|desc| + 1..] == Lines(text[pos..]);
    if !StartsWith(cmd, "cmd: ") { return Err(NoCmd); }
    FirstLine(text[pos..]);
    line, pos := ReadLine(text, pos);
    if line == None { return Err(EofBeforeEvents); }
    var events := line.value;
    assert ls[|desc| + 1] == events && ls[|desc| + 2..] == Lines(text[pos..]);
    if !StartsWith(events, "events: ") { return Err(NoEvents); }
    var n := CountEvents(events);
    var f := new CacheProfFile(desc, cmd, events, n);
    BodyStops(Lines(text[pos..]), Acc("???", "???", map[], f.summary[..]), n);
    var b := ReadBody(f, text, pos);
    if b.Err? { return Err(b.error); }
    assert |b.value.0| >= 8 by { SummaryLong(b.value.0); }
    var err := CheckSummaryLine(f, b.value.0, text, b.value.1);
    r := if err.Some? then Err(err.value) else Ok(f);
  }

  lemma {:induction false} SummaryLong(line: string)
    requires StartsWith(line, "summary: ")
    ensures |line| >= 8
  {}
}
