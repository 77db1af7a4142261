/** The write-back cache: a dirty bit in bit 0 of each tag. */
module WriteBack {
  import opened LruSet
  import opened CacheSim

  datatype CacheResult = Hit | Miss | MissDirty

  /** The tag without its dirty bit, and with the bit set by a write. */
  function Clean(x: nat): (r: nat)
    ensures r % 2 == 0 && (x % 2 == 0 ==> r == x)
  {
    x - x % 2
  }

  function Mark(x: nat, write: bool): nat { if write then Clean(x) + 1 else x }

  predicate Dirty(x: nat) { x % 2 == 1 }

  function Erase(s: seq<nat>): (r: seq<nat>)
    ensures |r| == |s| && forall i :: 0 <= i < |s| ==> r[i] == Clean(s[i])
  {
    seq(|s|, i requires 0 <= i < |s| => Clean(s[i]))
  }

  /** A reference into one set. */
  function TouchWb(s: seq<nat>, tag: nat, write: bool): (r: (seq<nat>, CacheResult))
    requires s != []
    ensures |r.0| == |s|
  {
    var i := Index(Erase(s), tag);
    var n := |s| - 1;
    if i < |s| then (MoveFront(s, i, Mark(s[i], write)), Hit)
    else (MoveFront(s, n, Mark(tag, write)), if Dirty(s[n]) then MissDirty else Miss)
  }

  /** With the dirty bits erased, the write-back cache steps exactly like the plain one. */
  lemma {:induction false} ErasureSteps(s: seq<nat>, tag: nat, write: bool)
    requires s != [] && tag % 2 == 0
    ensures Erase(TouchWb(s, tag, write).0) == Touch(Erase(s), tag)
    ensures TouchWb(s, tag, write).1 == Hit <==> tag in Erase(s)
  {
    var a, b := Erase(TouchWb(s, tag, write).0), Touch(Erase(s), tag);
    forall k | 0 <= k < |s| ensures a[k] == b[k] {}
    assert a == b;
  }

  /** In place, on the flat tag array of a cache. */
  method SetrefWb(c: Cache, write: bool, setNo: nat, tag: nat) returns (r: CacheResult)
    requires c.Valid() && setNo < c.sets && tag % 2 == 0
    modifies c.tags
    ensures c.State() == old(c.State())[setNo := TouchWb(old(c.State())[setNo], tag, write).0]
    ensures r == TouchWb(old(c.State())[setNo], tag, write).1
  {
    hide MoveFront;
    RowFits(setNo, c.sets, c.assoc);
    var base := setNo * c.assoc;
    ghost var flat := c.tags[..];
    ghost var s := Row(flat, c.assoc, c.sets, setNo);
    assert forall k :: 0 <= k < c.assoc ==> s[k] == c.tags[base + k];
    if tag == Clean(c.tags[base]) {
      IndexIs(Erase(s), tag, 0);
      c.Shuffle(setNo, base, 0, Mark(c.tags[base], write));
      return Hit;
    }
    for i := 1 to c.assoc
      invariant c.tags[..] == flat && forall k :: 0 <= k < i ==> Clean(s[k]) != tag
    {
      if tag == Clean(c.tags[base + i]) {
        IndexIs(Erase(s), tag, i);
        var tmpTag := Mark(c.tags[base + i], write);
        c.Shuffle(setNo, base, i, tmpTag);
        return Hit;
      }
    }
    IndexIs(Erase(s), tag, c.assoc);
    var tmpTag := c.tags[base + c.assoc - 1];
    c.Shuffle(setNo, base, c.assoc - 1, Mark(tag, write));
    r := if Dirty(tmpTag) then MissDirty else Miss;
  }

  // ----- what the dirty bit means

  type Refer = (nat, bool)     // a tag and whether the reference writes

  function RunWb(s: seq<nat>, trace: seq<Refer>): (r: seq<nat>)
    requires s != []
    ensures |r| == |s|
  {
    if trace == [] then s
    else
      var (tag, w) := trace[|trace| - 1];
      TouchWb(RunWb(s, trace[..|trace| - 1]), tag, w).0
  }

  function TagsOf(trace: seq<Refer>): (r: seq<nat>)
    ensures |r| == |trace| && forall i :: 0 <= i < |trace| ==> r[i] == trace[i].0
  {
    seq(|trace|, i requires 0 <= i < |trace| => trace[i].0)
  }

  ghost predicate EvenTags(trace: seq<Refer>) {
    forall i :: 0 <= i < |trace| ==> trace[i].0 % 2 == 0 && trace[i].0 != 0
  }

  /** Whole runs agree with the plain cache once the dirty bits are erased. */
  lemma {:induction false} ErasureRuns(n: nat, trace: seq<Refer>)
    requires n > 0 && EvenTags(trace)
    ensures Erase(RunWb(Zeros(n), trace)) == Run(Zeros(n), TagsOf(trace))
  {
    if trace == [] {
      assert Erase(Zeros(n)) == Zeros(n);
    } else {
      hide TouchWb, Touch;
      var before := trace[..|trace| - 1];
      ErasureRuns(n, before);
      ErasureSteps(RunWb(Zeros(n), before), trace[|trace| - 1].0, trace[|trace| - 1].1);
      assert TagsOf(trace)[..|trace| - 1] == TagsOf(before);
    }
  }

  /** The line of `x` was written since it was last brought in, judged by the plain cache alone. */
  ghost predicate WrittenSinceLoad(n: nat, trace: seq<Refer>, x: nat)
    requires n > 0
  {
    if trace == [] then false
    else
      var before := trace[..|trace| - 1];
      var (tag, w) := trace[|trace| - 1];
      if tag != x then WrittenSinceLoad(n, before, x)
      else w || (x in Run(Zeros(n), TagsOf(before)) && WrittenSinceLoad(n, before, x))
  }

  /** Every resident line is marked dirty exactly if it was written since it was loaded. */
  ghost predicate BitsExact(n: nat, trace: seq<Refer>, s: seq<nat>)
    requires n > 0
  {
    forall k :: 0 <= k < |s| ==>
      (Dirty(s[k]) <==> Clean(s[k]) != 0 && WrittenSinceLoad(n, trace, Clean(s[k])))
  }

  lemma {:induction false} NothingDirty(n: nat)
    requires n > 0
    ensures BitsExact(n, [], Zeros(n))
  {}

  lemma {:induction false} DirtyIffWritten(n: nat, trace: seq<Refer>)
    requires n > 0 && EvenTags(trace)
    ensures BitsExact(n, trace, RunWb(Zeros(n), trace))
  {
    hide BitsExact, TouchWb, Run, WrittenSinceLoad;
    if trace == [] {
      NothingDirty(n);
    } else {
      var before := trace[..|trace| - 1];
      DirtyIffWritten(n, before);
      ErasureRuns(n, before);
      DistinctNonZero(n, before);
      BitsStep(n, before, trace[|trace| - 1], RunWb(Zeros(n), before));
      assert trace == before + [trace[|trace| - 1]];
    }
  }

  /** A miss reports a write-back exactly if the line it throws out was written since it was loaded. */
  lemma {:induction false} WriteBackIffWritten(n: nat, trace: seq<Refer>, tag: nat, write: bool)
    requires n > 0 && EvenTags(trace)
    ensures var s := RunWb(Zeros(n), trace); var victim := Clean(s[n - 1]);
      tag !in Erase(s) ==>
        (TouchWb(s, tag, write).1 == MissDirty <==> victim != 0 && WrittenSinceLoad(n, trace, victim))
  {
    DirtyIffWritten(n, trace);
  }

  lemma {:induction false} WrittenStep(n: nat, before: seq<Refer>, e: Refer, x: nat)
    requires n > 0
    ensures WrittenSinceLoad(n, before + [e], x) <==>
      if e.0 != x then WrittenSinceLoad(n, before, x)
      else e.1 || (x in Run(Zeros(n), TagsOf(before)) && WrittenSinceLoad(n, before, x))
  {
    assert (before + [e])[..|before|] == before;
  }

  lemma {:induction false} BitsStep(n: nat, before: seq<Refer>, e: Refer, s: seq<nat>)
    requires n == |s| > 0 && e.0 % 2 == 0 && e.0 != 0 && BitsExact(n, before, s)
    requires Erase(s) == Run(Zeros(n), TagsOf(before))
    requires forall i, j :: 0 <= i < j < n && Erase(s)[i] != 0 ==> Erase(s)[i] != Erase(s)[j]
    ensures BitsExact(n, before + [e], TouchWb(s, e.0, e.1).0)
  {
    hide Run, WrittenSinceLoad, TagsOf;
    var (tag, w) := e;
    var s' := TouchWb(s, tag, w).0;
    var i := Index(Erase(s), tag);
    var j := if i < n then i else n - 1;
    forall k | 0 <= k < n
      ensures Dirty(s'[k]) <==> Clean(s'[k]) != 0 && WrittenSinceLoad(n, before + [e], Clean(s'[k]))
    {
      WrittenStep(n, before, e, Clean(s'[k]));
      if k == 0 {
        assert Clean(s'[0]) == tag;
        assert i < n ==> s'[0] == Mark(s[i], w);
      } else {
        var m := if k <= j then k - 1 else k;
        assert s'[k] == s[m] && m != i;
        assert Erase(s)[m] != tag;
      }
    }
  }

  /** No non-zero tag is resident twice. */
  lemma {:induction false} DistinctNonZero(n: nat, trace: seq<Refer>)
    requires n > 0 && EvenTags(trace)
    ensures var s := Erase(RunWb(Zeros(n), trace));
      forall i, j :: 0 <= i < j < n && s[i] != 0 ==> s[i] != s[j]
  {
    ErasureRuns(n, trace);
    assert 0 !in TagsOf(trace);
    SetIsRecencyPrefix(n, TagsOf(trace));
    RecencyProps(TagsOf(trace));
    var r := Recency(TagsOf(trace));
    var s := Erase(RunWb(Zeros(n), trace));
    forall i, j | 0 <= i < j < n && s[i] != 0 ensures s[i] != s[j] {
      if j < |r| { assert r[i] != r[j]; }
    }
  }

  // ----- conservation

  function DirtyLines(s: seq<nat>): nat {
    if s == [] then 0 else (if Dirty(s[0]) then 1 else 0) + DirtyLines(s[1..])
  }

  lemma {:induction false} DirtyLinesConcat(a: seq<nat>, b: seq<nat>)
    ensures DirtyLines(a + b) == DirtyLines(a) + DirtyLines(b)
  {
    if a == [] {
      assert a + b == b;
    } else {
      assert (a + b)[1..] == a[1..] + b;
      DirtyLinesConcat(a[1..], b);
    }
  }

  lemma {:induction false} MoveFrontDirty(s: seq<nat>, i: nat, x: nat)
    requires i < |s|
    ensures DirtyLines(MoveFront(s, i, x)) + (if Dirty(s[i]) then 1 else 0) ==
      DirtyLines(s) + (if Dirty(x) then 1 else 0)
  {
    assert s == s[..i] + ([s[i]] + s[i + 1..]);
    DirtyLinesConcat(s[..i], [s[i]] + s[i + 1..]);
    DirtyLinesConcat([s[i]], s[i + 1..]);
    assert MoveFront(s, i, x) == [x] + (s[..i] + s[i + 1..]);
    DirtyLinesConcat([x], s[..i] + s[i + 1..]);
    DirtyLinesConcat(s[..i], s[i + 1..]);
    assert DirtyLines([x]) == (if Dirty(x) then 1 else 0) && DirtyLines([s[i]]) == (if Dirty(s[i]) then 1 else 0);
  }

  /** Writes that make a line dirty that was not: the only source of dirty lines. */
  function Dirtying(s: seq<nat>, tag: nat, write: bool): nat
    requires s != []
  {
    var i := Index(Erase(s), tag);
    if write && (i == |s| || !Dirty(s[i])) then 1 else 0
  }

  function WriteBacks(s: seq<nat>, trace: seq<Refer>): nat
    requires s != []
  {
    if trace == [] then 0
    else
      var before := trace[..|trace| - 1];
      var (tag, w) := trace[|trace| - 1];
      WriteBacks(s, before) + if TouchWb(RunWb(s, before), tag, w).1 == MissDirty then 1 else 0
  }

  function DirtyingWrites(s: seq<nat>, trace: seq<Refer>): nat
    requires s != []
  {
    if trace == [] then 0
    else
      var before := trace[..|trace| - 1];
      var (tag, w) := trace[|trace| - 1];
      DirtyingWrites(s, before) + Dirtying(RunWb(s, before), tag, w)
  }

  function Writes(trace: seq<Refer>): nat {
    if trace == [] then 0 else Writes(trace[..|trace| - 1]) + if trace[|trace| - 1].1 then 1 else 0
  }

  /** Every dirtied line is either still dirty or was written back exactly once; so dirty lines and
      write-backs together never exceed the writes. */
  lemma {:induction false} DirtConserved(s: seq<nat>, trace: seq<Refer>)
    requires s != [] && EvenTags(trace)
    ensures DirtyLines(RunWb(s, trace)) + WriteBacks(s, trace) == DirtyLines(s) + DirtyingWrites(s, trace)
    ensures DirtyingWrites(s, trace) <= Writes(trace)
  {
    if trace != [] {
      var before := trace[..|trace| - 1];
      var (tag, w) := trace[|trace| - 1];
      hide TouchWb, Dirtying, DirtyLines;
      DirtConserved(s, before);
      DirtStep(RunWb(s, before), tag, w);
    }
  }

  lemma {:induction false} DirtStep(t: seq<nat>, tag: nat, w: bool)
    requires t != [] && tag % 2 == 0
    ensures DirtyLines(TouchWb(t, tag, w).0) + (if TouchWb(t, tag, w).1 == MissDirty then 1 else 0)
      == DirtyLines(t) + Dirtying(t, tag, w)
    ensures Dirtying(t, tag, w) <= if w then 1 else 0
  {
    hide MoveFront, DirtyLines;
    var i := Index(Erase(t), tag);
    if i < |t| {
      MoveFrontDirty(t, i, Mark(t[i], w));
    } else {
      MoveFrontDirty(t, |t| - 1, Mark(tag, w));
    }
  }
}
