/** One set of an associative cache, as the list of its tags, most recently used first. */
module LruSet {

  function Index<T(==)>(s: seq<T>, x: T): (i: nat)
    ensures i <= |s| && (i < |s| ==> s[i] == x) && x !in s[..i]
    ensures i == |s| <==> x !in s
  {
    if s == [] then 0
    else if s[0] == x then 0
    else
      var i := 1 + Index(s[1..], x);
      assert s[..i] == [s[0]] + s[1..][..i - 1];
      i
  }

  /** Shuffles the entries before position `i` down one place and puts `x` in front. */
  function MoveFront<T>(s: seq<T>, i: nat, x: T): (r: seq<T>)
    requires i < |s|
    ensures |r| == |s|
    ensures forall k {:trigger r[k]} :: 0 <= k < |s| ==> r[k] == if k == 0 then x else if k <= i then s[k - 1] else s[k]
  {
    [x] + s[..i] + s[i + 1..]
  }

  /** A reference: the tag goes to the front, from its place or in exchange for the last one. */
  function Touch<T(==)>(s: seq<T>, x: T): (r: seq<T>)
    requires s != []
    ensures |r| == |s|
  {
    var i := Index(s, x);
    MoveFront(s, if i < |s| then i else |s| - 1, x)
  }

  function Run<T(==)>(s: seq<T>, trace: seq<T>): (r: seq<T>)
    requires s != []
    ensures |r| == |s|
  {
    if trace == [] then s else Touch(Run(s, trace[..|trace| - 1]), trace[|trace| - 1])
  }

  // ----- the recency list

  function Without<T(==)>(s: seq<T>, x: T): (r: seq<T>) {
    var i := Index(s, x);
    if i < |s| then s[..i] + s[i + 1..] else s
  }

  /** All distinct tags of a trace, the most recently used first. */
  function Recency<T(==)>(trace: seq<T>): (r: seq<T>) {
    if trace == [] then [] else [trace[|trace| - 1]] + Without(Recency(trace[..|trace| - 1]), trace[|trace| - 1])
  }

  ghost predicate Distinct<T>(s: seq<T>) {
    forall i, j :: 0 <= i < j < |s| ==> s[i] != s[j]
  }

  lemma {:induction false} WithoutProps<T>(s: seq<T>, x: T)
    requires Distinct(s)
    ensures Distinct(Without(s, x)) && x !in Without(s, x)
    ensures forall y :: y in Without(s, x) <==> y in s && y != x
  {
    var i := Index(s, x);
    var r := Without(s, x);
    if i < |s| {
      forall k | 0 <= k < |r| ensures r[k] != x && r[k] in s {
        assert r[k] == if k < i then s[k] else s[k + 1];
      }
      forall y | y in s && y != x ensures y in r {
        var k :| 0 <= k < |s| && s[k] == y;
        assert y == r[if k < i then k else k - 1];
      }
    }
  }

  lemma {:induction false} RecencyProps<T>(trace: seq<T>)
    ensures Distinct(Recency(trace))
    ensures forall y :: y in Recency(trace) <==> y in trace
  {
    if trace != [] {
      var before, x := trace[..|trace| - 1], trace[|trace| - 1];
      assert trace == before + [x];
      RecencyProps(before);
      WithoutProps(Recency(before), x);
    }
  }

  function Zeros(n: nat): (z: seq<nat>)
    ensures |z| == n && forall i :: 0 <= i < n ==> z[i] == 0
  {
    if n == 0 then [] else [0] + Zeros(n - 1)
  }

  /** The first `n` entries, padded with zeros. */
  function PadTake(s: seq<nat>, n: nat): (r: seq<nat>)
    ensures |r| == n
    ensures forall i :: 0 <= i < n ==> r[i] == if i < |s| then s[i] else 0
  {
    if |s| >= n then s[..n] else s + Zeros(n - |s|)
  }

  lemma {:induction false} IndexIs<T>(s: seq<T>, x: T, i: nat)
    requires i <= |s| && (i < |s| ==> s[i] == x) && (forall k :: 0 <= k < i ==> s[k] != x)
    ensures Index(s, x) == i
  {}

  lemma {:induction false} TouchAt<T>(s: seq<T>, x: T, i: nat, k: nat)
    requires k < |s| && Index(s, x) == i
    ensures Touch(s, x)[k] == if k == 0 then x else if k <= i then s[k - 1] else s[k]
  {}

  lemma {:induction false} ToFrontAt<T>(r: seq<T>, x: T, k: nat)
    requires k < |[x] + Without(r, x)|
    ensures ([x] + Without(r, x))[k] == if k == 0 then x else if k <= Index(r, x) then r[k - 1] else r[k]
  {}

  lemma {:induction false} TouchPadTake(r: seq<nat>, x: nat, n: nat)
    requires n > 0 && x != 0 && 0 !in r
    ensures Touch(PadTake(r, n), x) == PadTake([x] + Without(r, x), n)
  {
    var s, w := PadTake(r, n), [x] + Without(r, x);
    var i := Index(r, x);
    assert forall k :: 0 <= k < i ==> r[k] == r[..i][k] != x;
    var j := if i < |r| && i < n then i else n;
    IndexIs(s, x, j);
    var a, b := Touch(s, x), PadTake(w, n);
    forall k | 0 <= k < n ensures a[k] == b[k] {
      TouchAt(s, x, j, k);
      if k < |w| { ToFrontAt(r, x, k); }
    }
    assert a == b;
  }

  /** After any trace of non-zero tags, a set that started empty holds the most recently used
      distinct tags, in recency order, padded with zeros. */
  lemma {:induction false} SetIsRecencyPrefix(n: nat, trace: seq<nat>)
    requires n > 0 && 0 !in trace
    ensures Run(Zeros(n), trace) == PadTake(Recency(trace), n)
  {
    if trace == [] {
      assert Zeros(n) == PadTake([], n);
    } else {
      var before := trace[..|trace| - 1];
      SetIsRecencyPrefix(n, before);
      RecencyProps(before);
      TouchPadTake(Recency(before), trace[|trace| - 1], n);
    }
  }

  // ----- reuse distance

  /** The tags other than `x` used after the last use of `x`. */
  function OthersSince<T(==)>(trace: seq<T>, x: T): set<T> {
    if trace == [] || trace[|trace| - 1] == x then {}
    else {trace[|trace| - 1]} + OthersSince(trace[..|trace| - 1], x)
  }

  function Elements<T(==)>(s: seq<T>): (r: set<T>)
  {
    set y | y in s
  }

  lemma {:induction false} DistinctCount<T>(s: seq<T>)
    requires Distinct(s)
    ensures |Elements(s)| == |s|
  {
    if s != [] {
      var a := s[..|s| - 1];
      assert s == a + [s[|s| - 1]];
      DistinctCount(a);
      assert Elements(s) == Elements(a) + {s[|s| - 1]};
      assert s[|s| - 1] !in a;
    }
  }

  lemma {:induction false} ElementsConcat<T>(a: seq<T>, b: seq<T>)
    ensures Elements(a + b) == Elements(a) + Elements(b)
  {}

  lemma {:induction false} DropOneElements<T>(q: seq<T>, j: nat, m: nat)
    requires j < m <= |q| && Distinct(q)
    ensures Elements(q[..j] + q[j + 1..m]) == Elements(q[..m]) - {q[j]}
  {
    ElementsConcat(q[..j], q[j + 1..m]);
    ElementsConcat(q[..j], [q[j]] + q[j + 1..m]);
    ElementsConcat([q[j]], q[j + 1..m]);
    assert q[..m] == q[..j] + ([q[j]] + q[j + 1..m]);
    assert q[j] !in q[..j] && q[j] !in q[j + 1..m];
  }

  lemma {:induction false} WithoutPrefix<T>(q: seq<T>, x: T, y: T) returns (i: nat)
    requires x != y && x in q && Distinct(q)
    ensures i < |Without(q, y)| && Without(q, y)[i] == x && x !in Without(q, y)[..i]
    ensures Elements(Without(q, y)[..i]) == Elements(q[..Index(q, x)]) - {y}
  {
    var m, j := Index(q, x), Index(q, y);
    var w := Without(q, y);
    if j < m {
      i := m - 1;
      assert w[..i] == q[..j] + q[j + 1..m];
      DropOneElements(q, j, m);
      assert x !in Elements(q[..m]);
      assert x !in Elements(w[..i]);
    } else {
      i := m;
      assert w[..i] == q[..m];
      assert q[..m] == q[..j][..m];
      assert y !in q[..m];
    }
  }

  lemma {:induction false} AheadStep<T>(q: seq<T>, x: T, y: T)
    requires x != y && x in q && Distinct(q)
    ensures var r := [y] + Without(q, y);
      Elements(r[..Index(r, x)]) == {y} + Elements(q[..Index(q, x)])
  {
    var i := WithoutPrefix(q, x, y);
    var w := Without(q, y);
    var r := [y] + w;
    assert r[..1 + i] == [y] + w[..i];
    assert forall k :: 0 <= k < i ==> w[k] == w[..i][k] != x;
    IndexIs(r, x, 1 + i);
    ElementsConcat([y], w[..i]);
  }

  /** Before a used tag in the recency list stand exactly the tags used since. */
  lemma {:induction false} AheadAreOthers<T>(trace: seq<T>, x: T)
    requires x in trace
    ensures Elements(Recency(trace)[..Index(Recency(trace), x)]) == OthersSince(trace, x)
  {
    var before, y := trace[..|trace| - 1], trace[|trace| - 1];
    assert trace == before + [y];
    if y == x {
      IndexIs(Recency(trace), x, 0);
    } else {
      RecencyProps(before);
      AheadAreOthers(before, x);
      AheadStep(Recency(before), x, y);
    }
  }

  /** A reference misses if and only if its tag is new, or at least as many other distinct tags as
      there are ways were used since its last use. */
  lemma {:induction false} MissIffReuseDistance(n: nat, trace: seq<nat>, x: nat)
    requires n > 0 && 0 !in trace && x != 0
    ensures x !in Run(Zeros(n), trace) <==> x !in trace || |OthersSince(trace, x)| >= n
  {
    hide *;
    SetIsRecencyPrefix(n, trace);
    AheadCount(trace, x);
    InPadTake(Recency(trace), n, x);
  }

  /** A tag that was used is as far back as there are others used since. */
  lemma {:induction false} AheadCount<T>(trace: seq<T>, x: T)
    ensures Index(Recency(trace), x) < |Recency(trace)| <==> x in trace
    ensures x in trace ==> Index(Recency(trace), x) == |OthersSince(trace, x)|
  {
    RecencyProps(trace);
    hide Recency, OthersSince;
    if x in trace {
      AheadAreOthers(trace, x);
      DistinctCount(Recency(trace)[..Index(Recency(trace), x)]);
    }
  }

  /** What is kept of a list is found if it is near enough to the front. */
  lemma {:induction false} InPadTake(r: seq<nat>, n: nat, x: nat)
    requires n > 0 && x != 0
    ensures x in PadTake(r, n) <==> Index(r, x) < |r| && Index(r, x) < n
  {
    var s, i := PadTake(r, n), Index(r, x);
    if i < |r| && i < n { assert s[i] == x; }
    if x in s {
      var k :| 0 <= k < |s| && s[k] == x;
      assert k < |r| && r[k] == x;
    }
  }

  // ----- inclusion

  /** Fewer ways see a prefix of what more ways see. */
  lemma {:induction false} TouchKeepsInclusion<T>(small: seq<T>, big: seq<T>, x: T)
    requires small != [] && |small| <= |big| && small == big[..|small|]
    ensures Touch(small, x) == Touch(big, x)[..|small|]
    ensures x in small ==> x in big
  {
    var i := Index(big, x);
    var n := |small|;
    if i < n {
      assert small[i] == x;
      forall k | 0 <= k < i ensures small[k] != x { assert big[k] in big[..i]; }
      IndexIs(small, x, i);
    } else {
      forall k | 0 <= k < n ensures small[k] != x { assert big[k] in big[..i]; }
      IndexIs(small, x, n);
    }
    var a, b := Touch(small, x), Touch(big, x)[..n];
    forall k | 0 <= k < n ensures a[k] == b[k] {}
    assert a == b;
  }
}
