/** Cost arrays of an event set: 64-bit counters that wrap around, and the lazily allocated sums of
    their differences. */
module Costs {
  import opened Arithmetic

  const M := 0x1_0000_0000_0000_0000

  type Counter = x: nat | x < 0x1_0000_0000_0000_0000

  /** The counters of an event set. A cost array that was never allocated is the empty sequence. */
  type Cost = seq<Counter>

  function Wrap(x: int): (r: Counter) { x % M }

  /** The counter of event `e`; zero where nothing was allocated. */
  function At(c: Cost, e: nat): (r: Counter) { if e < |c| then c[e] else 0 }

  /** `dst` with what happened between `before` and `now` added. */
  function Plus(dst: Cost, before: Cost, now: Cost): (r: Cost)
    ensures |r| == |now|
  {
    seq(|now|, e requires 0 <= e < |now| => Wrap(At(dst, e) + now[e] - At(before, e)))
  }

  /** The sum of two cost arrays of `n` events. */
  function Added(n: nat, a: Cost, b: Cost): (r: Cost)
    ensures |r| == n
  {
    seq(n, e requires 0 <= e < n => Wrap(At(a, e) + At(b, e)))
  }

  predicate Differ(before: Cost, now: Cost) {
    exists e :: 0 <= e < |now| && now[e] != At(before, e)
  }

  lemma {:induction false} WrapAdd(x: int, y: int)
    ensures Wrap(Wrap(x) + y) == Wrap(x + y)
  {
    ModAdd(x, y, M);
  }

  lemma {:induction false} SameWrap(x: int, y: int, z: int)
    requires Wrap(x) == Wrap(y)
    ensures Wrap(x + z) == Wrap(y + z)
  {
    hide Wrap;
    WrapAdd(x, z);
    WrapAdd(y, z);
  }

  lemma {:induction false} WrapShift(x: int, q: int)
    ensures Wrap(x + q * M) == Wrap(x)
  {
    ModShift(x, M, q);
  }

  /** Adding no difference changes nothing. */
  lemma {:induction false} PlusNothing(dst: Cost, before: Cost, now: Cost, e: nat)
    requires !Differ(before, now) && e < |now|
    ensures At(Plus(dst, before, now), e) == At(dst, e)
  {
    assert now[e] == At(before, e);
  }

  // ----- the arrays

  /** The counters in an array that may not have been allocated. */
  ghost function Value(a: array?<Counter>): (c: Cost)
    reads a
    ensures a == null ==> c == []
    ensures a != null ==> |c| == a.Length && forall e :: 0 <= e < a.Length ==> c[e] == a[e]
  {
    if a == null then [] else a[..]
  }

  /** Adds to `pdst`, allocated now if need be, what was added to `newCost` since `oldCost`, and
      brings `oldCost` up to date. Says whether anything changed. */
  method AddDiffCostLz(pdst: array?<Counter>, oldCost: array<Counter>, newCost: array<Counter>)
      returns (dst: array<Counter>, isNonzero: bool)
    requires oldCost.Length == newCost.Length && oldCost != newCost
    requires pdst != null ==> pdst.Length == newCost.Length && pdst != oldCost && pdst != newCost
    modifies pdst, oldCost
    ensures if pdst == null then fresh(dst) else dst == pdst
    ensures dst[..] == Plus(old(Value(pdst)), old(oldCost[..]), newCost[..])
    ensures oldCost[..] == newCost[..] == old(newCost[..])
    ensures isNonzero == Differ(old(oldCost[..]), newCost[..])
  {
    if pdst == null {
      dst := new Counter[newCost.Length](_ => 0);
    } else {
      dst := pdst;
    }
    assert oldCost[..] == old(oldCost[..]) && newCost[..] == old(newCost[..]);
    PlusReads(old(Value(pdst)), dst[..], oldCost[..], newCost[..]);
    hide *;
    isNonzero := AddDiff(dst, oldCost, newCost);
  }

  lemma {:induction false} PlusReads(a: Cost, b: Cost, before: Cost, now: Cost)
    requires forall e :: At(a, e) == At(b, e)
    ensures Plus(a, before, now) == Plus(b, before, now)
  {}

  method AddDiff(dst: array<Counter>, oldCost: array<Counter>, newCost: array<Counter>) returns (isNonzero: bool)
    requires oldCost.Length == newCost.Length == dst.Length && oldCost != newCost && dst != oldCost && dst != newCost
    modifies dst, oldCost
    ensures dst[..] == Plus(old(dst[..]), old(oldCost[..]), newCost[..])
    ensures oldCost[..] == newCost[..] == old(newCost[..])
    ensures isNonzero == Differ(old(oldCost[..]), newCost[..])
  {
    isNonzero := false;
    ghost var d0, o0, n := dst[..], oldCost[..], newCost[..];
    ghost var sum := Plus(d0, o0, n);
    hide Wrap;
    for i := 0 to newCost.Length
      invariant newCost[..] == n
      invariant forall e :: 0 <= e < dst.Length ==> dst[e] == if e < i then sum[e] else d0[e]
      invariant forall e :: 0 <= e < oldCost.Length ==> oldCost[e] == if e < i then n[e] else o0[e]
      invariant isNonzero == exists e :: 0 <= e < i && n[e] != At(o0, e)
    {
      assert newCost[i] == n[i];
      if newCost[i] != oldCost[i] {
        var d: int, c: int, o: int := dst[i], newCost[i], oldCost[i];
        dst[i] := Wrap(d + c - o);
        oldCost[i] := newCost[i];
        isNonzero := true;
      } else {
        WrapOf(dst[i]);
      }
    }
    assert dst[..] == sum;
    assert oldCost[..] == n;
  }

  lemma {:induction false} WrapOf(c: Counter)
    ensures Wrap(c) == c
  {}

  /** Copies `src`, where a missing array counts as zero, into `pdst`, allocated now if need be. */
  method CopyCostLz(pdst: array?<Counter>, src: array?<Counter>) returns (dst: array?<Counter>)
    requires pdst != null && src != null ==> pdst.Length == src.Length && pdst != src
    modifies pdst
    ensures if pdst == null && src != null then dst != null && fresh(dst) && dst.Length == src.Length else dst == pdst
    ensures forall e: nat :: At(Value(dst), e) == At(Value(src), e)
    ensures Value(src) == old(Value(src))
  {
    dst := pdst;
    if src == null {
      if dst != null { ZeroCost(dst); }
      return;
    }
    if dst == null { dst := new Counter[src.Length](_ => 0); }
    CopyCost(dst, src);
  }

  method ZeroCost(dst: array<Counter>)
    modifies dst
    ensures forall e :: 0 <= e < dst.Length ==> dst[e] == 0
  {
    for i := 0 to dst.Length
      invariant forall e :: 0 <= e < i ==> dst[e] == 0
    {
      dst[i] := 0;
    }
  }

  method CopyCost(dst: array<Counter>, src: array<Counter>)
    requires dst.Length == src.Length && dst != src
    modifies dst
    ensures dst[..] == src[..] == old(src[..])
  {
    ghost var was := src[..];
    for i := 0 to src.Length
      invariant src[..] == was
      invariant forall e :: 0 <= e < i ==> dst[e] == src[e]
    {
      assert src[i] == was[i];
      dst[i] := src[i];
    }
    assert dst[..] == src[..];
  }
}
