/** What an access does to a cache and to a hierarchy of two, told by the blocks that were referenced
    before and by the bytes that the access covers. */
module CacheAccess {
  import Wrappers
  import opened Arithmetic
  import opened LruSet
  import opened CacheSim

  /** Block `b` is not in a cache of `sets` sets of `assoc` ways after references to `blocks`: it is new,
      or as many others of its set as there are ways were referenced since. */
  ghost predicate Missing(sets: nat, assoc: nat, blocks: seq<nat>, b: nat)
    requires sets > 0
  {
    b !in blocks || |OthersSince(Mapped(blocks, sets, b % sets), b)| >= assoc
  }

  /** The blocks of the bytes from `a` to `a + size - 1`, for an access that covers at most two. */
  function Blocks(line: nat, a: nat, size: nat): (r: seq<nat>)
    requires line > 0 && size > 0
    ensures r != [] && r[0] == a / line && |r| <= 2
  {
    if (a + size - 1) / line == a / line then [a / line] else [a / line, (a + size - 1) / line]
  }

  /** One of the blocks is missing when its turn comes. */
  ghost predicate AnyMissing(sets: nat, assoc: nat, before: seq<nat>, blocks: seq<nat>)
    requires sets > 0
  {
    exists i :: 0 <= i < |blocks| && Missing(sets, assoc, before + blocks[..i], blocks[i])
  }

  /** The bytes are in the address space, in at most two blocks, and none of them is in block 0. */
  predicate Fits(line: nat, a: nat, size: nat)
    requires line > 0
  {
    size > 0 && a + size <= WORD && a >= line && (a + size - 1) / line <= a / line + 1
  }

  lemma {:induction false} RunBlocksMore(st: State, before: seq<nat>, b: nat)
    requires Proper(st)
    ensures RunBlocks(st, before + [b]) == SetRef(RunBlocks(st, before), b)
  {
    assert (before + [b])[..|before|] == before;
  }

  lemma {:induction false} BlocksOf(line: nat, a: nat, size: nat)
    requires line > 0 && Fits(line, a, size)
    ensures var b1, b2 := a / line, (a + size - 1) / line;
      && b1 > 0 && (b2 == b1 || b2 == b1 + 1)
      && Blocks(line, a, size) == (if b1 == b2 then [b1] else [b1, b2])
      && Block(a, line) == b1 && Block(LastByte(a, size), line) == b2
  {
    QuotientGrows(a, a + size - 1, line);
    QuotientGrows(line, a, line);
    Divided(line, line, 1, 0);
  }

  lemma {:induction false} QuotientGrows(a: nat, b: nat, p: nat)
    requires p > 0 && a <= b
    ensures a / p <= b / p
  {
    var q, x := a / p, a % p + (b - a);
    assert b == p * (x / p + q) + x % p;
    Divided(b, p, x / p + q, x % p);
  }

  lemma {:induction false} TwoMissing(sets: nat, assoc: nat, before: seq<nat>, b1: nat, b2: nat)
    requires sets > 0
    ensures AnyMissing(sets, assoc, before, [b1]) <==> Missing(sets, assoc, before, b1)
    ensures AnyMissing(sets, assoc, before, [b1, b2]) <==>
      Missing(sets, assoc, before, b1) || Missing(sets, assoc, before + [b1], b2)
  {
    hide Missing;
    assert [b1][..0] == [] && [b1, b2][..0] == [] && [b1, b2][..1] == [b1] && before + [] == before;
    if Missing(sets, assoc, before, b1) {
      assert Missing(sets, assoc, before + [b1][..0], [b1][0]);
      assert Missing(sets, assoc, before + [b1, b2][..0], [b1, b2][0]);
    }
    if Missing(sets, assoc, before + [b1], b2) {
      assert Missing(sets, assoc, before + [b1, b2][..1], [b1, b2][1]);
    }
  }

  /** An access misses if and only if the block of its first byte is missing, or the block of its last
      byte is missing once the first has been referenced. */
  lemma {:induction false} AccessMissIff(sets: nat, assoc: nat, line: nat, before: seq<nat>, a: nat, size: nat)
    requires sets > 0 && assoc > 0 && line > 0 && 0 !in before && Fits(line, a, size)
    ensures var r := Ref(RunBlocks(Empty(sets, assoc), before), line, a, size);
      var b1, b2 := a / line, (a + size - 1) / line;
      && r.Some?
      && (r.value.1 <==>
            Missing(sets, assoc, before, b1) || (b2 != b1 && Missing(sets, assoc, before + [b1], b2)))
      && r.value.0 == RunBlocks(Empty(sets, assoc), before + Blocks(line, a, size))
  {
    var st, b1, b2 := Empty(sets, assoc), a / line, (a + size - 1) / line;
    BlocksOf(line, a, size);
    BlockMissIff(sets, assoc, before, b1);
    BlockMissIff(sets, assoc, before + [b1], b2);
    RunBlocksMore(st, before, b1);
    RunBlocksMore(st, before + [b1], b2);
    assert before + [b1, b2] == before + [b1] + [b2];
    hide Missing, Block, LastByte, Blocks, RunBlocks, IsMiss, SetRef, Empty, Fits, Proper;
  }

  /** It panics exactly if the bytes run over the end of the address space or cover more blocks. */
  lemma {:induction false} AccessPanicsIff(st: State, line: nat, a: nat, size: nat)
    requires Proper(st) && line > 0 && size > 0 && a + size <= WORD
    ensures Ref(st, line, a, size).None? <==> (a + size - 1) / line > a / line + 1
  {
    QuotientGrows(a, a + size - 1, line);
  }

  // ----- two levels

  datatype Geometry = Geometry(sets: nat, assoc: nat, line: nat)

  predicate Built(g: Geometry) { g.sets > 0 && g.assoc > 0 && g.line > 0 }

  /** A cache of this kind after references to `before`. */
  function After(g: Geometry, before: seq<nat>): (st: State)
    requires Built(g)
    ensures Proper(st)
  {
    RunBlocks(Empty(g.sets, g.assoc), before)
  }

  /** Whether an access misses after references to `before`. */
  ghost predicate AccessMisses(g: Geometry, before: seq<nat>, a: nat, size: nat)
    requires Built(g) && size > 0
  {
    AnyMissing(g.sets, g.assoc, before, Blocks(g.line, a, size))
  }

  lemma {:induction false} RefMisses(g: Geometry, before: seq<nat>, a: nat, size: nat)
    requires Built(g) && 0 !in before && Fits(g.line, a, size)
    ensures Ref(After(g, before), g.line, a, size) ==
      Wrappers.Some((After(g, before + Blocks(g.line, a, size)), AccessMisses(g, before, a, size)))
  {
    AccessMissIff(g.sets, g.assoc, g.line, before, a, size);
    TwoMissing(g.sets, g.assoc, before, a / g.line, (a + size - 1) / g.line);
    hide Missing, RunBlocks, Ref, Fits, AnyMissing;
  }

  /** An access misses the last level if and only if it misses the first level, and the last one after
      all accesses that got there. */
  lemma {:induction false} TwoLevelMisses(g1: Geometry, gL: Geometry, h1: seq<nat>, hL: seq<nat>, a: nat, size: nat)
    requires Built(g1) && Built(gL) && 0 !in h1 && 0 !in hL && Fits(g1.line, a, size) && Fits(gL.line, a, size)
    ensures var miss := AccessMisses(g1, h1, a, size);
      Doref(After(g1, h1), After(gL, hL), g1.line, gL.line, a, size) ==
        Wrappers.Some(TwoLevel(After(g1, h1 + Blocks(g1.line, a, size)),
          After(gL, if miss then hL + Blocks(gL.line, a, size) else hL), miss, miss && AccessMisses(gL, hL, a, size)))
  {
    RefMisses(g1, h1, a, size);
    RefMisses(gL, hL, a, size);
    hide AccessMisses, Ref, Fits, Blocks, After;
  }
}
