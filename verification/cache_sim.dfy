/** The flat caches of the simulators, their tags shuffled in place, and the two-level hierarchy. */
module CacheSim {
  import opened Wrappers
  import opened Arithmetic
  import opened LruSet

  const WORD: nat := 0x1_0000_0000_0000_0000

  /** The memory block of an address: the shift by the line size bits is a division by the line size. */
  function Block(a: nat, line: nat): nat
    requires line > 0
  {
    a / line
  }

  /** The address of the last byte of an access, in machine words. */
  function LastByte(a: nat, size: nat): nat {
    if a + size == 0 then WORD - 1
    else if a + size <= WORD then a + size - 1
    else a + size - 1 - WORD
  }

  // ----- a cache as a list of sets

  type State = seq<seq<nat>>

  ghost predicate Proper(st: State) {
    |st| > 0 && forall i :: 0 <= i < |st| ==> st[i] != []
  }

  /** A reference to one block; the tag is the whole block number. */
  function SetRef(st: State, block: nat): (r: State)
    requires Proper(st)
    ensures Proper(r) && |r| == |st|
  {
    var i := block % |st|;
    st[i := Touch(st[i], block)]
  }

  function IsMiss(st: State, block: nat): bool
    requires Proper(st)
  {
    block !in st[block % |st|]
  }

  /** An access to the blocks of its first and last byte: the new state and whether it missed. Two
      adjacent blocks count as one access, which misses if either does; anything else is the
      simulator's panic. */
  function RefBlocks(st: State, b1: nat, b2: nat): (r: Option<(State, bool)>)
    requires Proper(st)
    ensures r.Some? ==> Proper(r.value.0) && |r.value.0| == |st|
  {
    if b1 == b2 then Some((SetRef(st, b1), IsMiss(st, b1)))
    else if b1 + 1 == b2 then
      var st1 := SetRef(st, b1);
      Some((SetRef(st1, b2), IsMiss(st, b1) || IsMiss(st1, b2)))
    else None
  }

  function Ref(st: State, line: nat, a: nat, size: nat): (r: Option<(State, bool)>)
    requires Proper(st) && line > 0
    ensures r.Some? ==> Proper(r.value.0) && |r.value.0| == |st|
  {
    RefBlocks(st, Block(a, line), Block(LastByte(a, size), line))
  }

  lemma {:induction false} NextQuotient(a: nat, b: nat, p: nat)
    requires p > 0 && a <= b < a + p
    ensures b / p == a / p || b / p == a / p + 1
  {
    var q, r := a / p, a % p;
    assert a == p * q + r;
    if r + (b - a) < p {
      Divided(b, p, q, r + (b - a));
    } else {
      assert p * (q + 1) == p * q + p;
      Divided(b, p, q + 1, r + (b - a) - p);
    }
  }

  /** An access no longer than a line panics exactly if it runs over the end of the address space. */
  lemma {:induction false} ShortAccessFits(st: State, line: nat, a: nat, size: nat)
    requires Proper(st) && a < WORD && 1 <= size <= line <= WORD / 2
    ensures Ref(st, line, a, size).Some? <==> a + size <= WORD
  {
    if a + size <= WORD {
      NextQuotient(a, a + size - 1, line);
    } else {
      Divided(a + size - 1 - WORD, line, 0, a + size - 1 - WORD);
    }
  }

  // ----- inclusion

  ghost predicate Included(small: State, big: State) {
    && Proper(small) && |small| == |big|
    && forall i :: 0 <= i < |small| ==> |small[i]| <= |big[i]| && small[i] == big[i][..|small[i]|]
  }

  lemma {:induction false} SetRefKeepsInclusion(small: State, big: State, block: nat)
    requires Included(small, big) && Proper(big)
    ensures Included(SetRef(small, block), SetRef(big, block))
    ensures IsMiss(big, block) ==> IsMiss(small, block)
  {
    var i := block % |small|;
    TouchKeepsInclusion(small[i], big[i], block);
  }

  lemma {:induction false} RefKeepsInclusion(small: State, big: State, b1: nat, b2: nat)
    requires Included(small, big) && Proper(big)
    ensures var r, r' := RefBlocks(small, b1, b2), RefBlocks(big, b1, b2);
      && (r.Some? <==> r'.Some?)
      && (r.Some? ==> Included(r.value.0, r'.value.0) && (r'.value.1 ==> r.value.1))
  {
    SetRefKeepsInclusion(small, big, b1);
    SetRefKeepsInclusion(SetRef(small, b1), SetRef(big, b1), b2);
  }

  type Access = (nat, nat)     // address and size

  /** Which accesses of a trace miss; the run stops at a panic. */
  function Misses(st: State, line: nat, trace: seq<Access>): (r: seq<bool>)
    requires Proper(st) && line > 0
    decreases trace
  {
    if trace == [] then []
    else
      var r := Ref(st, line, trace[0].0, trace[0].1);
      if r.None? then [] else [r.value.1] + Misses(r.value.0, line, trace[1..])
  }

  function Empty(sets: nat, assoc: nat): (st: State)
    requires sets > 0 && assoc > 0
    ensures Proper(st) && |st| == sets
  {
    seq(sets, _ => Zeros(assoc))
  }

  /** Every miss of the first run is a miss of the second. */
  ghost predicate MissesWithin(s: seq<bool>, t: seq<bool>) {
    |s| == |t| && forall i :: 0 <= i < |s| && s[i] ==> t[i]
  }

  lemma {:induction false} RunKeepsInclusion(small: State, big: State, line: nat, trace: seq<Access>)
    requires Included(small, big) && Proper(small) && Proper(big) && line > 0
    ensures MissesWithin(Misses(big, line, trace), Misses(small, line, trace))
    decreases trace
  {
    hide Proper, Block, LastByte, RefBlocks;
    if trace != [] {
      RefKeepsInclusion(small, big, Block(trace[0].0, line), Block(LastByte(trace[0].0, trace[0].1), line));
      var r, r' := Ref(small, line, trace[0].0, trace[0].1), Ref(big, line, trace[0].0, trace[0].1);
      if r.Some? {
        RunKeepsInclusion(r.value.0, r'.value.0, line, trace[1..]);
        ConsWithin(r'.value.1, Misses(r'.value.0, line, trace[1..]), r.value.1, Misses(r.value.0, line, trace[1..]));
      }
    }
  }

  lemma {:induction false} ConsWithin(b: bool, s: seq<bool>, c: bool, t: seq<bool>)
    requires MissesWithin(s, t) && (b ==> c)
    ensures MissesWithin([b] + s, [c] + t)
  {}

  lemma {:induction false} ZerosPrefix(m: nat, n: nat)
    requires m <= n
    ensures Zeros(m) == Zeros(n)[..m]
  {}

  function CountTrue(s: seq<bool>): nat {
    if s == [] then 0 else (if s[0] then 1 else 0) + CountTrue(s[1..])
  }

  lemma {:induction false} CountMonotone(s: seq<bool>, t: seq<bool>)
    requires MissesWithin(s, t)
    ensures CountTrue(s) <= CountTrue(t)
  {
    if s != [] { CountMonotone(s[1..], t[1..]); }
  }

  /** On any trace, every access that hits with `assoc` ways hits with more ways, sets and line size
      being equal; so the number of misses never rises with associativity. */
  lemma {:induction false} MoreWaysMissLess(sets: nat, assoc: nat, more: nat, line: nat, trace: seq<Access>)
    requires sets > 0 && 0 < assoc <= more && line > 0
    ensures var few, many := Misses(Empty(sets, assoc), line, trace), Misses(Empty(sets, more), line, trace);
      MissesWithin(many, few) && CountTrue(many) <= CountTrue(few)
  {
    ZerosPrefix(assoc, more);
    RunKeepsInclusion(Empty(sets, assoc), Empty(sets, more), line, trace);
    CountMonotone(Misses(Empty(sets, more), line, trace), Misses(Empty(sets, assoc), line, trace));
  }

  // ----- the tags in place

  lemma {:induction false} RowFits(i: nat, n: nat, assoc: nat)
    requires i < n
    ensures i * assoc + assoc <= n * assoc
  {
    assert (i + 1) * assoc <= n * assoc;
  }

  lemma {:induction false} RowsApart(i: nat, k: nat, assoc: nat)
    requires i != k
    ensures i * assoc + assoc <= k * assoc || k * assoc + assoc <= i * assoc
  {
    if i < k { RowFits(i, k, assoc); } else { RowFits(k, i, assoc); }
  }

  function Row<T>(flat: seq<T>, assoc: nat, n: nat, i: nat): (r: seq<T>)
    requires |flat| == n * assoc && i < n
    ensures |r| == assoc
  {
    RowFits(i, n, assoc);
    flat[i * assoc..i * assoc + assoc]
  }

  /** The flat tag array, cut into its sets. */
  function Rows(flat: seq<nat>, assoc: nat, n: nat): (st: State)
    requires |flat| == n * assoc && n > 0 && assoc > 0
    ensures Proper(st) && |st| == n && forall i :: 0 <= i < n ==> st[i] == Row(flat, assoc, n, i)
  {
    seq(n, i requires 0 <= i < n => Row(flat, assoc, n, i))
  }

  /** `flat` with the first `i + 1` cells from `base` on moved up one place and `x` in front. */
  ghost predicate Shifted(flat: seq<nat>, flat': seq<nat>, base: nat, i: nat, x: nat) {
    && |flat| == |flat'| && base + i < |flat|
    && forall k {:trigger flat'[k]} :: 0 <= k < |flat| ==>
      flat'[k] == if k == base then x else if base < k <= base + i then flat[k - 1] else flat[k]
  }

  lemma {:induction false} ShiftedRow(flat: seq<nat>, flat': seq<nat>, base: nat, assoc: nat, i: nat, x: nat)
    requires base + assoc <= |flat| && i < assoc && Shifted(flat, flat', base, i, x)
    ensures flat'[base..base + assoc] == MoveFront(flat[base..base + assoc], i, x)
  {}

  lemma {:induction false} ShiftedElsewhere(flat: seq<nat>, flat': seq<nat>, base: nat, i: nat, x: nat, lo: nat,
                                            hi: nat)
    requires lo <= hi <= |flat| && Shifted(flat, flat', base, i, x) && (hi <= base || base + i < lo)
    ensures flat'[lo..hi] == flat[lo..hi]
  {}

  /** Shuffling within the flat array is shuffling within the one set. */
  lemma {:induction false} ShiftedRows(flat: seq<nat>, flat': seq<nat>, assoc: nat, n: nat, setNo: nat, i: nat, x: nat)
    requires |flat| == n * assoc == |flat'| && setNo < n && i < assoc
    requires Shifted(flat, flat', setNo * assoc, i, x)
    ensures Rows(flat', assoc, n) == Rows(flat, assoc, n)[setNo := MoveFront(Row(flat, assoc, n, setNo), i, x)]
  {
    hide MoveFront, Shifted, Row;
    forall j | 0 <= j < n
      ensures Row(flat', assoc, n, j) ==
        if j == setNo then MoveFront(Row(flat, assoc, n, j), i, x) else Row(flat, assoc, n, j)
    {
      RowAfterShift(flat, flat', assoc, n, setNo, i, x, j);
    }
  }

  lemma {:induction false} RowAfterShift(flat: seq<nat>, flat': seq<nat>, assoc: nat, n: nat, setNo: nat, i: nat,
                                         x: nat, j: nat)
    requires |flat| == n * assoc == |flat'| && setNo < n && i < assoc && j < n
    requires Shifted(flat, flat', setNo * assoc, i, x)
    ensures Row(flat', assoc, n, j) ==
      if j == setNo then MoveFront(Row(flat, assoc, n, j), i, x) else Row(flat, assoc, n, j)
  {
    hide MoveFront, Shifted;
    var base := setNo * assoc;
    RowFits(setNo, n, assoc);
    RowFits(j, n, assoc);
    if j == setNo {
      ShiftedRow(flat, flat', base, assoc, i, x);
    } else {
      RowsApart(j, setNo, assoc);
      ShiftedElsewhere(flat, flat', base, i, x, j * assoc, j * assoc + assoc);
    }
  }

  /** The shuffle loop, the same in all simulators: cells before `base + i` move up one place. */
  method ShuffleTags(tags: array<nat>, base: nat, i: nat, tag: nat)
    requires base + i < tags.Length
    modifies tags
    ensures Shifted(old(tags[..]), tags[..], base, i, tag)
  {
    var j := i;
    while j > 0
      invariant 0 <= j <= i
      invariant forall k {:trigger tags[k]} :: 0 <= k < tags.Length ==>
        tags[k] == if base + j < k <= base + i then old(tags[k - 1]) else old(tags[k])
    {
      tags[base + j] := tags[base + j - 1];
      j := j - 1;
    }
    tags[base] := tag;
  }

  class Cache {
    const assoc: nat
    const sets: nat
    const line: nat
    const tags: array<nat>

    ghost predicate Valid() {
      assoc > 0 && sets > 0 && line > 0 && tags.Length == sets * assoc
    }

    ghost function State(): (st: State)
      requires Valid()
      reads tags
      ensures Proper(st) && |st| == sets
    {
      Rows(tags[..], assoc, sets)
    }

    constructor (assoc: nat, sets: nat, line: nat)
      requires assoc > 0 && sets > 0 && line > 0
      ensures Valid() && fresh(tags) && this.assoc == assoc && this.sets == sets && this.line == line
      ensures State() == Empty(sets, assoc)
    {
      this.assoc, this.sets, this.line := assoc, sets, line;
      tags := new nat[sets * assoc](_ => 0);
      new;
      forall i | 0 <= i < sets ensures Row(tags[..], assoc, sets, i) == Zeros(assoc) {
        RowFits(i, sets, assoc);
      }
    }

    /** Moves the tags before position `i` of a set down one place and puts `tag` in front. */
    method Shuffle(ghost setNo: nat, base: nat, i: nat, tag: nat)
      requires Valid() && setNo < sets && base == setNo * assoc && i < assoc
      modifies tags
      ensures State() == old(State())[setNo := MoveFront(old(State())[setNo], i, tag)]
    {
      RowFits(setNo, sets, assoc);
      ShuffleTags(tags, base, i, tag);
      ShiftedRows(old(tags[..]), tags[..], assoc, sets, setNo, i, tag);
    }
  
    /** One reference into one set; false is a hit. */
    method SetrefIsMiss(setNo: nat, tag: nat) returns (miss: bool)
      requires Valid() && setNo < sets
      modifies tags
      ensures State() == old(State())[setNo := Touch(old(State())[setNo], tag)]
      ensures miss == (tag !in old(State())[setNo])
    {
      hide MoveFront;
      RowFits(setNo, sets, assoc);
      var base := setNo * assoc;
      ghost var flat := tags[..];
      ghost var s := Row(flat, assoc, sets, setNo);
      assert forall k :: 0 <= k < assoc ==> s[k] == tags[base + k];
      if tag == tags[base] {
        TouchFront(s, tag);
        assert old(State())[setNo := s] == old(State());
        return false;
      }
      for i := 1 to assoc
        invariant tags[..] == flat && forall k :: 0 <= k < i ==> s[k] != tag
      {
        if tag == tags[base + i] {
          IndexIs(s, tag, i);
          Shuffle(setNo, base, i, tag);
          return false;
        }
      }
      IndexIs(s, tag, assoc);
      Shuffle(setNo, base, assoc - 1, tag);
      miss := true;
    }

    /** One access of `size` bytes; none is the panic for an item that straddles more than two lines. */
    method RefIsMiss(a: nat, size: nat) returns (miss: Option<bool>)
      requires Valid()
      modifies tags
      ensures var r := Ref(old(State()), line, a, size);
        match r
        case None => miss == None && State() == old(State())
        case Some((st, m)) => miss == Some(m) && State() == st
    {
      var block1, block2 := a / line, LastByte(a, size) / line;
      var set1 := block1 % sets;
      if block1 == block2 {
        var m := SetrefIsMiss(set1, block1);
        return Some(m);
      } else if block1 + 1 == block2 {
        var set2 := block2 % sets;
        var m1 := SetrefIsMiss(set1, block1);
        var m2 := SetrefIsMiss(set2, block2);
        return Some(m1 || m2);
      }
      return None;
    }
  }

  lemma {:induction false} TouchFront<T>(s: seq<T>, x: T)
    requires s != [] && s[0] == x
    ensures Touch(s, x) == s
  {
    IndexIs(s, x, 0);
  }

  // ----- whole traces

  function RunBlocks(st: State, blocks: seq<nat>): (r: State)
    requires Proper(st)
    ensures Proper(r) && |r| == |st|
  {
    if blocks == [] then st else SetRef(RunBlocks(st, blocks[..|blocks| - 1]), blocks[|blocks| - 1])
  }

  /** The blocks of a trace that map to set `i`. */
  function Mapped(blocks: seq<nat>, sets: nat, i: nat): seq<nat>
    requires sets > 0
  {
    if blocks == [] then []
    else
      var before, b := Mapped(blocks[..|blocks| - 1], sets, i), blocks[|blocks| - 1];
      if b % sets == i then before + [b] else before
  }

  lemma {:induction false} SetSeesItsBlocks(sets: nat, assoc: nat, blocks: seq<nat>, i: nat)
    requires sets > 0 && assoc > 0 && i < sets
    ensures RunBlocks(Empty(sets, assoc), blocks)[i] == Run(Zeros(assoc), Mapped(blocks, sets, i))
  {
    if blocks != [] {
      SetSeesItsBlocks(sets, assoc, blocks[..|blocks| - 1], i);
      var m := Mapped(blocks[..|blocks| - 1], sets, i) + [blocks[|blocks| - 1]];
      assert m[..|m| - 1] == Mapped(blocks[..|blocks| - 1], sets, i);
    }
  }

  lemma {:induction false} MappedElements(blocks: seq<nat>, sets: nat, i: nat)
    requires sets > 0
    ensures forall b :: b in Mapped(blocks, sets, i) <==> b in blocks && b % sets == i
  {
    if blocks != [] {
      assert blocks == blocks[..|blocks| - 1] + [blocks[|blocks| - 1]];
      MappedElements(blocks[..|blocks| - 1], sets, i);
    }
  }

  /** In the whole cache, a block misses if and only if it is new or as many other blocks of its set
      as there are ways were referenced since its last reference. */
  lemma {:induction false} BlockMissIff(sets: nat, assoc: nat, blocks: seq<nat>, b: nat)
    requires sets > 0 && assoc > 0 && 0 !in blocks && b != 0
    ensures IsMiss(RunBlocks(Empty(sets, assoc), blocks), b) <==>
      b !in blocks || |OthersSince(Mapped(blocks, sets, b % sets), b)| >= assoc
  {
    SetSeesItsBlocks(sets, assoc, blocks, b % sets);
    MappedElements(blocks, sets, b % sets);
    MissIffReuseDistance(assoc, Mapped(blocks, sets, b % sets), b);
  }

  // ----- two levels

  datatype TwoLevel = TwoLevel(l1: State, ll: State, miss1: bool, missL: bool)

  /** The generic path: the second level is asked only when the first one misses. */
  function Doref(l1: State, ll: State, line1: nat, lineL: nat, a: nat, size: nat): (r: Option<TwoLevel>)
    requires Proper(l1) && Proper(ll) && line1 > 0 && lineL > 0
    ensures r.Some? ==> Proper(r.value.l1) && Proper(r.value.ll) && |r.value.l1| == |l1| && |r.value.ll| == |ll|
  {
    match Ref(l1, line1, a, size)
    case None => None
    case Some((l1', false)) => Some(TwoLevel(l1', ll, false, false))
    case Some((l1', true)) =>
      match Ref(ll, lineL, a, size)
      case None => None
      case Some((ll', m)) => Some(TwoLevel(l1', ll', true, m))
  }

  /** The test made at instrumentation time. */
  predicate IsIrNoX(line1: nat, lineL: nat, a: nat, size: nat)
    requires line1 > 0
  {
    line1 == lineL && Block(a, line1) == Block(LastByte(a, size), line1)
  }

  function Inc(n: nat): nat { (n + 1) % WORD }

  class CacheCC {
    var a: nat       // accesses of this kind
    var m1: nat      // misses in the first level
    var mL: nat      // misses in the last level
    constructor () ensures a == m1 == mL == 0 { a, m1, mL := 0, 0, 0; }
  }

  /** What one simulated reference does to the two caches and to its miss counters. */
  ghost predicate Counted(r: TwoLevel, l1: State, ll: State, m1: nat, mL: nat, m1': nat, mL': nat) {
    && l1 == r.l1 && ll == r.ll
    && m1' == (if r.miss1 then Inc(m1) else m1) && mL' == (if r.missL then Inc(mL) else mL)
  }

  method DorefGen(c1: Cache, cL: Cache, a: nat, size: nat, cc: CacheCC) returns (ok: bool)
    requires c1.Valid() && cL.Valid() && c1.tags != cL.tags
    modifies c1.tags, cL.tags, cc`m1, cc`mL
    ensures var r := Doref(old(c1.State()), old(cL.State()), c1.line, cL.line, a, size);
      ok == r.Some? && (ok ==> Counted(r.value, c1.State(), cL.State(), old(cc.m1), old(cc.mL), cc.m1, cc.mL))
  {
    var miss := c1.RefIsMiss(a, size);
    if miss == None { return false; }
    if miss.value {
      cc.m1 := Inc(cc.m1);
      var missL := cL.RefIsMiss(a, size);
      if missL == None { return false; }
      if missL.value { cc.mL := Inc(cc.mL); }
    }
    ok := true;
  }

  /** The fast path for instruction reads within one line: no size, one block, one line size. */
  function NoX(l1: State, ll: State, line1: nat, a: nat): (r: TwoLevel)
    requires Proper(l1) && Proper(ll) && line1 > 0
    ensures Proper(r.l1) && Proper(r.ll) && |r.l1| == |l1| && |r.ll| == |ll|
  {
    var b := Block(a, line1);
    if IsMiss(l1, b) then TwoLevel(SetRef(l1, b), SetRef(ll, b), true, IsMiss(ll, b))
    else TwoLevel(SetRef(l1, b), ll, false, false)
  }

  method DorefNoX(c1: Cache, cL: Cache, a: nat, cc: CacheCC)
    requires c1.Valid() && cL.Valid() && c1.tags != cL.tags
    modifies c1.tags, cL.tags, cc`m1, cc`mL
    ensures Counted(NoX(old(c1.State()), old(cL.State()), c1.line, a), c1.State(), cL.State(),
                    old(cc.m1), old(cc.mL), cc.m1, cc.mL)
  {
    var block := a / c1.line;
    var set1 := block % c1.sets;
    var miss := c1.SetrefIsMiss(set1, block);
    if miss {
      var setL := block % cL.sets;
      cc.m1 := Inc(cc.m1);
      var missL := cL.SetrefIsMiss(setL, block);
      if missL { cc.mL := Inc(cc.mL); }
    }
  }

  /** The fast path agrees with the generic one whenever the instrumentation-time test holds. */
  lemma {:induction false} NoXIsGeneric(l1: State, ll: State, line1: nat, lineL: nat, a: nat, size: nat)
    requires Proper(l1) && Proper(ll) && line1 > 0 && lineL > 0 && IsIrNoX(line1, lineL, a, size)
    ensures Doref(l1, ll, line1, lineL, a, size) == Some(NoX(l1, ll, line1, a))
  {}
}
