/** The Adler-32 checksum, with the modulo taken only where a 32-bit sum could overflow. */
module Adler {
  import opened Arithmetic
  import opened Wrappers

  newtype UInt = x: int | 0 <= x < 0x1_0000_0000
  newtype UChar = x: int | 0 <= x < 256

  const BASE: UInt := 65521
  const NMAX := 5552

  /** The two sums of section 2.2 of RFC 1950. */
  datatype Sums = Sums(s1: nat, s2: nat)

  predicate Reduced(s: Sums) { s.s1 < BASE as nat && s.s2 < BASE as nat }

  /** One byte at a time, both sums modulo 65521. */
  function Next(s: Sums, x: UChar): (r: Sums)
    ensures Reduced(r)
  {
    var s1 := (s.s1 + x as nat) % BASE as nat;
    Sums(s1, (s.s2 + s1) % BASE as nat)
  }

  function Fold(s: Sums, bytes: seq<UChar>): (r: Sums)
    ensures Reduced(s) ==> Reduced(r)
    decreases |bytes|
  {
    if bytes == [] then s else Fold(Next(s, bytes[0]), bytes[1..])
  }

  /** The sums in a running checksum, and back. */
  function Unpack(adler: UInt): Sums { Sums(adler as nat % 65536, adler as nat / 65536) }

  function Pack(s: Sums): (r: UInt)
    requires Reduced(s)
    ensures Unpack(r) == s
  {
    (s.s1 + s.s2 * 65536) as UInt
  }

  /** Checksumming one chunk after the other is checksumming all of them together. */
  lemma {:induction false} FoldConcat(s: Sums, a: seq<UChar>, b: seq<UChar>)
    ensures Fold(s, a + b) == Fold(Fold(s, a), b)
    decreases |a|
  {
    if a == [] {
      assert a + b == b;
    } else {
      assert (a + b)[1..] == a[1..] + b;
      FoldConcat(Next(s, a[0]), a[1..], b);
    }
  }

  /** Both sums as sums over all bytes: the second counts each byte once for itself and once for
      every byte after it. */
  function Total(bytes: seq<UChar>): nat {
    if bytes == [] then 0 else bytes[0] as nat + Total(bytes[1..])
  }

  function Weighted(bytes: seq<UChar>): nat {
    if bytes == [] then 0 else |bytes| * bytes[0] as nat + Weighted(bytes[1..])
  }

  /** The checksum in closed form. */
  lemma {:induction false} FoldSums(s: Sums, bytes: seq<UChar>)
    requires Reduced(s)
    ensures Fold(s, bytes).s1 == (s.s1 + Total(bytes)) % BASE as nat
    ensures Fold(s, bytes).s2 == (s.s2 + |bytes| * s.s1 + Weighted(bytes)) % BASE as nat
    decreases |bytes|
  {
    if bytes != [] {
      var x, t := bytes[0] as nat, Next(s, bytes[0]);
      FoldSums(t, bytes[1..]);
      ModAdd(s.s1 + x, Total(bytes[1..]), BASE as int);
      SecondSum(s, x, t, |bytes| - 1, Weighted(bytes[1..]));
    }
  }

  lemma {:induction false} SecondSum(s: Sums, x: nat, t: Sums, m: nat, w: nat)
    requires t.s1 == (s.s1 + x) % BASE as nat && t.s2 == (s.s2 + t.s1) % BASE as nat
    ensures (t.s2 + m * t.s1 + w) % BASE as int == (s.s2 + (m + 1) * s.s1 + ((m + 1) * x + w)) % BASE as int
  {
    var b := BASE as int;
    var q := (s.s1 + x) / b;
    assert s.s1 + x == q * b + t.s1;
    ModAdd(s.s2 + t.s1, m * t.s1 + w, b);
    ModShift(s.s2 + (m + 1) * t.s1 + w, b, (m + 1) * q);
    assert s.s2 + (m + 1) * t.s1 + w + (m + 1) * q * b == s.s2 + (m + 1) * s.s1 + ((m + 1) * x + w);
  }

  // ----- the deferred modulo

  /** What the sums can be after `j` bytes without a reduction. */
  predicate Bounded(adler: int, sum2: int, j: nat) {
    && 0 <= adler <= BASE as int - 1 + 255 * j
    && 0 <= sum2 && 2 * sum2 <= 2 * (j + 1) * (BASE as int - 1) + 255 * j * (j + 1)
  }

  /** The defining property of NMAX: up to there the sums fit 32 bits. */
  lemma {:induction false} BoundedFits(adler: int, sum2: int, j: nat)
    requires Bounded(adler, sum2, j) && j <= NMAX
    ensures adler < 0x1_0000_0000 && sum2 < 0x1_0000_0000
  {
    Growing(j, NMAX);
  }

  /** The largest second sum after `j` bytes. */
  function TopSum(j: nat): int { 255 * j * (j + 1) / 2 + (j + 1) * (BASE as int - 1) }

  /** NMAX is the largest number of bytes for which the sums must fit. */
  lemma {:induction false} NmaxIsLargest(j: nat)
    ensures TopSum(j) <= 0xFFFF_FFFF <==> j <= NMAX
  {
    if j <= NMAX { Growing(j, NMAX); } else { Growing(NMAX + 1, j); }
  }

  lemma {:induction false} Growing(i: nat, j: nat)
    requires i <= j
    ensures i * (i + 1) <= j * (j + 1)
  {
    assert i * (i + 1) <= i * (j + 1);
  }

  lemma {:induction false} BoundedNext(adler: int, sum2: int, j: nat, x: UChar)
    requires Bounded(adler, sum2, j)
    ensures Bounded(adler + x as int, sum2 + adler + x as int, j + 1)
  {
    assert 255 * (j + 1) * (j + 2) == 255 * j * (j + 1) + 510 * (j + 1);
  }

  /** The sums before a reduction and the sums of the definition. */
  predicate Matches(adler: int, sum2: int, s: Sums) {
    adler % BASE as int == s.s1 && sum2 % BASE as int == s.s2
  }

  lemma {:induction false} MatchesNext(adler: int, sum2: int, s: Sums, x: UChar)
    requires Matches(adler, sum2, s)
    ensures Matches(adler + x as int, sum2 + adler + x as int, Next(s, x))
  {
    ModAdd(adler, x as int, BASE as int);
    ModAdd(sum2, adler + x as int, BASE as int);
    ModAdd(adler + x as int, s.s2, BASE as int);
  }

  lemma {:induction false} FoldNext(s: Sums, bytes: seq<UChar>, x: UChar)
    ensures Fold(s, bytes + [x]) == Next(Fold(s, bytes), x)
  {
    FoldConcat(s, bytes, [x]);
    assert [x][1..] == [];
  }

  /** Reduces by conditional subtraction of the multiples of BASE from `top` down. */
  method ModBy(a: UInt, shift: nat) returns (r: UInt)
    requires shift <= 16 && a as int < BASE as int * Pow2(shift + 1)
    ensures r as int == a as int % BASE as int
  {
    r := a;
    var k: nat := shift;
    while true
      invariant k <= shift && r as int < BASE as int * Pow2(k + 1) && r as int % BASE as int == a as int % BASE as int
      decreases k
    {
      Pow2Small(k);
      var b := (BASE as int * Pow2(k)) as UInt;
      if r >= b {
        ModShift(r as int - b as int, BASE as int, Pow2(k));
        r := r - b;
      }
      if k == 0 { break; }
      k := k - 1;
    }
  }

  function Pow2(k: nat): nat { if k == 0 then 1 else 2 * Pow2(k - 1) }

  lemma {:induction false} Pow2Small(k: nat)
    requires k <= 16
    ensures 1 <= Pow2(k) <= 65536
    decreases 16 - k
  {
    assert Pow2(4) == 16;
    assert Pow2(8) == 256;
    assert Pow2(12) == 4096;
    assert Pow2(16) == 65536;
    if k < 16 {
      Pow2Small(k + 1);
      Pow2Positive(k);
    }
  }

  lemma {:induction false} Pow2Positive(k: nat)
    ensures Pow2(k) >= 1
  {
    if k > 0 { Pow2Positive(k - 1); }
  }

  /** Adds `n` bytes from `ptr` on to both sums; none of the additions overflows. */
  method AddBytes(buf: seq<UChar>, ptr: nat, n: nat, adler0: UInt, sum20: UInt, ghost j: nat, ghost s: Sums)
      returns (adler: UInt, sum2: UInt)
    requires ptr + n <= |buf| && j + n <= NMAX
    requires Bounded(adler0 as int, sum20 as int, j) && Matches(adler0 as int, sum20 as int, s)
    ensures Bounded(adler as int, sum2 as int, j + n) && Matches(adler as int, sum2 as int, Fold(s, buf[ptr..ptr + n]))
  {
    hide Bounded, Matches, Fold, Next;
    adler, sum2 := adler0, sum20;
    assert buf[ptr..ptr] == [] && Fold(s, []) == s by { FoldNothing(s); }
    for i := 0 to n
      invariant Bounded(adler as int, sum2 as int, j + i)
      invariant Matches(adler as int, sum2 as int, Fold(s, buf[ptr..ptr + i]))
    {
      var x := buf[ptr + i];
      BoundedNext(adler as int, sum2 as int, j + i, x);
      MatchesNext(adler as int, sum2 as int, Fold(s, buf[ptr..ptr + i]), x);
      FoldNext(s, buf[ptr..ptr + i], x);
      assert buf[ptr..ptr + i] + [x] == buf[ptr..ptr + (i + 1)];
      BoundedFits(adler as int + x as int, sum2 as int + adler as int + x as int, j + i + 1);
      BoundedPositive(adler as int + x as int, sum2 as int + adler as int + x as int, j + i + 1);
      adler := adler + x as UInt;
      sum2 := sum2 + adler;
    }
  }

  lemma {:induction false} BoundedPositive(adler: int, sum2: int, j: nat)
    requires Bounded(adler, sum2, j)
    ensures adler >= 0 && sum2 >= 0
  {}

  lemma {:induction false} FoldNothing(s: Sums)
    ensures Fold(s, []) == s
  {}

  /** Short and long buffers, in blocks of NMAX bytes: the checksum is that of the definition, for
      any running value whose two halves are below BASE. No buffer asks for the initial value. */
  method Adler32(adler0: UInt, buf: Option<seq<UChar>>) returns (r: UInt)
    requires Reduced(Unpack(adler0))
    ensures match buf
      case None => r == 1
      case Some(bytes) => Reduced(Unpack(r)) && Unpack(r) == Fold(Unpack(adler0), bytes)
  {
    if buf == None { return 1; }
    var bytes := buf.value;
    var adler, sum2 := adler0 % 65536, adler0 / 65536;
    ghost var s := Unpack(adler0);
    hide Fold, Next;
    if |bytes| == 1 {
      r := OneByte(adler, sum2, bytes[0]);
      assert bytes == [bytes[0]] && Fold(s, bytes) == Next(s, bytes[0]) by { FoldOne(s, bytes[0]); }
    } else if |bytes| < 16 {
      StartBounded(s);
      adler, sum2 := AddBytes(bytes, 0, |bytes|, adler, sum2, 0, s);
      assert bytes[0..|bytes|] == bytes;
      r := ReduceShort(adler, sum2, |bytes|, Fold(s, bytes));
    } else {
      r := Blocks(adler, sum2, bytes, s);
    }
  }

  lemma {:induction false} FoldOne(s: Sums, x: UChar)
    ensures Fold(s, [x]) == Next(s, x)
  {
    assert [x][1..] == [];
  }

  lemma {:induction false} Lowered(a: nat)
    requires a < 2 * BASE as nat
    ensures a % BASE as nat == if a < BASE as nat then a else a - BASE as nat
  {}

  method OneByte(adler0: UInt, sum20: UInt, x: UChar) returns (r: UInt)
    requires adler0 < BASE && sum20 < BASE
    ensures Unpack(r) == Next(Sums(adler0 as nat, sum20 as nat), x)
  {
    var adler, sum2 := adler0 + x as UInt, sum20;
    Lowered(adler as nat);
    Lowered(sum2 as nat + (adler as nat) % BASE as nat);
    hide Pack, Unpack;
    if adler >= BASE { adler := adler - BASE; }
    sum2 := sum2 + adler;
    if sum2 >= BASE { sum2 := sum2 - BASE; }
    r := Pack(Sums(adler as nat, sum2 as nat));
  }

  lemma {:induction false} StartBounded(s: Sums)
    requires Reduced(s)
    ensures Bounded(s.s1, s.s2, 0) && Matches(s.s1, s.s2, s)
  {}

  lemma {:induction false} ShortBound(sum2: int, n: nat)
    requires n < 16 && 2 * sum2 <= 2 * (n + 1) * (BASE as int - 1) + 255 * n * (n + 1)
    ensures sum2 < 32 * BASE as int
  {
    Growing(n, 15);
    assert (n + 1) * (BASE as int - 1) <= 16 * (BASE as int - 1);
  }

  lemma {:induction false} ShortSums(adler: nat, sum2: nat, n: nat, s: Sums)
    requires n < 16 && Bounded(adler, sum2, n) && Matches(adler, sum2, s)
    ensures Reduced(s) && s.s1 == (if adler < BASE as nat then adler else adler - BASE as nat)
    ensures s.s2 == sum2 % BASE as nat
    ensures sum2 < BASE as nat * Pow2(5)
  {
    ShortBound(sum2, n);
    Lowered(adler);
    assert Pow2(5) == 32;
  }

  /** Fewer than 16 bytes: one subtraction is enough for the first sum, five for the second. */
  method ReduceShort(adler0: UInt, sum20: UInt, ghost n: nat, ghost s: Sums) returns (r: UInt)
    requires n < 16 && Bounded(adler0 as int, sum20 as int, n) && Matches(adler0 as int, sum20 as int, s)
    ensures Reduced(s) && Unpack(r) == s
  {
    var adler := adler0;
    ShortSums(adler0 as nat, sum20 as nat, n, s);
    hide *;
    if adler >= BASE { adler := adler - BASE; }
    var sum2 := ModBy(sum20, 4);
    r := Pack(Sums(adler as nat, sum2 as nat));
  }

  method Reduce(adler0: UInt, sum20: UInt, ghost s: Sums) returns (adler: UInt, sum2: UInt)
    requires Matches(adler0 as int, sum20 as int, s)
    ensures Reduced(s) && adler as nat == s.s1 && sum2 as nat == s.s2
  {
    assert Pow2(17) == 131072 by { assert Pow2(13) == 8192; }
    adler := ModBy(adler0, 16);
    sum2 := ModBy(sum20, 16);
  }

  /** Up to NMAX bytes, sixteen at a time and the rest one at a time, and then one reduction. */
  method OneBlock(bytes: seq<UChar>, start: nat, n: nat, adler0: UInt, sum20: UInt, ghost s: Sums)
      returns (adler: UInt, sum2: UInt)
    requires start + n <= |bytes| && n <= NMAX && Reduced(s) && s == Sums(adler0 as nat, sum20 as nat)
    ensures Reduced(Fold(s, bytes[start..start + n]))
    ensures Sums(adler as nat, sum2 as nat) == Fold(s, bytes[start..start + n])
  {
    StartBounded(s);
    hide Fold, Next, Bounded, Matches, Reduced;
    adler, sum2 := adler0, sum20;
    var left := n;
    assert bytes[start..start] == [] && Fold(s, []) == s by { FoldNothing(s); }
    while left >= 16
      invariant 0 <= left <= n && Bounded(adler as int, sum2 as int, n - left)
      invariant Matches(adler as int, sum2 as int, Fold(s, bytes[start..start + (n - left)]))
    {
      adler, sum2 := AddMore(bytes, start, n - left, 16, adler, sum2, s);
      left := left - 16;
    }
    adler, sum2 := AddMore(bytes, start, n - left, left, adler, sum2, s);
    adler, sum2 := Reduce(adler, sum2, Fold(s, bytes[start..start + n]));
  }

  method AddMore(bytes: seq<UChar>, start: nat, done: nat, k: nat, adler0: UInt, sum20: UInt, ghost s: Sums)
      returns (adler: UInt, sum2: UInt)
    requires start + done + k <= |bytes| && done + k <= NMAX && Bounded(adler0 as int, sum20 as int, done)
    requires Matches(adler0 as int, sum20 as int, Fold(s, bytes[start..start + done]))
    ensures Bounded(adler as int, sum2 as int, done + k)
    ensures Matches(adler as int, sum2 as int, Fold(s, bytes[start..start + (done + k)]))
  {
    hide Fold, Next, Bounded, Matches;
    adler, sum2 := AddBytes(bytes, start + done, k, adler0, sum20, done, Fold(s, bytes[start..start + done]));
    FoldConcat(s, bytes[start..start + done], bytes[start + done..start + done + k]);
    assert bytes[start..start + done] + bytes[start + done..start + done + k] == bytes[start..start + (done + k)];
  }

  method Blocks(adler0: UInt, sum20: UInt, bytes: seq<UChar>, ghost s: Sums) returns (r: UInt)
    requires Reduced(s) && s == Sums(adler0 as nat, sum20 as nat)
    ensures Reduced(Fold(s, bytes)) && Unpack(r) == Fold(s, bytes)
  {
    hide Fold;
    var adler, sum2 := adler0, sum20;
    var ptr: nat := 0;
    assert bytes[..0] == [] && Fold(s, []) == s by { FoldNothing(s); }
    while |bytes| - ptr >= NMAX
      invariant ptr <= |bytes|
      invariant Sums(adler as nat, sum2 as nat) == Fold(s, bytes[..ptr])
    {
      adler, sum2 := NextBlock(bytes, ptr, NMAX, adler, sum2, s);
      ptr := ptr + NMAX;
    }
    if ptr < |bytes| {
      adler, sum2 := NextBlock(bytes, ptr, |bytes| - ptr, adler, sum2, s);
      ptr := |bytes|;
    }
    assert bytes[..ptr] == bytes;
    r := Pack(Sums(adler as nat, sum2 as nat));
  }

  method NextBlock(bytes: seq<UChar>, ptr: nat, n: nat, adler0: UInt, sum20: UInt, ghost s: Sums)
      returns (adler: UInt, sum2: UInt)
    requires ptr + n <= |bytes| && n <= NMAX && Reduced(s) && Sums(adler0 as nat, sum20 as nat) == Fold(s, bytes[..ptr])
    ensures Sums(adler as nat, sum2 as nat) == Fold(s, bytes[..ptr + n])
  {
    hide Fold;
    adler, sum2 := OneBlock(bytes, ptr, n, adler0, sum20, Fold(s, bytes[..ptr]));
    FoldConcat(s, bytes[..ptr], bytes[ptr..ptr + n]);
    assert bytes[..ptr] + bytes[ptr..ptr + n] == bytes[..ptr + n];
  }
}
