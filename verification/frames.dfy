/** The frames between the debuginfo server and its clients: how they are built, checked and taken
    apart. */
module Frames {
  import opened Arithmetic
  import opened Wrappers
  import opened Adler

  const MAX_FRAME := 4 * 1024 * 1024

  // ----- numbers, least significant byte first

  function LittleEndian(n: nat, k: nat): (r: seq<UChar>)
    ensures |r| == k
    decreases k
  {
    if k == 0 then [] else [(n % 256) as UChar] + LittleEndian(n / 256, k - 1)
  }

  function FromLittleEndian(s: seq<UChar>): nat {
    if s == [] then 0 else s[0] as nat + 256 * FromLittleEndian(s[1..])
  }

  function Pow256(k: nat): nat { if k == 0 then 1 else 256 * Pow256(k - 1) }

  lemma {:induction false} ReadWritten(n: nat, k: nat)
    requires n < Pow256(k)
    ensures FromLittleEndian(LittleEndian(n, k)) == n
    decreases k
  {
    if k > 0 {
      ReadWritten(n / 256, k - 1);
      var s := LittleEndian(n, k);
      assert s[1..] == LittleEndian(n / 256, k - 1);
    }
  }

  lemma {:induction false} WriteRead(s: seq<UChar>)
    ensures LittleEndian(FromLittleEndian(s), |s|) == s && FromLittleEndian(s) < Pow256(|s|)
  {
    if s != [] {
      WriteRead(s[1..]);
      var n, m := FromLittleEndian(s), FromLittleEndian(s[1..]);
      Divided(n, 256, m, s[0] as nat);
      LittleEndianUnfold(n, |s|);
      assert Pow256(|s|) == 256 * Pow256(|s| - 1);
      hide LittleEndian, FromLittleEndian, Pow256;
      assert s == [s[0]] + s[1..];
    }
  }

  method WriteLe(dst: array<UChar>, at: nat, k: nat, n: nat)
    requires at + k <= dst.Length
    modifies dst
    ensures dst[at..at + k] == LittleEndian(n, k)
    ensures dst[..at] == old(dst[..at]) && dst[at + k..] == old(dst[at + k..])
  {
    var m := n;
    hide LittleEndian;
    assert dst[at..at + 0] + LittleEndian(m, k) == LittleEndian(n, k);
    LittleEndianEnd(0);
    for i := 0 to k
      invariant m >= 0 && dst[at..at + i] + LittleEndian(m, k - i) == LittleEndian(n, k)
      invariant dst[..at] == old(dst[..at]) && dst[at + k..] == old(dst[at + k..])
    {
      ghost var b := dst[at..at + i];
      dst[at + i] := (m % 256) as UChar;
      assert dst[at..at + (i + 1)] == b + [(m % 256) as UChar];
      LittleEndianUnfold(m, k - i);
      assert b + LittleEndian(m, k - i) == b + [(m % 256) as UChar] + LittleEndian(m / 256, k - i - 1);
      m := m / 256;
    }
    LittleEndianEnd(m);
  }

  lemma {:induction false} LittleEndianUnfold(n: nat, k: nat)
    requires k > 0
    ensures LittleEndian(n, k) == [(n % 256) as UChar] + LittleEndian(n / 256, k - 1)
  {}

  lemma {:induction false} LittleEndianEnd(n: nat)
    ensures LittleEndian(n, 0) == []
  {}

  method ReadLe(src: array<UChar>, at: nat, k: nat) returns (r: nat)
    requires at + k <= src.Length
    ensures r == FromLittleEndian(src[at..at + k])
  {
    r := 0;
    for i := k downto 0
      invariant r == FromLittleEndian(src[at + i..at + k])
    {
      assert src[at + i..at + k][1..] == src[at + i + 1..at + k];
      r := 256 * r + src[at + i] as nat;
    }
  }

  // ----- frames on the wire

  /** The checksum of a frame covers its length and its data. */
  function Checksum(len: seq<UChar>, data: seq<UChar>): UInt {
    Pack(Fold(Sums(1, 0), len + data))
  }

  function Wire(data: seq<UChar>): seq<UChar> {
    var len := LittleEndian(|data|, 4);
    LittleEndian(Checksum(len, data) as nat, 4) + len + data
  }

  /** What comes out of a channel: nothing because it was closed, a failure that closes it, or the
      data of a frame and what follows. */
  datatype Received = Closed | Failed | Frame(data: seq<UChar>, rest: seq<UChar>)

  function Receive(wire: seq<UChar>): Received {
    if wire == [] then Closed
    else if |wire| < 8 then Failed
    else
      var len := FromLittleEndian(wire[4..8]);
      if len > MAX_FRAME || |wire| < 8 + len then Failed
      else
        var data := wire[8..8 + len];
        if Checksum(wire[4..8], data) as nat != FromLittleEndian(wire[..4]) then Failed
        else Frame(data, wire[8 + len..])
  }

  /** Checksumming the length and then the data, as both ends do. */
  method ChecksumOf(len: seq<UChar>, data: seq<UChar>) returns (adler: UInt)
    ensures adler == Checksum(len, data)
  {
    hide Fold;
    adler := Adler32(0, None);
    adler := Adler32(adler, Some(len));
    if data != [] { adler := Adler32(adler, Some(data)); } else { FoldNothing(Unpack(adler)); }
    FoldConcat(Sums(1, 0), len, data);
    UnpackIsInjective(adler, Checksum(len, data));
  }

  lemma {:induction false} UnpackIsInjective(a: UInt, b: UInt)
    requires Unpack(a) == Unpack(b)
    ensures a == b
  {}

  method SendFrame(data: seq<UChar>) returns (wire: seq<UChar>)
    requires |data| < 0x1_0000_0000
    ensures wire == Wire(data)
  {
    hide LittleEndian, Checksum;
    var first8 := new UChar[8](_ => 0);
    WriteLe(first8, 4, 4, |data|);
    ghost var len := LittleEndian(|data|, 4);
    var adler := ChecksumOf(first8[4..8], data);
    assert adler == Checksum(len, data);
    assert first8[4..8] == first8[4..];
    ghost var sum := LittleEndian(adler as nat, 4);
    WriteLe(first8, 0, 4, adler as nat);
    assert first8[0 + 4..] == len && first8[0..4] == sum;
    assert first8[..] == first8[0..4] + first8[4..];
    assert first8[..] == sum + len;
    wire := first8[..] + data;
  }

  method ReceiveFrame(wire: seq<UChar>) returns (r: Received)
    ensures r == Receive(wire)
  {
    if wire == [] { return Closed; }
    if |wire| < 8 { return Failed; }
    var first8 := new UChar[8](i requires 0 <= i < 8 => wire[i]);
    assert first8[..4] == wire[..4] && first8[4..8] == wire[4..8] && first8[0..4] == first8[..4];
    var sum := ReadLe(first8, 0, 4);
    var len := ReadLe(first8, 4, 4);
    if len > MAX_FRAME { return Failed; }
    if |wire| < 8 + len { return Failed; }
    var data := wire[8..8 + len];
    var adler := ChecksumOf(first8[4..8], data);
    if adler as nat != sum { return Failed; }
    r := Frame(data, wire[8 + len..]);
  }

  /** A frame of up to 4 MiB arrives, whatever follows it; a longer one never does. */
  lemma {:induction false} SentIsReceived(data: seq<UChar>, rest: seq<UChar>)
    requires |data| < 0x1_0000_0000
    ensures Receive(Wire(data) + rest) == if |data| <= MAX_FRAME then Frame(data, rest) else Failed
  {
    hide Checksum;
    var len := LittleEndian(|data|, 4);
    var sum := LittleEndian(Checksum(len, data) as nat, 4);
    var wire := Wire(data) + rest;
    assert Pow256(4) == 0x1_0000_0000;
    ReadWritten(|data|, 4);
    ReadWritten(Checksum(len, data) as nat, 4);
    hide LittleEndian, FromLittleEndian;
    assert wire[..4] == sum && wire[4..8] == len && |wire| == 8 + |data| + |rest|;
    assert wire[8..8 + |data|] == data && wire[8 + |data|..] == rest;
  }

  /** And nothing arrives that was not sent as a frame. */
  lemma {:induction false} ReceivedWasSent(wire: seq<UChar>)
    ensures Receive(wire).Frame? ==>
      wire == Wire(Receive(wire).data) + Receive(wire).rest && |Receive(wire).data| <= MAX_FRAME
  {
    if Receive(wire).Frame? {
      hide LittleEndian, FromLittleEndian, Checksum, Pow256;
      var r := Receive(wire);
      assert wire == wire[..4] + wire[4..8] + r.data + r.rest;
      WriteRead(wire[..4]);
      WriteRead(wire[4..8]);
    }
  }

  // ----- what the checksum is, and what it notices

  /** The four bytes of a number, one by one. */
  lemma {:induction false} FourBytes(n: nat)
    ensures var s := LittleEndian(n, 4);
      && s[0] as nat == n % 256 && s[1] as nat == n / 256 % 256
      && s[2] as nat == n / 65536 % 256 && s[3] as nat == n / 16777216 % 256
  {
    var a, b, c := n / 256, n / 65536, n / 16777216;
    assert a / 256 == b && b / 256 == c;
    assert LittleEndian(n, 4)[1..] == LittleEndian(a, 3);
    assert LittleEndian(a, 3)[1..] == LittleEndian(b, 2);
    assert LittleEndian(b, 2)[1..] == LittleEndian(c, 1);
  }

  /** What is on the wire: two sums over the bytes of the length and of the data, the length, and the
      data. */
  lemma {:induction false} WireSums(data: seq<UChar>)
    requires |data| < 0x1_0000_0000
    ensures |Wire(data)| == 8 + |data| && Wire(data)[8..] == data
    ensures var len, n := Wire(data)[4..8], |data|;
      && len[0] as nat == n % 256 && len[1] as nat == n / 256 % 256
      && len[2] as nat == n / 65536 % 256 && len[3] as nat == n / 16777216 % 256
      && FromLittleEndian(Wire(data)[..4]) ==
           (1 + Total(len + data)) % 65521 + (4 + n + Weighted(len + data)) % 65521 * 65536
  {
    var len := LittleEndian(|data|, 4);
    FourBytes(|data|);
    ChecksumSums(len, data);
    WireParts(data);
    hide *;
  }

  lemma {:induction false} WireParts(data: seq<UChar>)
    ensures var len := LittleEndian(|data|, 4);
      && |Wire(data)| == 8 + |data| && Wire(data)[4..8] == len && Wire(data)[8..] == data
      && FromLittleEndian(Wire(data)[..4]) == Checksum(len, data) as nat
  {
    var len := LittleEndian(|data|, 4);
    assert Pow256(4) == 0x1_0000_0000;
    ReadWritten(Checksum(len, data) as nat, 4);
    hide LittleEndian, FromLittleEndian, Checksum;
    assert Wire(data)[..4] == LittleEndian(Checksum(len, data) as nat, 4);
  }

  lemma {:induction false} ChecksumSums(len: seq<UChar>, data: seq<UChar>)
    ensures Checksum(len, data) as nat ==
      (1 + Total(len + data)) % 65521 + (|len| + |data| + Weighted(len + data)) % 65521 * 65536
  {
    FoldSums(Sums(1, 0), len + data);
  }

  lemma {:induction false} Spread(p: nat, q: nat, x: nat, t: nat)
    ensures (p + q) * x == p * x + q * x && q * (x + t) == q * x + q * t
  {}

  lemma {:induction false} FirstOf(s: seq<UChar>)
    requires s != []
    ensures Total(s) == s[0] as nat + Total(s[1..]) && Weighted(s) == |s| * s[0] as nat + Weighted(s[1..])
  {}

  lemma {:induction false} SumsConcat(a: seq<UChar>, b: seq<UChar>)
    ensures Total(a + b) == Total(a) + Total(b)
    ensures Weighted(a + b) == Weighted(a) + |b| * Total(a) + Weighted(b)
  {
    if a == [] {
      assert a + b == b;
    } else {
      FirstOf(a);
      FirstOf(a + b);
      assert (a + b)[1..] == a[1..] + b && (a + b)[0] == a[0] && |a + b| == |a| + |b|;
      SumsConcat(a[1..], b);
      Spread(|a|, |b|, a[0] as nat, Total(a[1..]));
      hide *;
    }
  }

  /** Data that was replaced on the way is taken for what was sent if and only if both sums are the same
      modulo 65521. */
  lemma {:induction false} DamagePassesIff(data: seq<UChar>, other: seq<UChar>, rest: seq<UChar>)
    requires |other| == |data| <= MAX_FRAME
    ensures var r := Receive(Wire(data)[..8] + other + rest);
      && (r == Frame(other, rest) <==>
            Total(other) % 65521 == Total(data) % 65521 && Weighted(other) % 65521 == Weighted(data) % 65521)
      && (r != Frame(other, rest) ==> r == Failed)
  {
    var len := LittleEndian(|data|, 4);
    var sum := LittleEndian(Checksum(len, data) as nat, 4);
    var wire := Wire(data)[..8] + other + rest;
    assert Pow256(4) == 0x1_0000_0000;
    ReadWritten(|data|, 4);
    ReadWritten(Checksum(len, data) as nat, 4);
    SameChecksumIff(len, data, other);
    hide LittleEndian, FromLittleEndian, Checksum, Pow256;
    assert Wire(data)[..8] == sum + len;
    assert wire[..4] == sum && wire[4..8] == len && |wire| == 8 + |data| + |rest|;
    assert wire[8..8 + |data|] == other && wire[8 + |data|..] == rest;
  }

  lemma {:induction false} SameChecksumIff(len: seq<UChar>, data: seq<UChar>, other: seq<UChar>)
    requires |other| == |data|
    ensures Checksum(len, other) == Checksum(len, data) <==>
      Total(other) % 65521 == Total(data) % 65521 && Weighted(other) % 65521 == Weighted(data) % 65521
  {
    ChecksumSums(len, data);
    ChecksumSums(len, other);
    SumsConcat(len, data);
    SumsConcat(len, other);
    hide *;
    var n := |data| * Total(len);
    SameRemainder(1 + Total(len), Total(data), Total(other));
    SameRemainder(|len| + |data| + Weighted(len) + n, Weighted(data), Weighted(other));
    SameHalves((1 + Total(len + data)) % 65521, (|len| + |data| + Weighted(len + data)) % 65521,
               (1 + Total(len + other)) % 65521, (|len| + |other| + Weighted(len + other)) % 65521);
  }

  lemma {:induction false} SameHalves(a: nat, b: nat, c: nat, d: nat)
    requires a < 65521 && c < 65521
    ensures a + b * 65536 == c + d * 65536 <==> a == c && b == d
  {}

  lemma {:induction false} SameRemainder(x: nat, y: nat, z: nat)
    ensures (x + y) % 65521 == (x + z) % 65521 <==> y % 65521 == z % 65521
  {}

  lemma {:induction false} TotalAround(a: seq<UChar>, x: UChar, b: seq<UChar>)
    ensures Total(a + [x] + b) == Total(a) + Total(b) + x as nat
  {
    SumsConcat(a + [x], b);
    SumsConcat(a, [x]);
  }

  lemma {:induction false} WeightedAround(a: seq<UChar>, x: UChar, y: UChar, b: seq<UChar>, c: nat)
    requires c == x as nat + y as nat
    ensures Weighted(a + [x, y] + b) == Weighted(a) + (|b| + 2) * Total(a) + Weighted(b) + (|b| + 1) * c + x as nat
  {
    hide *;
    SumsConcat(a + [x, y], b);
    SumsConcat(a, [x, y]);
    PairSums(x, y);
    AroundArithmetic(|b|, Total(a), x as nat, y as nat);
  }

  lemma {:induction false} AroundArithmetic(m: nat, t: nat, u: nat, v: nat)
    ensures 2 * t + (2 * u + v) + m * (t + (u + v)) == (m + 2) * t + (m + 1) * (u + v) + u
  {
    Spread(m, m, t, u + v);
    Spread(m, 2, t, 0);
    Spread(m, 1, u + v, 0);
  }

  lemma {:induction false} PairSums(x: UChar, y: UChar)
    ensures Total([x, y]) == x as nat + y as nat && Weighted([x, y]) == 2 * x as nat + y as nat
  {
    assert [x, y][1..] == [y] && [y][1..] == [];
    assert Total([y]) == y as nat && Weighted([y]) == y as nat;
  }

  lemma {:induction false} OtherTotal(data: seq<UChar>, other: seq<UChar>, a: seq<UChar>, x: UChar, y: UChar,
                                      b: seq<UChar>)
    requires data == a + [x] + b && other == a + [y] + b && x != y
    ensures |data| == |other| && Total(other) % 65521 != Total(data) % 65521
  {
    TotalAround(a, x, b);
    TotalAround(a, y, b);
    hide Total;
    SameRemainder(Total(a) + Total(b), x as nat, y as nat);
  }

  lemma {:induction false} OtherWeighted(data: seq<UChar>, other: seq<UChar>, a: seq<UChar>, x: UChar, y: UChar,
                                         b: seq<UChar>)
    requires data == a + [x, y] + b && other == a + [y, x] + b && x != y
    ensures |data| == |other| && Weighted(other) % 65521 != Weighted(data) % 65521
  {
    hide *;
    var c := x as nat + y as nat;
    WeightedAround(a, x, y, b, c);
    WeightedAround(a, y, x, b, c);
    SameRemainder(Weighted(a) + (|b| + 2) * Total(a) + Weighted(b) + (|b| + 1) * c, x as nat, y as nat);
  }

  /** No damage to a single byte passes. */
  lemma {:induction false} DamageNoticed(data: seq<UChar>, i: nat, x: UChar, rest: seq<UChar>)
    requires i < |data| <= MAX_FRAME && data[i] != x
    ensures Receive(Wire(data)[..8] + data[i := x] + rest) == Failed
  {
    OtherTotal(data, data[i := x], data[..i], data[i], x, data[i + 1..]);
    hide *;
    DamagePassesIff(data, data[i := x], rest);
  }

  /** Nor does an exchange of two neighbours. */
  lemma {:induction false} ExchangeNoticed(data: seq<UChar>, i: nat, rest: seq<UChar>)
    requires i + 1 < |data| <= MAX_FRAME && data[i] != data[i + 1]
    ensures Receive(Wire(data)[..8] + data[i := data[i + 1]][i + 1 := data[i]] + rest) == Failed
  {
    var other := data[i := data[i + 1]][i + 1 := data[i]];
    OtherWeighted(data, other, data[..i], data[i], data[i + 1], data[i + 2..]);
    hide *;
    DamagePassesIff(data, other, rest);
  }

  // ----- what is in a frame

  function Ulongs(ns: seq<nat>): seq<UChar> {
    if ns == [] then [] else LittleEndian(ns[0], 8) + Ulongs(ns[1..])
  }

  /** A frame of numbers, and one of a string. */
  function MkNumbers(tag: seq<UChar>, ns: seq<nat>): seq<UChar> { tag + Ulongs(ns) }

  function MkAsciiz(tag: seq<UChar>, str: seq<UChar>): seq<UChar> { tag + str + [0] }

  function ReadUlongs(s: seq<UChar>, k: nat): seq<nat>
    requires |s| == 8 * k
    decreases k
  {
    if k == 0 then [] else [FromLittleEndian(s[..8])] + ReadUlongs(s[8..], k - 1)
  }

  function ParseNumbers(frame: seq<UChar>, tag: seq<UChar>, k: nat): Option<seq<nat>>
    requires |tag| == 4
  {
    if |frame| < 4 || frame[..4] != tag || |frame| != 4 + 8 * k then None
    else Some(ReadUlongs(frame[4..], k))
  }

  method ParseAsciiz(frame: seq<UChar>, tag: seq<UChar>) returns (str: Option<seq<UChar>>)
    requires |tag| == 4
    ensures match str
      case Some(t) => frame == MkAsciiz(tag, t) && 0 !in t
      case None => !exists t :: frame == MkAsciiz(tag, t) && 0 !in t
  {
    if |frame| < 4 || frame[..4] != tag {
      forall t ensures frame != MkAsciiz(tag, t) { MkAsciizShape(tag, t); }
      return None;
    }
    if |frame| < 5 {
      forall t ensures frame != MkAsciiz(tag, t) { MkAsciizShape(tag, t); }
      return None;
    }
    var i := 4;
    while i < |frame| && frame[i] != 0
      invariant 4 <= i <= |frame| && forall k :: 4 <= k < i ==> frame[k] != 0
    {
      i := i + 1;
    }
    if i == |frame| - 1 && frame[i] == 0 {
      assert frame == MkAsciiz(tag, frame[4..i]);
      return Some(frame[4..i]);
    }
    forall t ensures !(frame == MkAsciiz(tag, t) && 0 !in t) {
      MkAsciizShape(tag, t);
      if frame == MkAsciiz(tag, t) && i < |frame| - 1 { assert frame[i] == t[i - 4]; }
    }
    str := None;
  }

  lemma {:induction false} MkAsciizShape(tag: seq<UChar>, t: seq<UChar>)
    requires |tag| == 4
    ensures var f := MkAsciiz(tag, t); |f| == 5 + |t| && f[..4] == tag && f[|f| - 1] == 0 && f[4..|f| - 1] == t
  {}

  lemma {:induction false} UlongsUnfold(ns: seq<nat>)
    ensures Ulongs(ns) == if ns == [] then [] else LittleEndian(ns[0], 8) + Ulongs(ns[1..])
  {}

  lemma {:induction false} ReadUlongsUnfold(s: seq<UChar>, k: nat)
    requires |s| == 8 * k
    ensures ReadUlongs(s, k) == if k == 0 then [] else [FromLittleEndian(s[..8])] + ReadUlongs(s[8..], k - 1)
  {}

  lemma {:induction false} UlongsRead(ns: seq<nat>)
    requires forall i :: 0 <= i < |ns| ==> ns[i] < Pow256(8)
    ensures |Ulongs(ns)| == 8 * |ns| && ReadUlongs(Ulongs(ns), |ns|) == ns
  {
    hide Ulongs, ReadUlongs, LittleEndian, FromLittleEndian, Pow256;
    UlongsUnfold(ns);
    if ns == [] {
      ReadUlongsUnfold([], 0);
    } else {
      UlongsRead(ns[1..]);
      ReadWritten(ns[0], 8);
      var s := Ulongs(ns);
      assert s[..8] == LittleEndian(ns[0], 8) && s[8..] == Ulongs(ns[1..]);
      ReadUlongsUnfold(s, |ns|);
      assert [ns[0]] + ns[1..] == ns;
    }
  }

  lemma {:induction false} UlongsWritten(s: seq<UChar>, k: nat)
    requires |s| == 8 * k
    ensures Ulongs(ReadUlongs(s, k)) == s && |ReadUlongs(s, k)| == k
    ensures forall i :: 0 <= i < k ==> ReadUlongs(s, k)[i] < Pow256(8)
    decreases k
  {
    hide Ulongs, ReadUlongs, LittleEndian, FromLittleEndian, Pow256;
    ReadUlongsUnfold(s, k);
    UlongsUnfold(ReadUlongs(s, k));
    if k > 0 {
      WriteRead(s[..8]);
      UlongsWritten(s[8..], k - 1);
      var r := ReadUlongs(s, k);
      assert r[1..] == ReadUlongs(s[8..], k - 1) && s == s[..8] + s[8..];
    }
  }

  /** Where the bytes of the numbers are. */
  lemma {:induction false} UlongAt(ns: seq<nat>, i: nat)
    requires i < |ns|
    ensures |Ulongs(ns)| == 8 * |ns| && Ulongs(ns)[8 * i..8 * i + 8] == LittleEndian(ns[i], 8)
  {
    hide Ulongs, LittleEndian;
    UlongsUnfold(ns);
    UlongsLength(ns[1..]);
    var s := Ulongs(ns);
    if i == 0 {
      assert s[..8] == LittleEndian(ns[0], 8);
    } else {
      UlongAt(ns[1..], i - 1);
      assert s[8..] == Ulongs(ns[1..]) && s[8 * i..8 * i + 8] == s[8..][8 * (i - 1)..8 * (i - 1) + 8];
    }
  }

  lemma {:induction false} UlongsLength(ns: seq<nat>)
    ensures |Ulongs(ns)| == 8 * |ns|
  {
    hide Ulongs, LittleEndian;
    UlongsUnfold(ns);
    if ns != [] { UlongsLength(ns[1..]); }
  }

  /** Taking a frame of numbers apart gives `ns` exactly if it was built from them. */
  lemma {:induction false} ParseNumbersIff(frame: seq<UChar>, tag: seq<UChar>, ns: seq<nat>)
    requires |tag| == 4 && forall i :: 0 <= i < |ns| ==> ns[i] < Pow256(8)
    ensures ParseNumbers(frame, tag, |ns|) == Some(ns) <==> frame == MkNumbers(tag, ns)
  {
    UlongsRead(ns);
    hide Ulongs, ReadUlongs, Pow256;
    if frame == MkNumbers(tag, ns) {
      assert frame[..4] == tag && frame[4..] == Ulongs(ns);
    }
    if ParseNumbers(frame, tag, |ns|) == Some(ns) {
      UlongsWritten(frame[4..], |ns|);
      assert frame == frame[..4] + frame[4..];
    }
  }
}
