/** The text of a profile: lines, and the decimal numbers in them. */
module ProfileText {
  import opened Wrappers
  import opened Costs

  predicate IsDigit(c: char) { '0' <= c <= '9' }

  predicate IsSpace(c: char) { c == ' ' || ('\t' <= c <= '\r') }

  predicate IsAlpha(c: char) { 'a' <= c <= 'z' || 'A' <= c <= 'Z' }

  predicate StartsWith(s: string, prefix: string) {
    |prefix| <= |s| && s[..|prefix|] == prefix
  }

  function Digit(c: char): nat
    requires IsDigit(c)
  {
    (c - '0') as nat
  }

  // ----- numbers

  function SkipSpaces(s: string): (r: string)
    ensures |r| <= |s| && (r != [] ==> !IsSpace(r[0]))
  {
    if s != [] && IsSpace(s[0]) then SkipSpaces(s[1..]) else s
  }

  /** The digits at the front of `s`, after the value `u`, in 64 bits; and what follows them. */
  function Digits(s: string, u: Counter): (r: (Counter, string))
    ensures |r.1| <= |s| && (r.1 != [] ==> !IsDigit(r.1[0]))
    ensures s != [] && IsDigit(s[0]) ==> |r.1| < |s|
    decreases |s|
  {
    if s != [] && IsDigit(s[0]) then Digits(s[1..], Wrap(u * 10 + Digit(s[0]))) else (u, s)
  }

  /** All numbers at the front of `s`, and what follows them. */
  function Numbers(s: string): (r: (seq<Counter>, string))
    decreases |s|
  {
    var t := SkipSpaces(s);
    if t == [] || !IsDigit(t[0]) then ([], t)
    else
      var d := Digits(t, 0);
      var r := Numbers(d.1);
      ([d.0] + r.0, r.1)
  }

  /** A line that is nothing but numbers. */
  function CountsLine(s: string): Option<seq<Counter>> {
    var r := Numbers(s);
    if r.1 == [] then Some(r.0) else None
  }

  method ParseULong(s: string, start: nat) returns (ok: bool, res: Counter, ptr: nat)
    requires start <= |s|
    ensures start <= ptr <= |s|
    ensures var t := SkipSpaces(s[start..]);
      if t == [] || !IsDigit(t[0]) then !ok && s[ptr..] == t
      else ok && ptr > start && (res, s[ptr..]) == Digits(t, 0)
  {
    ptr := start;
    res := 0;
    while ptr < |s| && IsSpace(s[ptr])
      invariant start <= ptr <= |s| && SkipSpaces(s[ptr..]) == SkipSpaces(s[start..])
    {
      assert s[ptr..][1..] == s[ptr + 1..];
      ptr := ptr + 1;
    }
    if ptr == |s| || !IsDigit(s[ptr]) { return false, 0, ptr; }
    ghost var t := s[ptr..];
    var begin := ptr;
    while ptr < |s| && IsDigit(s[ptr])
      invariant begin <= ptr <= |s| && Digits(s[ptr..], res) == Digits(t, 0)
      invariant ptr == begin ==> IsDigit(s[ptr])
    {
      assert s[ptr..][1..] == s[ptr + 1..];
      res := Wrap(res * 10 + Digit(s[ptr]));
      ptr := ptr + 1;
    }
    ok := true;
  }

  /** The numbers of a line; nothing if it holds anything else. */
  method SplitUp(s: string) returns (r: Option<seq<Counter>>)
    ensures r == CountsLine(s)
  {
    hide Digits, SkipSpaces;
    var counts: seq<Counter> := [];
    var ptr: nat := 0;
    assert s[0..] == s && counts + Numbers(s).0 == Numbers(s).0;
    while true
      invariant ptr <= |s| && Numbers(s) == (counts + Numbers(s[ptr..]).0, Numbers(s[ptr..]).1)
      decreases |s| - ptr
    {
      ghost var before := ptr;
      var ok, n, next := ParseULong(s, ptr);
      if !ok {
        assert counts + [] == counts;
        return if next == |s| then Some(counts) else None;
      }
      assert Numbers(s[before..]) == ([n] + Numbers(s[next..]).0, Numbers(s[next..]).1);
      assert counts + Numbers(s[before..]).0 == counts + [n] + Numbers(s[next..]).0;
      counts := counts + [n];
      ptr := next;
    }
  }

  function DigitChar(d: nat): char
    requires d < 10
  {
    '0' + d as char
  }

  /** A number in decimal. */
  function Decimal(n: nat): (s: string)
    ensures s != [] && (forall i :: 0 <= i < |s| ==> IsDigit(s[i]))
  {
    if n < 10 then [DigitChar(n)] else Decimal(n / 10) + [DigitChar(n % 10)]
  }

  lemma {:induction false} DigitOfChar(d: nat)
    requires d < 10
    ensures IsDigit(DigitChar(d)) && Digit(DigitChar(d)) == d
  {}

  /** Digits are read one after the other. */
  lemma {:induction false} DigitsAppend(s: string, rest: string, u: Counter)
    requires forall i :: 0 <= i < |s| ==> IsDigit(s[i])
    ensures Digits(s + rest, u) == Digits(rest, Digits(s, u).0)
    decreases |s|
  {
    if s == [] {
      assert s + rest == rest;
    } else {
      assert (s + rest)[1..] == s[1..] + rest;
      DigitsAppend(s[1..], rest, Wrap(u * 10 + Digit(s[0])));
    }
  }

  lemma {:induction false} DecimalReads(n: nat)
    requires n < M
    ensures Digits(Decimal(n), 0) == (n, [])
  {
    if n < 10 {
      DigitOfChar(n);
      assert Digits([DigitChar(n)], 0) == Digits([], Wrap(n));
    } else {
      DecimalReads(n / 10);
      DigitOfChar(n % 10);
      DigitsAppend(Decimal(n / 10), [DigitChar(n % 10)], 0);
      assert [DigitChar(n % 10)][1..] == [];
      assert n / 10 * 10 + n % 10 == n;
    }
  }

  /** What is printed is read back, if no digit follows. */
  lemma {:induction false} NumbersOfDecimal(n: nat, rest: string)
    requires n < M && (rest != [] ==> !IsDigit(rest[0]))
    ensures Numbers(Decimal(n) + rest) == ([n as Counter] + Numbers(rest).0, Numbers(rest).1)
  {
    var s := Decimal(n) + rest;
    assert s[0] == Decimal(n)[0] && IsDigit(s[0]) && !IsSpace(s[0]);
    DigitsAppend(Decimal(n), rest, 0);
    DecimalReads(n);
  }

  lemma {:induction false} NumbersSkip(c: char, s: string)
    requires IsSpace(c)
    ensures Numbers([c] + s) == Numbers(s)
  {
    assert ([c] + s)[1..] == s;
  }

  // ----- lines

  function LineEnd(text: string): (n: nat)
    ensures n <= |text| && (n < |text| ==> text[n] == '\n') && '\n' !in text[..n]
  {
    if text == [] || text[0] == '\n' then 0
    else
      var n := 1 + LineEnd(text[1..]);
      assert text[..n] == [text[0]] + text[1..][..n - 1];
      n
  }

  /** What follows the first line. */
  function AfterLine(text: string): (r: string)
    ensures text != [] ==> |r| < |text|
  {
    var n := LineEnd(text);
    if n < |text| then text[n + 1..] else []
  }

  /** The lines of a text; the last one need not be ended. */
  function Lines(text: string): (r: seq<string>)
    ensures forall i :: 0 <= i < |r| ==> '\n' !in r[i]
    decreases |text|
  {
    if text == [] then [] else [text[..LineEnd(text)]] + Lines(AfterLine(text))
  }

  method ReadLine(text: string, start: nat) returns (line: Option<string>, next: nat)
    requires start <= |text|
    ensures start <= next <= |text|
    ensures var t := text[start..];
      if t == [] then line == None && next == start
      else line == Some(t[..LineEnd(t)]) && text[next..] == AfterLine(t) && next > start
  {
    next := start;
    if start == |text| { return None, start; }
    ghost var t := text[start..];
    while next < |text| && text[next] != '\n'
      invariant start <= next <= |text| && LineEnd(t) == next - start + LineEnd(text[next..])
    {
      assert text[next..][1..] == text[next + 1..];
      next := next + 1;
    }
    line := Some(text[start..next]);
    assert t[..next - start] == text[start..next];
    if next < |text| { next := next + 1; }
  }

  function Text(lines: seq<string>): string {
    if lines == [] then [] else lines[0] + "\n" + Text(lines[1..])
  }

  /** Lines that are written are read back. */
  lemma {:induction false} LinesOfText(lines: seq<string>)
    requires forall i :: 0 <= i < |lines| ==> '\n' !in lines[i]
    ensures Lines(Text(lines)) == lines
    decreases |lines|
  {
    if lines != [] {
      var l, rest := lines[0], Text(lines[1..]);
      var text := l + "\n" + rest;
      LineEndIs(l, rest);
      assert text[..|l|] == l && text[|l| + 1..] == rest;
      LinesOfText(lines[1..]);
      assert lines == [l] + lines[1..];
    }
  }

  lemma {:induction false} LineEndIs(l: string, rest: string)
    requires '\n' !in l
    ensures LineEnd(l + "\n" + rest) == |l|
    decreases |l|
  {
    var text := l + "\n" + rest;
    if l != [] {
      assert text[0] == l[0] && text[1..] == l[1..] + "\n" + rest;
      LineEndIs(l[1..], rest);
    }
  }
}
