/** What a profile that was read says, told by the lines of its file: which count line belongs to which
    file, function and line number, and which files can be read at all. */
module ProfileLines {
  import opened Wrappers
  import opened Costs
  import opened ProfileText
  import opened Profile
  import opened ProfileMerge
  import opened ProfileRoundtrip

  // ----- the lines of a file, by index

  predicate IsCounts(line: string) { line != [] && IsDigit(line[0]) }

  predicate IsFn(line: string) { StartsWith(line, "fn=") }

  predicate IsFl(line: string) { StartsWith(line, "fl=") }

  /** The name in the last line before line `i`, but not before line `lo`, that starts with `prefix`. */
  function NameAt(ls: seq<string>, lo: nat, i: nat, prefix: string): (name: string)
    requires lo <= i <= |ls| && |prefix| == 3
    ensures forall j ::
      lo <= j < i && StartsWith(ls[j], prefix) && (forall m :: j < m < i ==> !StartsWith(ls[m], prefix)) ==>
      name == ls[j][3..]
    ensures (forall j :: lo <= j < i ==> !StartsWith(ls[j], prefix)) ==> name == "???"
    decreases i
  {
    if i == lo then "???"
    else if StartsWith(ls[i - 1], prefix) then ls[i - 1][3..]
    else NameAt(ls, lo, i - 1, prefix)
  }

  /** The file and the function that are current at line `i`. */
  function Current(ls: seq<string>, lo: nat, i: nat): FileFn
    requires lo <= i <= |ls|
  {
    FileFn(NameAt(ls, lo, i, "fl="), NameAt(ls, lo, i, "fn="))
  }

  /** The numbers in line `i` if it gives counts for line `l` of function `k`. */
  function CountsFor(ls: seq<string>, lo: nat, i: nat, k: FileFn, l: Counter): Option<Cost>
    requires lo <= i < |ls|
  {
    if !IsCounts(ls[i]) || Current(ls, lo, i) != k then None
    else
      match CountsLine(ls[i])
      case None => None
      case Some(ns) => if ns != [] && ns[0] == l then Some(ns[1..]) else None
  }

  /** Some line from `lo` to `hi` gives counts for line `l` of function `k`. */
  predicate Counted(ls: seq<string>, lo: nat, hi: nat, k: FileFn, l: Counter)
    requires lo <= hi <= |ls|
  {
    exists j :: lo <= j < hi && CountsFor(ls, lo, j, k, l).Some?
  }

  /** What line `i` counts for event `e` of line `l` of function `k`. */
  function Given(ls: seq<string>, lo: nat, i: nat, k: FileFn, l: Counter, e: nat): nat
    requires lo <= i < |ls|
  {
    match CountsFor(ls, lo, i, k, l) case None => 0 case Some(c) => At(c, e)
  }

  /** What lines `lo` to `hi` count for event `e` of line `l` of function `k`. */
  function Sum(ls: seq<string>, lo: nat, hi: nat, k: FileFn, l: Counter, e: nat): nat
    requires lo <= hi <= |ls|
    decreases hi
  {
    if hi == lo then 0 else Sum(ls, lo, hi - 1, k, l, e) + Given(ls, lo, hi - 1, k, l, e)
  }

  /** And for event `e` of all lines of all functions. */
  function SumOfAll(ls: seq<string>, lo: nat, hi: nat, e: nat): nat
    requires lo <= hi <= |ls|
    decreases hi
  {
    if hi == lo then 0
    else
      SumOfAll(ls, lo, hi - 1, e) +
        if !IsCounts(ls[hi - 1]) || CountsLine(ls[hi - 1]).None? || CountsLine(ls[hi - 1]).value == [] then 0
        else At(CountsLine(ls[hi - 1]).value[1..], e)
  }

  /** A line between the events and the summary: the name of a file or of a function, or a line number
      and one count for every event. */
  predicate Listed(line: string, n: nat) {
    if IsCounts(line) then n > 0 && CountsLine(line).Some? && |CountsLine(line).value| == n + 1
    else IsFn(line) || IsFl(line)
  }

  // ----- what the reader has after some of the lines

  /** `acc` is what lines `lo` to `i` say. */
  ghost predicate Says(ls: seq<string>, lo: nat, i: nat, acc: Acc, n: nat)
    requires lo <= i <= |ls|
  {
    && acc.fl == NameAt(ls, lo, i, "fl=") && acc.fn == NameAt(ls, lo, i, "fn=")
    && |acc.summary| == n
    && (forall e :: 0 <= e < n ==> acc.summary[e] == Wrap(SumOfAll(ls, lo, i, e)))
    && Lengths(acc.lines, n)
  }

  /** The counts of one line of one function are the sum of those in the file. */
  ghost predicate SaysOf(ls: seq<string>, lo: nat, i: nat, lines: Outer, k: FileFn, l: Counter)
    requires lo <= i <= |ls|
  {
    && (k in lines && l in lines[k] <==> Counted(ls, lo, i, k, l))
    && forall e: nat :: CountOf(lines, k, l, e) == Wrap(Sum(ls, lo, i, k, l, e))
  }

  lemma {:induction false} StepName(ls: seq<string>, lo: nat, i: nat, acc: Acc, n: nat)
    requires lo <= i < |ls| && Says(ls, lo, i, acc, n) && !IsCounts(ls[i])
    ensures Says(ls, lo, i + 1, Named(acc, ls[i]), n)
    ensures Named(acc, ls[i]).lines == acc.lines && (IsFn(ls[i]) || IsFl(ls[i]) ==> Listed(ls[i], n))
    ensures forall k: FileFn, l: Counter :: CountsFor(ls, lo, i, k, l).None?
  {
    FirstChars(ls[i], "fn=");
    FirstChars(ls[i], "fl=");
    forall e: nat ensures SumOfAll(ls, lo, i + 1, e) == SumOfAll(ls, lo, i, e) {}
    hide SumOfAll, Wrap, StartsWith, CountsLine, Current, IsCounts;
  }

  lemma {:induction false} CountsName(line: string)
    requires IsCounts(line)
    ensures !IsFn(line) && !IsFl(line)
  {
    FirstChars(line, "fn=");
    FirstChars(line, "fl=");
  }

  lemma {:induction false} FirstChars(s: string, prefix: string)
    requires |prefix| >= 2
    ensures StartsWith(s, prefix) ==> |s| >= 2 && s[0] == prefix[0] && s[1] == prefix[1]
  {
    if StartsWith(s, prefix) { assert s[..|prefix|][0] == prefix[0] && s[..|prefix|][1] == prefix[1]; }
  }

  lemma {:induction false} StepCounts(ls: seq<string>, lo: nat, i: nat, acc: Acc, n: nat)
    requires lo <= i < |ls| && Says(ls, lo, i, acc, n) && IsCounts(ls[i]) && HandleCounts(acc, ls[i], n).Ok?
    ensures Listed(ls[i], n) && Says(ls, lo, i + 1, HandleCounts(acc, ls[i], n).value, n)
  {
    hide CountsLine, Wrap, AddLine, HandleCounts, StartsWith, SumOfAll, Lengths, IsCounts;
    CountsName(ls[i]);
    CountsHandled(acc, ls[i], n);
    var ns, a := CountsLine(ls[i]).value, HandleCounts(acc, ls[i], n).value;
    SummaryMore(ls, lo, i, acc.summary, a.summary, ns, n);
    LengthsStay(acc, ns, n);
  }

  lemma {:induction false} SummaryMore(ls: seq<string>, lo: nat, i: nat, was: seq<Counter>, now: seq<Counter>,
                                       ns: seq<Counter>, n: nat)
    requires lo <= i < |ls| && IsCounts(ls[i]) && CountsLine(ls[i]) == Some(ns) && |ns| == n + 1
    requires |was| == n == |now| && forall e :: 0 <= e < n ==> was[e] == Wrap(SumOfAll(ls, lo, i, e))
    requires forall e :: 0 <= e < n ==> now[e] == Wrap(was[e] + At(ns[1..], e))
    ensures forall e :: 0 <= e < n ==> now[e] == Wrap(SumOfAll(ls, lo, i + 1, e))
  {
    hide *;
    forall e | 0 <= e < n ensures now[e] == Wrap(SumOfAll(ls, lo, i + 1, e)) {
      SumOfAllStep(ls, lo, i, ns, e);
      WrapAdd(SumOfAll(ls, lo, i, e), At(ns[1..], e));
    }
  }

  lemma {:induction false} CountsHandled(acc: Acc, line: string, n: nat)
    requires HandleCounts(acc, line, n).Ok? && |acc.summary| == n
    ensures n > 0 && CountsLine(line).Some? && |CountsLine(line).value| == n + 1
    ensures var ns, a := CountsLine(line).value, HandleCounts(acc, line, n).value;
      && a == acc.(lines := AddLine(acc.lines, FileFn(acc.fl, acc.fn), ns[0], ns[1..], n), summary := a.summary)
      && |a.summary| == n && forall e :: 0 <= e < n ==> a.summary[e] == Wrap(acc.summary[e] + At(ns[1..], e))
  {
    hide CountsLine, AddLine, Wrap;
  }

  lemma {:induction false} SumOfAllStep(ls: seq<string>, lo: nat, i: nat, ns: seq<Counter>, e: nat)
    requires lo <= i < |ls| && IsCounts(ls[i]) && CountsLine(ls[i]) == Some(ns) && ns != []
    ensures SumOfAll(ls, lo, i + 1, e) == SumOfAll(ls, lo, i, e) + At(ns[1..], e)
  {
    hide CountsLine;
  }

  lemma {:induction false} LengthsStay(acc: Acc, ns: seq<Counter>, n: nat)
    requires |ns| == n + 1 && Lengths(acc.lines, n)
    ensures Lengths(AddLine(acc.lines, FileFn(acc.fl, acc.fn), ns[0], ns[1..], n), n)
  {
    hide Wrap;
  }

  lemma {:induction false} CountedMore(ls: seq<string>, lo: nat, i: nat, k: FileFn, l: Counter)
    requires lo <= i < |ls|
    ensures Counted(ls, lo, i + 1, k, l) <==> Counted(ls, lo, i, k, l) || CountsFor(ls, lo, i, k, l).Some?
  {
    hide CountsFor;
  }

  lemma {:induction false} SumMore(ls: seq<string>, lo: nat, i: nat, k: FileFn, l: Counter, e: nat)
    requires lo <= i < |ls|
    ensures Sum(ls, lo, i + 1, k, l, e) == Sum(ls, lo, i, k, l, e) + Given(ls, lo, i, k, l, e)
  {
    hide Given;
  }

  lemma {:induction false} NoCounts(ls: seq<string>, lo: nat, i: nat, lines: Outer, k: FileFn, l: Counter)
    requires lo <= i < |ls| && SaysOf(ls, lo, i, lines, k, l) && CountsFor(ls, lo, i, k, l).None?
    ensures SaysOf(ls, lo, i + 1, lines, k, l)
  {
    CountedMore(ls, lo, i, k, l);
    hide CountsFor, Counted, Sum, Wrap, CountOf;
    forall e: nat ensures Sum(ls, lo, i + 1, k, l, e) == Sum(ls, lo, i, k, l, e) { SumMore(ls, lo, i, k, l, e); }
    hide Given;
  }

  /** Whose counts a line gives: those of the current function. */
  lemma {:induction false} CountsForCurrent(ls: seq<string>, lo: nat, i: nat, acc: Acc, n: nat, k: FileFn, l: Counter)
    requires lo <= i < |ls| && Says(ls, lo, i, acc, n)
    requires IsCounts(ls[i]) && CountsLine(ls[i]).Some? && CountsLine(ls[i]).value != []
    ensures var ns := CountsLine(ls[i]).value;
      CountsFor(ls, lo, i, k, l) == if k == FileFn(acc.fl, acc.fn) && l == ns[0] then Some(ns[1..]) else None
  {
    hide CountsLine, Wrap, SumOfAll, NameAt;
  }

  /** A count line adds to the line that it names, of the current function, and to no other. */
  lemma {:induction false} StepCountsOf(ls: seq<string>, lo: nat, i: nat, acc: Acc, n: nat, k: FileFn, l: Counter)
    requires lo <= i < |ls| && Says(ls, lo, i, acc, n) && SaysOf(ls, lo, i, acc.lines, k, l)
    requires IsCounts(ls[i]) && HandleCounts(acc, ls[i], n).Ok?
    ensures SaysOf(ls, lo, i + 1, HandleCounts(acc, ls[i], n).value.lines, k, l)
  {
    hide *;
    SaysLengths(ls, lo, i, acc, n);
    LinesHandled(acc, ls[i], n);
    CountsForCurrent(ls, lo, i, acc, n, k, l);
    var ns, here := CountsLine(ls[i]).value, FileFn(acc.fl, acc.fn);
    if k == here && l == ns[0] {
      ThisLine(ls, lo, i, acc.lines, ns, n, k, l);
    } else {
      NoCounts(ls, lo, i, acc.lines, k, l);
      OtherLine(acc.lines, here, ns, n, k, l);
      SameCounts(ls, lo, i + 1, acc.lines, HandleCounts(acc, ls[i], n).value.lines, k, l);
    }
  }

  ghost predicate Lengths(lines: Outer, n: nat) {
    forall k, l :: k in lines && l in lines[k] ==> |lines[k][l]| == n
  }

  lemma {:induction false} LinesHandled(acc: Acc, line: string, n: nat)
    requires HandleCounts(acc, line, n).Ok?
    ensures CountsLine(line).Some? && |CountsLine(line).value| == n + 1
    ensures var ns := CountsLine(line).value;
      HandleCounts(acc, line, n).value.lines == AddLine(acc.lines, FileFn(acc.fl, acc.fn), ns[0], ns[1..], n)
  {
    hide CountsLine, AddLine;
  }

  lemma {:induction false} ThisLine(ls: seq<string>, lo: nat, i: nat, lines: Outer, ns: seq<Counter>, n: nat,
                                    k: FileFn, l: Counter)
    requires lo <= i < |ls| && |ns| == n + 1 && l == ns[0] && Lengths(lines, n)
    requires SaysOf(ls, lo, i, lines, k, l) && CountsFor(ls, lo, i, k, l) == Some(ns[1..])
    ensures SaysOf(ls, lo, i + 1, AddLine(lines, k, l, ns[1..], n), k, l)
  {
    hide *;
    var lines' := AddLine(lines, k, l, ns[1..], n);
    CountedMore(ls, lo, i, k, l);
    forall e: nat ensures CountOf(lines', k, l, e) == Wrap(Sum(ls, lo, i + 1, k, l, e)) {
      OneAdded(lines, ns[1..], n, k, l, e);
      OneGiven(ls, lo, i, lines, lines', ns[1..], k, l, e);
    }
    IsThere(lines, ns[1..], n, k, l);
    SaysOfAll(ls, lo, i + 1, lines', k, l);
  }

  lemma {:induction false} IsThere(lines: Outer, c: Cost, n: nat, k: FileFn, l: Counter)
    ensures var r := AddLine(lines, k, l, c, n); k in r && l in r[k]
  {}

  lemma {:induction false} OneAdded(lines: Outer, c: Cost, n: nat, k: FileFn, l: Counter, e: nat)
    requires |c| == n && Lengths(lines, n)
    ensures CountOf(AddLine(lines, k, l, c, n), k, l, e) == Wrap(CountOf(lines, k, l, e) + At(c, e))
  {}

  lemma {:induction false} OneGiven(ls: seq<string>, lo: nat, i: nat, lines: Outer, lines': Outer, c: Cost,
                                    k: FileFn, l: Counter, e: nat)
    requires lo <= i < |ls| && SaysOf(ls, lo, i, lines, k, l) && CountsFor(ls, lo, i, k, l) == Some(c)
    requires CountOf(lines', k, l, e) == Wrap(CountOf(lines, k, l, e) + At(c, e))
    ensures CountOf(lines', k, l, e) == Wrap(Sum(ls, lo, i + 1, k, l, e))
  {
    assert Given(ls, lo, i, k, l, e) == At(c, e);
    hide *;
    SaysOfAt(ls, lo, i, lines, k, l, e);
    SumMore(ls, lo, i, k, l, e);
    WrapAdd(Sum(ls, lo, i, k, l, e), At(c, e));
  }

  lemma {:induction false} SaysLengths(ls: seq<string>, lo: nat, i: nat, acc: Acc, n: nat)
    requires lo <= i <= |ls| && Says(ls, lo, i, acc, n)
    ensures |acc.summary| == n && Lengths(acc.lines, n)
  {}

  lemma {:induction false} SameCounts(ls: seq<string>, lo: nat, i: nat, lines: Outer, lines': Outer, k: FileFn,
                                      l: Counter)
    requires lo <= i <= |ls| && SaysOf(ls, lo, i, lines, k, l)
    requires (k in lines' && l in lines'[k] <==> k in lines && l in lines[k])
    requires forall e: nat :: CountOf(lines', k, l, e) == CountOf(lines, k, l, e)
    ensures SaysOf(ls, lo, i, lines', k, l)
  {
    hide CountOf, Sum, Counted, Wrap;
  }

  lemma {:induction false} SaysOfAll(ls: seq<string>, lo: nat, i: nat, lines: Outer, k: FileFn, l: Counter)
    requires lo <= i <= |ls| && k in lines && l in lines[k] && Counted(ls, lo, i, k, l)
    requires forall e: nat :: CountOf(lines, k, l, e) == Wrap(Sum(ls, lo, i, k, l, e))
    ensures SaysOf(ls, lo, i, lines, k, l)
  {}

  lemma {:induction false} SaysOfAt(ls: seq<string>, lo: nat, i: nat, lines: Outer, k: FileFn, l: Counter, e: nat)
    requires lo <= i <= |ls| && SaysOf(ls, lo, i, lines, k, l)
    ensures k in lines && l in lines[k] <==> Counted(ls, lo, i, k, l)
    ensures CountOf(lines, k, l, e) == Wrap(Sum(ls, lo, i, k, l, e))
  {}

  lemma {:induction false} OtherLine(lines: Outer, here: FileFn, ns: seq<Counter>, n: nat, k: FileFn, l: Counter)
    requires |ns| == n + 1 && (k != here || l != ns[0])
    ensures var r := AddLine(lines, here, ns[0], ns[1..], n);
      && (k in r && l in r[k] <==> k in lines && l in lines[k])
      && forall e: nat :: CountOf(r, k, l, e) == CountOf(lines, k, l, e)
  {}

  // ----- the whole file

  lemma {:induction false} BodyAt(ls: seq<string>, i: nat, acc: Acc, n: nat)
    requires i <= |ls|
    ensures Body(ls[i..], acc, n) ==
      if i == |ls| then Err(EofBeforeSummary)
      else if IsCounts(ls[i]) then
        match HandleCounts(acc, ls[i], n) case Err(e) => Err(e) case Ok(a) => Body(ls[i + 1..], a, n)
      else if IsFn(ls[i]) || IsFl(ls[i]) then Body(ls[i + 1..], Named(acc, ls[i]), n)
      else if StartsWith(ls[i], "summary: ") then Ok((acc, ls[i], ls[i + 1..]))
      else Err(UnexpectedLine)
  {
    hide HandleCounts;
    if i < |ls| { assert ls[i..][0] == ls[i] && ls[i..][1..] == ls[i + 1..]; }
  }

  /** A line with the name of a file or of a function. */
  function Named(acc: Acc, line: string): Acc {
    if IsFn(line) then acc.(fn := line[3..]) else if IsFl(line) then acc.(fl := line[3..]) else acc
  }

  /** The reader takes exactly the listed lines, up to the first summary. */
  lemma {:induction false} BodySays(ls: seq<string>, lo: nat, i: nat, acc: Acc, n: nat) returns (hi: nat)
    requires lo <= i <= |ls| && Says(ls, lo, i, acc, n) && Body(ls[i..], acc, n).Ok?
    ensures i <= hi < |ls| && (forall j :: i <= j < hi ==> Listed(ls[j], n)) && StartsWith(ls[hi], "summary: ")
    ensures var (a, line, rest) := Body(ls[i..], acc, n).value;
      line == ls[hi] && rest == ls[hi + 1..] && Says(ls, lo, hi, a, n)
    decreases |ls| - i
  {
    hide *;
    BodyAt(ls, i, acc, n);
    if IsCounts(ls[i]) {
      StepCounts(ls, lo, i, acc, n);
      hi := BodySays(ls, lo, i + 1, HandleCounts(acc, ls[i], n).value, n);
    } else if IsFn(ls[i]) || IsFl(ls[i]) {
      StepName(ls, lo, i, acc, n);
      hi := BodySays(ls, lo, i + 1, Named(acc, ls[i]), n);
    } else {
      hi := i;
    }
  }

  lemma {:induction false} BodySaysOf(ls: seq<string>, lo: nat, i: nat, acc: Acc, n: nat, k: FileFn, l: Counter)
      returns (hi: nat)
    requires lo <= i <= |ls| && Says(ls, lo, i, acc, n) && SaysOf(ls, lo, i, acc.lines, k, l)
    requires Body(ls[i..], acc, n).Ok?
    ensures i <= hi < |ls| && Body(ls[i..], acc, n).value.2 == ls[hi + 1..]
    ensures SaysOf(ls, lo, hi, Body(ls[i..], acc, n).value.0.lines, k, l)
    decreases |ls| - i
  {
    hide *;
    BodyAt(ls, i, acc, n);
    if IsCounts(ls[i]) {
      StepCounts(ls, lo, i, acc, n);
      StepCountsOf(ls, lo, i, acc, n, k, l);
      hi := BodySaysOf(ls, lo, i + 1, HandleCounts(acc, ls[i], n).value, n, k, l);
    } else if IsFn(ls[i]) || IsFl(ls[i]) {
      StepName(ls, lo, i, acc, n);
      NoCounts(ls, lo, i, acc.lines, k, l);
      hi := BodySaysOf(ls, lo, i + 1, Named(acc, ls[i]), n, k, l);
    } else {
      hi := i;
    }
  }

  lemma {:induction false} BodyTakes(ls: seq<string>, lo: nat, i: nat, hi: nat, acc: Acc, n: nat)
    requires lo <= i <= hi < |ls| && Says(ls, lo, i, acc, n)
    requires (forall j :: i <= j < hi ==> Listed(ls[j], n)) && StartsWith(ls[hi], "summary: ")
    ensures Body(ls[i..], acc, n).Ok? && Body(ls[i..], acc, n).value.2 == ls[hi + 1..]
    decreases hi - i
  {
    hide *;
    BodyAt(ls, i, acc, n);
    if i < hi {
      ListedTaken(ls[i], acc, n);
      if IsCounts(ls[i]) {
        StepCounts(ls, lo, i, acc, n);
        BodyTakes(ls, lo, i + 1, hi, HandleCounts(acc, ls[i], n).value, n);
      } else {
        StepName(ls, lo, i, acc, n);
        BodyTakes(ls, lo, i + 1, hi, Named(acc, ls[i]), n);
      }
    } else {
      SummaryName(ls[hi]);
    }
  }

  lemma {:induction false} ListedTaken(line: string, acc: Acc, n: nat)
    requires Listed(line, n)
    ensures if IsCounts(line) then HandleCounts(acc, line, n).Ok? else IsFn(line) || IsFl(line)
  {
    hide AddLine;
  }

  lemma {:induction false} SummaryName(line: string)
    requires StartsWith(line, "summary: ")
    ensures !IsCounts(line) && !IsFn(line) && !IsFl(line)
  {
    FirstChars(line, "summary: ");
    FirstChars(line, "fn=");
    FirstChars(line, "fl=");
  }

  function Nothing(n: nat): Acc { Acc("???", "???", map[], seq(n, _ => 0)) }

  lemma {:induction false} StartSays(ls: seq<string>, lo: nat, n: nat)
    requires lo <= |ls|
    ensures Says(ls, lo, lo, Nothing(n), n)
    ensures forall k: FileFn, l: Counter :: SaysOf(ls, lo, lo, Nothing(n).lines, k, l)
  {}

  /** The layout of a file that can be read, by its lines: descriptions, the command, the events, listed
      lines, and a summary that is right and ends the file. */
  ghost predicate Readable(ls: seq<string>) {
    exists d: nat :: ReadableAfter(ls, d)
  }

  ghost predicate ReadableAfter(ls: seq<string>, d: nat) {
    && 0 < d && d + 2 < |ls|
    && (forall i :: 0 <= i < d ==> StartsWith(ls[i], "desc: "))
    && StartsWith(ls[d], "cmd: ") && StartsWith(ls[d + 1], "events: ")
    && var n, hi := EventCount(ls[d + 1], 6), |ls| - 1;
       && (forall i :: d + 2 <= i < hi ==> Listed(ls[i], n))
       && StartsWith(ls[hi], "summary: ")
       && var ns := CountsLine(ls[hi][8..]);
          && ns.Some? && ns.value != [] && |ns.value| == n
          && forall e :: 0 <= e < n ==> ns.value[e] == Wrap(SumOfAll(ls, d + 2, hi, e))
  }

  lemma {:induction false} DescIs(ls: seq<string>, d: nat)
    requires d < |ls| && (forall i :: 0 <= i < d ==> StartsWith(ls[i], "desc: ")) && StartsWith(ls[d], "cmd: ")
    ensures DescCount(ls) == d
    decreases d
  {
    if d == 0 {
      FirstChars(ls[0], "cmd: ");
      FirstChars(ls[0], "desc: ");
    } else {
      DescIs(ls[1..], d - 1);
    }
  }

  /** A file is read without an error exactly if it has this layout. */
  lemma {:induction false} ParseOkIff(ls: seq<string>)
    ensures Parse(ls).Ok? <==> Readable(ls)
  {
    if Parse(ls).Ok? {
      var d := DescCount(ls);
      DescAll(ls);
      ReadIsReadable(ls, d);
    }
    if d: nat :| ReadableAfter(ls, d) {
      DescIs(ls, d);
      ReadableIsRead(ls, d);
    }
  }

  lemma {:induction false} ReadIsReadable(ls: seq<string>, d: nat)
    requires Parse(ls).Ok? && d == DescCount(ls) && forall i :: 0 <= i < d ==> StartsWith(ls[i], "desc: ")
    ensures ReadableAfter(ls, d)
  {
    var n := EventCount(ls[d + 1], 6);
    ParseParts(ls);
    StartSays(ls, d + 2, n);
    hide *;
    var hi := BodySays(ls, d + 2, d + 2, Nothing(n), n);
    SaysSummary(ls, d + 2, hi, Body(ls[d + 2..], Nothing(n), n).value.0, n);
    EmptyTail(ls, hi);
    IsReadable(ls, d, n, hi);
  }

  lemma {:induction false} EmptyTail(ls: seq<string>, hi: nat)
    requires hi < |ls| && ls[hi + 1..] == []
    ensures hi == |ls| - 1
  {
    assert |ls[hi + 1..]| == 0;
  }

  lemma {:induction false} IsReadable(ls: seq<string>, d: nat, n: nat, hi: nat)
    requires 0 < d && d + 2 <= hi == |ls| - 1 && (forall i :: 0 <= i < d ==> StartsWith(ls[i], "desc: "))
    requires StartsWith(ls[d], "cmd: ") && StartsWith(ls[d + 1], "events: ") && n == EventCount(ls[d + 1], 6)
    requires (forall i :: d + 2 <= i < hi ==> Listed(ls[i], n)) && StartsWith(ls[hi], "summary: ")
    requires var ns := CountsLine(ls[hi][8..]);
      && ns.Some? && ns.value != [] && |ns.value| == n
      && forall e :: 0 <= e < n ==> ns.value[e] == Wrap(SumOfAll(ls, d + 2, hi, e))
    ensures ReadableAfter(ls, d)
  {
    hide CountsLine, EventCount, Listed, SumOfAll, StartsWith;
  }

  /** What a file is made of that is read without an error. */
  lemma {:induction false} ParseParts(ls: seq<string>)
    requires Parse(ls).Ok?
    ensures var p, d := Parse(ls).value, DescCount(ls);
      && 0 < d && d + 2 <= |ls| && StartsWith(ls[d], "cmd: ") && StartsWith(ls[d + 1], "events: ")
      && p.desc == ls[..d] && p.cmd == ls[d] && p.events == ls[d + 1]
      && var n := EventCount(ls[d + 1], 6); var body := Body(ls[d + 2..], Nothing(n), n);
         && body.Ok? && |body.value.1| >= 8 && body.value.2 == [] && p.lines == body.value.0.lines
         && var ns := CountsLine(body.value.1[8..]);
            && ns.Some? && ns.value != [] && |ns.value| == n && ns.value == body.value.0.summary
  {
    hide CountsLine, EventCount, Body, DescCount;
    var d := DescCount(ls);
    var n := EventCount(ls[d + 1], 6);
    BodyStops(ls[d + 2..], Nothing(n), n);
  }

  lemma {:induction false} SaysSummary(ls: seq<string>, lo: nat, i: nat, acc: Acc, n: nat)
    requires lo <= i <= |ls| && Says(ls, lo, i, acc, n)
    ensures |acc.summary| == n && forall e :: 0 <= e < n ==> acc.summary[e] == Wrap(SumOfAll(ls, lo, i, e))
  {}

  lemma {:induction false} ReadableIsRead(ls: seq<string>, d: nat)
    requires ReadableAfter(ls, d) && DescCount(ls) == d
    ensures Parse(ls).Ok?
  {
    var n, hi := EventCount(ls[d + 1], 6), |ls| - 1;
    StartSays(ls, d + 2, n);
    hide Parse, CountsLine, Says, EventCount, Body, DescCount, Listed, StartsWith, SumOfAll;
    BodyTakes(ls, d + 2, d + 2, hi, Nothing(n), n);
    var hi' := BodySays(ls, d + 2, d + 2, Nothing(n), n);
    SameTail(ls, hi, hi');
    SaysSummary(ls, d + 2, hi, Body(ls[d + 2..], Nothing(n), n).value.0, n);
    PartsParse(ls, d, n);
  }

  lemma {:induction false} SameTail(ls: seq<string>, i: nat, j: nat)
    requires i < |ls| && j < |ls| && ls[i + 1..] == ls[j + 1..]
    ensures i == j
  {
    assert |ls[i + 1..]| == |ls[j + 1..]|;
  }

  lemma {:induction false} PartsParse(ls: seq<string>, d: nat, n: nat)
    requires 0 < d == DescCount(ls) && d + 2 <= |ls| && StartsWith(ls[d], "cmd: ") && StartsWith(ls[d + 1], "events: ")
    requires n == EventCount(ls[d + 1], 6) && Body(ls[d + 2..], Nothing(n), n).Ok?
    requires var (a, line, rest) := Body(ls[d + 2..], Nothing(n), n).value;
      && |line| >= 8 && rest == []
      && var ns := CountsLine(line[8..]); ns.Some? && ns.value != [] && |ns.value| == n && ns.value == a.summary
    ensures Parse(ls).Ok?
  {
    hide CountsLine, EventCount, Body, DescCount, StartsWith;
  }

  /** And then the profile holds its description, command and events, and for every event of every line
      of every function the sum of what the file counts for it, modulo 2^64; a line is in the profile
      exactly if there are counts for it. */
  lemma {:induction false} ParseSays(ls: seq<string>, k: FileFn, l: Counter, e: nat)
    requires Parse(ls).Ok?
    ensures var p, d := Parse(ls).value, DescCount(ls);
      && d + 2 < |ls| && p.desc == ls[..d] && p.cmd == ls[d] && p.events == ls[d + 1]
      && (k in p.lines && l in p.lines[k] <==> Counted(ls, d + 2, |ls| - 1, k, l))
      && CountOf(p.lines, k, l, e) == Wrap(Sum(ls, d + 2, |ls| - 1, k, l, e))
  {
    hide *;
    ParseParts(ls);
    BodyGives(ls, DescCount(ls) + 2, EventCount(ls[DescCount(ls) + 1], 6), k, l, e);
  }

  lemma {:induction false} BodyGives(ls: seq<string>, lo: nat, n: nat, k: FileFn, l: Counter, e: nat)
    requires lo <= |ls| && Body(ls[lo..], Nothing(n), n).Ok? && Body(ls[lo..], Nothing(n), n).value.2 == []
    ensures lo < |ls|
    ensures var lines := Body(ls[lo..], Nothing(n), n).value.0.lines;
      && (k in lines && l in lines[k] <==> Counted(ls, lo, |ls| - 1, k, l))
      && CountOf(lines, k, l, e) == Wrap(Sum(ls, lo, |ls| - 1, k, l, e))
  {
    StartSays(ls, lo, n);
    hide *;
    var hi := BodySaysOf(ls, lo, lo, Nothing(n), n, k, l);
    EmptyTail(ls, hi);
    SaysOfAt(ls, lo, hi, Body(ls[lo..], Nothing(n), n).value.0.lines, k, l, e);
  }

  // ----- the numbers of a line

  predicate IsNumeral(c: char) { IsDigit(c) || IsSpace(c) }

  lemma {:induction false} NumeralTail(s: string, t: string, n: nat)
    requires n <= |s| && t == s[n..] && forall i :: 0 <= i < n ==> IsNumeral(s[i])
    ensures (forall i :: 0 <= i < |s| ==> IsNumeral(s[i])) <==> (forall i :: 0 <= i < |t| ==> IsNumeral(t[i]))
  {
    forall i | 0 <= i < |t| ensures t[i] == s[n + i] {}
    forall i | n <= i < |s| ensures s[i] == t[i - n] {}
  }

  lemma {:induction false} SpacesSkipped(s: string) returns (n: nat)
    ensures n <= |s| && SkipSpaces(s) == s[n..] && forall i :: 0 <= i < n ==> IsNumeral(s[i])
    decreases |s|
  {
    n := 0;
    if s != [] && IsSpace(s[0]) {
      var m := SpacesSkipped(s[1..]);
      n := m + 1;
      assert forall i :: 0 < i < n ==> s[i] == s[1..][i - 1];
    }
  }

  lemma {:induction false} DigitsSkipped(s: string, u: Counter) returns (n: nat)
    ensures n <= |s| && Digits(s, u).1 == s[n..] && forall i :: 0 <= i < n ==> IsNumeral(s[i])
    decreases |s|
  {
    n := 0;
    if s != [] && IsDigit(s[0]) {
      var m := DigitsSkipped(s[1..], Wrap(u * 10 + Digit(s[0])));
      n := m + 1;
      assert forall i :: 0 < i < n ==> s[i] == s[1..][i - 1];
    }
  }

  lemma {:induction false} NumbersRead(s: string)
    ensures Numbers(s).1 == [] <==> forall i :: 0 <= i < |s| ==> IsNumeral(s[i])
    decreases |s|
  {
    var n := SpacesSkipped(s);
    var t := SkipSpaces(s);
    NumeralTail(s, t, n);
    if t != [] && IsDigit(t[0]) {
      var k := DigitsSkipped(t, 0);
      var rest := Digits(t, 0).1;
      NumeralTail(t, rest, k);
      NumbersRead(rest);
    }
  }

  /** A line is one of numbers exactly if there are only digits and white space in it. */
  lemma {:induction false} CountsLineIff(s: string)
    ensures CountsLine(s).Some? <==>
      forall i :: 0 <= i < |s| ==> '0' <= s[i] <= '9' || s[i] == ' ' || '\t' <= s[i] <= '\r'
  {
    NumbersRead(s);
    hide Numbers;
  }

  /** Numbers with a space after each are read as they are. */
  function Spaced(ns: seq<Counter>): string {
    if ns == [] then "" else Decimal(ns[0]) + (" " + Spaced(ns[1..]))
  }

  lemma {:induction false} SpaceSkipped(s: string)
    ensures Numbers(" " + s) == Numbers(s)
  {
    assert (" " + s)[1..] == s;
  }

  lemma {:induction false} SpacedRead(ns: seq<Counter>)
    ensures CountsLine(Spaced(ns)) == Some(ns)
  {
    if ns != [] {
      SpacedRead(ns[1..]);
      SpaceSkipped(Spaced(ns[1..]));
      NumbersOfDecimal(ns[0], " " + Spaced(ns[1..]));
      assert [ns[0]] + ns[1..] == ns;
    }
  }

  // ----- the events

  /** Names of events, each after a space. */
  function Joined(names: seq<string>): string {
    if names == [] then "" else " " + names[0] + Joined(names[1..])
  }

  predicate IsName(name: string) { name != "" && IsAlpha(name[0]) && ' ' !in name }

  lemma {:induction false} NoSpace(line: string, p: nat, q: nat)
    requires p <= q <= |line| && forall i :: p <= i < q ==> line[i] != ' '
    ensures EventCount(line, p) == EventCount(line, q)
    decreases q - p
  {
    if p < q { NoSpace(line, p + 1, q); }
  }

  lemma {:induction false} EventsFrom(line: string, p: nat, names: seq<string>)
    requires p <= |line| && line[p..] == Joined(names) && forall i :: 0 <= i < |names| ==> IsName(names[i])
    ensures EventCount(line, p) == |names|
    decreases |names|
  {
    if names == [] {
      assert |line[p..]| == 0;
    } else {
      var name, rest := names[0], Joined(names[1..]);
      var q := p + 1 + |name|;
      assert line[p..] == [' '] + name + rest;
      assert line[p] == line[p..][0] == ' ' && line[p + 1..q] == line[p..][1..1 + |name|] == name;
      assert line[q..] == line[p..][1 + |name|..] == rest;
      EventsFrom(line, q, names[1..]);
      forall i | p + 1 <= i < q ensures line[i] != ' ' { assert line[i] == line[p + 1..q][i - p - 1]; }
      NoSpace(line, p + 1, q);
      assert line[p + 1] == line[p + 1..q][0] == name[0];
    }
  }

  /** As many events are counted as the line names. */
  lemma {:induction false} EventsCounted(names: seq<string>)
    requires forall i :: 0 <= i < |names| ==> IsName(names[i])
    ensures EventCount("events:" + Joined(names), 6) == |names|
  {
    var line := "events:" + Joined(names);
    assert line[7..] == Joined(names) && line[6] == ':';
    NoSpace(line, 6, 7);
    EventsFrom(line, 7, names);
  }
}
