/** What an instrumented block counts, told by its statements: which of them read and write memory, for
    which instruction, and which writes go with a read. */
module BlockAccesses {
  import opened Wrappers
  import opened CacheSim
  import opened Events
  import opened EventCounts
  import opened Instrument

  predicate Reads(env: Atom -> nat, st: Stmt) {
    match st
    case Load(_, _) => true
    case LoadG(_, _, guard) => env(guard) != 0
    case Dirty(_, _, rd, _) => rd
    case CAS(_, _) => true
    case LoadLinked(_, _) => true
    case _ => false
  }

  predicate Writes(env: Atom -> nat, st: Stmt) {
    match st
    case Store(_, _) => true
    case StoreG(_, _, guard) => env(guard) != 0
    case Dirty(_, _, _, wr) => wr
    case CAS(_, _) => true
    case StoreConditional(_, _) => true
    case _ => false
  }

  /** The unguarded read that was the last thing to be asked for before statement `i`, with its address and
      size. */
  function LastRead(cfg: Config, ss: seq<Stmt>, i: nat): Option<(Atom, nat)>
    requires i <= |ss|
  {
    if i == 0 then None
    else
      match ss[i - 1]
      case Load(ea, szB) => Some((ea, szB))
      case Dirty(ea, szB, rd, wr) =>
        if wr then None else if rd then Some((ea, Clip(cfg, szB))) else LastRead(cfg, ss, i - 1)
      case Other => LastRead(cfg, ss, i - 1)
      case _ => None
  }

  /** The write of a statement makes a modify of a read of the same address and size, its own or the last
      thing that was asked for, and is not counted. */
  predicate Modifies(cfg: Config, st: Stmt, last: Option<(Atom, nat)>) {
    match st
    case Store(ea, szB) => last == Some((ea, szB))
    case StoreConditional(ea, szB) => last == Some((ea, szB))
    case Dirty(ea, szB, rd, _) => rd || last == Some((ea, Clip(cfg, szB)))
    case CAS(_, _) => true
    case _ => false
  }

  /** The instruction of statement `i`: that of the last mark up to there. */
  function InstrAt(ss: seq<Stmt>, i: nat): (n: InstrInfo)
    requires i < |ss| && ss[0].IMark?
    decreases i
  {
    if ss[i].IMark? then ss[i].n else InstrAt(ss, i - 1)
  }

  /** The size of an access that is clipped: its own, or that of the smallest line. */
  lemma {:induction false} ClippedTo(cfg: Config, szB: nat)
    ensures var r := Clip(cfg, szB);
      && r <= szB && r <= cfg.lineI && r <= cfg.lineD && r <= cfg.lineL
      && (r == szB || r == cfg.lineI || r == cfg.lineD || r == cfg.lineL)
  {}

  /** Whether a statement counts as an access of this kind. */
  predicate Counts(cfg: Config, env: Atom -> nat, st: Stmt, last: Option<(Atom, nat)>, kind: Kind) {
    match kind
    case Fetch => st.IMark?
    case Load => cfg.cacheSim && Reads(env, st)
    case Store => cfg.cacheSim && Writes(env, st) && !Modifies(cfg, st, last)
  }

  /** How many statements, up to statement `i`, count for line `p`. */
  function Counting(cfg: Config, env: Atom -> nat, ss: seq<Stmt>, i: nat, kind: Kind, p: LineId): nat
    requires i <= |ss| && (i > 0 ==> ss[0].IMark?)
  {
    if i == 0 then 0
    else
      Counting(cfg, env, ss, i - 1, kind, p) +
        Bit(InstrAt(ss, i - 1).parent == p && Counts(cfg, env, ss[i - 1], LastRead(cfg, ss, i - 1), kind))
  }

  lemma {:induction false} AccessesConcat(env: Atom -> nat, a: seq<Op>, b: seq<Op>, kind: Kind, p: LineId)
    ensures Accesses(env, a + b, kind, p) == Accesses(env, a, kind, p) + Accesses(env, b, kind, p)
  {
    if a == [] {
      assert a + b == b;
    } else {
      assert (a + b)[1..] == a[1..] + b;
      AccessesConcat(env, a[1..], b, kind, p);
    }
  }

  lemma {:induction false} OnePrim(env: Atom -> nat, ps: seq<Prim>, pr: Prim, kind: Kind, p: LineId)
    ensures LastOf(ps + [pr]) == Some(pr)
    ensures Accesses(env, Meaning(ps + [pr]), kind, p) ==
      Accesses(env, Meaning(ps), kind, p) + Accesses(env, PrimOps(LastOf(ps), pr), kind, p)
  {
    MeaningSnoc(ps, pr);
    hide *;
    AccessesConcat(env, Meaning(ps), PrimOps(LastOf(ps), pr), kind, p);
  }

  lemma {:induction false} OneOp(env: Atom -> nat, op: Op, kind: Kind, p: LineId)
    ensures Accesses(env, [op], kind, p) == Bit(Of(AccessOf(env, op), kind, p)) && Accesses(env, [], kind, p) == 0
  {
    assert [op][1..] == [];
  }

  lemma {:induction false} NoOps(env: Atom -> nat, kind: Kind, p: LineId)
    ensures Accesses(env, [], kind, p) == 0
  {}

  /** What a request counts, given the request before it. */
  lemma {:induction false} PrimCounts(env: Atom -> nat, prev: Option<Prim>, pr: Prim, kind: Kind, p: LineId)
    ensures Accesses(env, PrimOps(prev, pr), kind, p) ==
      match pr
      case PIr(n) => Bit(kind == Fetch && n.parent == p)
      case PDr(n, _, _) => Bit(kind == Kind.Load && n.parent == p)
      case PDw(n, ea, szB) => Bit(kind == Kind.Store && n.parent == p && prev != Some(PDr(n, ea, szB)))
      case PGuarded(n, _, _, g, w) => Bit(env(g) != 0 && kind == (if w then Kind.Store else Kind.Load) && n.parent == p)
      case PBc(_, _) => 0
      case PBi(_, _) => 0
      case PFlush => 0
  {
    var ops := PrimOps(prev, pr);
    if |ops| == 1 {
      OneOp(env, ops[0], kind, p);
      assert ops == [ops[0]];
    }
    hide Accesses;
    NoOps(env, kind, p);
  }

  /** The request that `last` stands for is the last one. */
  predicate EndsWith(ps: seq<Prim>, last: Option<(Atom, nat)>, n: InstrInfo) {
    match LastOf(ps)
    case Some(PDr(m, ea, szB)) => last == Some((ea, szB)) && m == n
    case _ => last == None
  }

  /** What a statement counts. */
  lemma {:induction false} StmtCounts(cfg: Config, env: Atom -> nat, ps: seq<Prim>, st: Stmt, last: Option<(Atom, nat)>,
                                      n: InstrInfo, kind: Kind, p: LineId)
    requires if st.IMark? then n == st.n else cfg.cacheSim ==> EndsWith(ps, last, n)
    ensures var ss := ps + Prims(cfg, st, n);
      Accesses(env, Meaning(ss), kind, p) ==
        Accesses(env, Meaning(ps), kind, p) + Bit(n.parent == p && Counts(cfg, env, st, last, kind))
  {
    hide Clip, Accesses, Meaning;
    var prs := Prims(cfg, st, n);
    if |prs| == 0 {
      assert ps + prs == ps;
    } else if |prs| == 1 {
      assert ps + prs == ps + [prs[0]];
      OnePrim(env, ps, prs[0], kind, p);
      PrimCounts(env, LastOf(ps), prs[0], kind, p);
    } else {
      assert ps + prs == ps + [prs[0]] + [prs[1]];
      OnePrim(env, ps, prs[0], kind, p);
      OnePrim(env, ps + [prs[0]], prs[1], kind, p);
      PrimCounts(env, LastOf(ps), prs[0], kind, p);
      PrimCounts(env, LastOf(ps + [prs[0]]), prs[1], kind, p);
    }
  }

  /** The last request up to statement `i`, as told by the statements. */
  lemma {:induction false} EndsAt(cfg: Config, ps: seq<Prim>, st: Stmt, last: Option<(Atom, nat)>, n: InstrInfo)
    requires cfg.cacheSim && (!st.IMark? ==> EndsWith(ps, last, n))
    ensures EndsWith(ps + Prims(cfg, st, n),
      match st
      case Load(ea, szB) => Some((ea, szB))
      case Dirty(ea, szB, rd, wr) => if wr then None else if rd then Some((ea, Clip(cfg, szB))) else last
      case Other => last
      case _ => None, n)
  {
    hide Clip;
    var prs := Prims(cfg, st, n);
    if prs == [] { assert ps + prs == ps; }
  }

  lemma {:induction false} InstrIs(ss: seq<Stmt>, i: nat)
    requires i < |ss| && ss[0].IMark?
    ensures CurrOf(ss[..i + 1]) == InstrAt(ss, i)
    decreases i
  {
    var t := ss[..i + 1];
    assert t[|t| - 1] == ss[i] && t[..|t| - 1] == ss[..i];
    if !ss[i].IMark? { InstrIs(ss, i - 1); }
  }

  lemma {:induction false} PrimsMore(cfg: Config, ss: seq<Stmt>, i: nat)
    requires i < |ss| && ss[0].IMark?
    ensures AllPrims(cfg, ss[..i + 1]) == AllPrims(cfg, ss[..i]) + Prims(cfg, ss[i], InstrAt(ss, i))
    ensures ss[i].IMark? ==> InstrAt(ss, i) == ss[i].n
    ensures !ss[i].IMark? ==> i > 0 && InstrAt(ss, i) == InstrAt(ss, i - 1)
  {
    InstrIs(ss, i);
    hide Prims, CurrOf;
    assert ss[..i + 1][..i] == ss[..i];
  }

  lemma {:induction false} CountingMore(cfg: Config, env: Atom -> nat, ss: seq<Stmt>, i: nat, kind: Kind, p: LineId)
    requires i < |ss| && ss[0].IMark?
    ensures Counting(cfg, env, ss, i + 1, kind, p) == Counting(cfg, env, ss, i, kind, p) +
      Bit(InstrAt(ss, i).parent == p && Counts(cfg, env, ss[i], LastRead(cfg, ss, i), kind))
  {}

  lemma {:induction false} EndsMore(cfg: Config, ss: seq<Stmt>, i: nat, ps: seq<Prim>)
    requires i < |ss| && ss[0].IMark? && cfg.cacheSim
    requires !ss[i].IMark? ==> EndsWith(ps, LastRead(cfg, ss, i), InstrAt(ss, i))
    ensures EndsWith(ps + Prims(cfg, ss[i], InstrAt(ss, i)), LastRead(cfg, ss, i + 1), InstrAt(ss, i))
  {
    EndsAt(cfg, ps, ss[i], LastRead(cfg, ss, i), InstrAt(ss, i));
    hide EndsWith, Prims, InstrAt, Clip;
  }

  /** The requests `ps` of the first `i` statements count as the statements do. */
  ghost predicate CountsSoFar(cfg: Config, env: Atom -> nat, ss: seq<Stmt>, i: nat, ps: seq<Prim>, kind: Kind,
                              p: LineId)
    requires i <= |ss| && (i > 0 ==> ss[0].IMark?)
  {
    && Accesses(env, Meaning(ps), kind, p) == Counting(cfg, env, ss, i, kind, p)
    && (cfg.cacheSim && i > 0 ==> EndsWith(ps, LastRead(cfg, ss, i), InstrAt(ss, i - 1)))
  }

  lemma {:induction false} CountsOneMore(cfg: Config, env: Atom -> nat, ss: seq<Stmt>, i: nat, ps: seq<Prim>,
                                         kind: Kind, p: LineId)
    requires i < |ss| && ss[0].IMark? && CountsSoFar(cfg, env, ss, i, ps, kind, p)
    requires if ss[i].IMark? then InstrAt(ss, i) == ss[i].n else i > 0 && InstrAt(ss, i) == InstrAt(ss, i - 1)
    ensures CountsSoFar(cfg, env, ss, i + 1, ps + Prims(cfg, ss[i], InstrAt(ss, i)), kind, p)
  {
    hide Accesses, Meaning, Counting, EndsWith, LastRead, InstrAt, Prims, Counts;
    CountingMore(cfg, env, ss, i, kind, p);
    StmtCounts(cfg, env, ps, ss[i], LastRead(cfg, ss, i), InstrAt(ss, i), kind, p);
    if cfg.cacheSim { EndsMore(cfg, ss, i, ps); }
  }

  lemma {:induction false} PrefixCounts(cfg: Config, env: Atom -> nat, ss: seq<Stmt>, i: nat, kind: Kind, p: LineId)
    requires i <= |ss| && (i > 0 ==> ss[0].IMark?)
    ensures CountsSoFar(cfg, env, ss, i, AllPrims(cfg, ss[..i]), kind, p)
    decreases i
  {
    if i == 0 {
      NoOps(env, kind, p);
    } else {
      PrefixCounts(cfg, env, ss, i - 1, kind, p);
      PrimsMore(cfg, ss, i - 1);
      hide *;
      CountsOneMore(cfg, env, ss, i - 1, AllPrims(cfg, ss[..i - 1]), kind, p);
    }
  }

  lemma {:induction false} EndCounts(env: Atom -> nat, ps: seq<Prim>, n: InstrInfo, next: Option<Atom>, kind: Kind,
                                     p: LineId)
    ensures var end := if next.Some? then [PBi(n, next.value)] else [];
      Accesses(env, Meaning(ps + end + [PFlush]), kind, p) == Accesses(env, Meaning(ps), kind, p)
  {
    hide *;
    if next.Some? {
      var b := PBi(n, next.value);
      OnePrim(env, ps, b, kind, p);
      PrimCounts(env, LastOf(ps), b, kind, p);
      OnePrim(env, ps + [b], PFlush, kind, p);
      PrimCounts(env, LastOf(ps + [b]), PFlush, kind, p);
    } else {
      assert ps + [] == ps;
      OnePrim(env, ps, PFlush, kind, p);
      PrimCounts(env, LastOf(ps), PFlush, kind, p);
    }
  }

  /** A block makes exactly the accesses of its statements. */
  lemma {:induction false} BlockCounts(cfg: Config, env: Atom -> nat, ss: seq<Stmt>, next: Option<Atom>, kind: Kind,
                                       p: LineId)
    requires ss != [] && ss[0].IMark?
    ensures Accesses(env, Meaning(BlockPrims(cfg, ss, next)), kind, p) == Counting(cfg, env, ss, |ss|, kind, p)
  {
    hide AllPrims, CurrOf, Accesses, Meaning, Counting;
    PrefixCounts(cfg, env, ss, |ss|, kind, p);
    assert ss[..|ss|] == ss;
    EndCounts(env, AllPrims(cfg, ss), CurrOf(ss), if cfg.branchSim then next else None, kind, p);
  }

  /** End to end: an instrumented block that runs to its end has added to the counters of accesses of every
      line, for instruction reads, loads and stores, the number of its statements that count for them. */
  lemma {:induction false} InstrumentedBlockCounts(cfg: Config, env: Atom -> nat, s: Sim, ss: seq<Stmt>,
                                                   next: Option<Atom>, out: seq<Out>, kind: Kind, p: LineId)
    requires Ready(cfg, s) && InRange(s) && ss != [] && ss[0].IMark?
    requires SoundOut(cfg, out) && ExitsCovered(cfg, out) && Trace(out) == Meaning(BlockPrims(cfg, ss, next))
    ensures var r := RunOut(cfg, env, s, out); r.Some? ==>
      Counters(r.value, kind, p).a == Mod64(Counters(s, kind, p).a + Counting(cfg, env, ss, |ss|, kind, p))
  {
    hide *;
    InstrumentedBlockSimulates(cfg, env, s, ss, next, out);
    BlockCounts(cfg, env, ss, next, kind, p);
    if RunOut(cfg, env, s, out).Some? { AccessesCounted(cfg, env, s, Meaning(BlockPrims(cfg, ss, next)), kind, p); }
  }

  // ----- branches

  /** The branches of the first `i` statements, with their conditions. */
  function ExitBranches(cfg: Config, env: Atom -> nat, ss: seq<Stmt>, i: nat): seq<(Op, nat)>
    requires i <= |ss| && (i > 0 ==> ss[0].IMark?)
  {
    if i == 0 then [] else ExitBranches(cfg, env, ss, i - 1) + BranchAt(cfg, env, ss[i - 1], InstrAt(ss, i - 1))
  }

  function BranchAt(cfg: Config, env: Atom -> nat, st: Stmt, n: InstrInfo): seq<(Op, nat)> {
    if st.Exit? && st.branch.Some? && cfg.branchSim then [(BcOp(n, st.branch.value), env(st.branch.value))] else []
  }

  lemma {:induction false} BranchesConcat(env: Atom -> nat, a: seq<Op>, b: seq<Op>)
    ensures Branches(env, a + b) == Branches(env, a) + Branches(env, b)
  {
    if a == [] {
      assert a + b == b;
    } else {
      assert (a + b)[1..] == a[1..] + b;
      BranchesConcat(env, a[1..], b);
    }
  }

  lemma {:induction false} PrimBranches(env: Atom -> nat, ps: seq<Prim>, pr: Prim)
    ensures Branches(env, Meaning(ps + [pr])) == Branches(env, Meaning(ps)) +
      match pr
      case PBc(n, ea) => [(BcOp(n, ea), env(ea))]
      case PBi(n, ea) => [(BiOp(n, ea), env(ea))]
      case _ => []
  {
    MeaningSnoc(ps, pr);
    OpsBranches(env, LastOf(ps), pr);
    hide *;
    BranchesConcat(env, Meaning(ps), PrimOps(LastOf(ps), pr));
  }

  lemma {:induction false} OneBranch(env: Atom -> nat, op: Op)
    ensures Branches(env, [op]) == BranchOf(env, op)
    ensures op.GuardedOp? && (op.op.DrOp? || op.op.DwOp?) ==> BranchOf(env, op) == []
  {
    assert Branches(env, [op]) == BranchOf(env, op) + Branches(env, [op][1..]);
  }

  lemma {:induction false} OpsBranches(env: Atom -> nat, prev: Option<Prim>, pr: Prim)
    ensures Branches(env, PrimOps(prev, pr)) ==
      match pr
      case PBc(n, ea) => [(BcOp(n, ea), env(ea))]
      case PBi(n, ea) => [(BiOp(n, ea), env(ea))]
      case _ => []
  {
    var ops := PrimOps(prev, pr);
    if ops != [] {
      assert ops == [ops[0]];
      OneBranch(env, ops[0]);
    }
  }

  lemma {:induction false} StmtBranches(cfg: Config, env: Atom -> nat, ps: seq<Prim>, st: Stmt, n: InstrInfo)
    ensures Branches(env, Meaning(ps + Prims(cfg, st, n))) == Branches(env, Meaning(ps)) + BranchAt(cfg, env, st, n)
  {
    hide Clip, Branches, Meaning;
    var prs := Prims(cfg, st, n);
    if |prs| == 0 {
      assert ps + prs == ps;
    } else if |prs| == 1 {
      assert ps + prs == ps + [prs[0]];
      PrimBranches(env, ps, prs[0]);
    } else {
      assert ps + prs == ps + [prs[0]] + [prs[1]];
      PrimBranches(env, ps, prs[0]);
      PrimBranches(env, ps + [prs[0]], prs[1]);
    }
  }

  lemma {:induction false} PrefixBranches(cfg: Config, env: Atom -> nat, ss: seq<Stmt>, i: nat)
    requires i <= |ss| && (i > 0 ==> ss[0].IMark?)
    ensures Branches(env, Meaning(AllPrims(cfg, ss[..i]))) == ExitBranches(cfg, env, ss, i)
    decreases i
  {
    hide *;
    if i == 0 {
      NoBranches(cfg, env, ss);
    } else {
      PrefixBranches(cfg, env, ss, i - 1);
      PrimsMore(cfg, ss, i - 1);
      ExitBranchesMore(cfg, env, ss, i - 1);
      StmtBranches(cfg, env, AllPrims(cfg, ss[..i - 1]), ss[i - 1], InstrAt(ss, i - 1));
    }
  }

  lemma NoBranches(cfg: Config, env: Atom -> nat, ss: seq<Stmt>)
    ensures Branches(env, Meaning(AllPrims(cfg, ss[..0]))) == [] == ExitBranches(cfg, env, ss, 0)
  {
    assert ss[..0] == [];
    assert AllPrims(cfg, []) == [] && Meaning([]) == [];
  }

  lemma {:induction false} ExitBranchesMore(cfg: Config, env: Atom -> nat, ss: seq<Stmt>, i: nat)
    requires i < |ss| && ss[0].IMark?
    ensures ExitBranches(cfg, env, ss, i + 1) ==
      ExitBranches(cfg, env, ss, i) + BranchAt(cfg, env, ss[i], InstrAt(ss, i))
  {}

  lemma {:induction false} EndBranches(env: Atom -> nat, ps: seq<Prim>, n: InstrInfo, next: Option<Atom>)
    ensures var end := if next.Some? then [PBi(n, next.value)] else [];
      Branches(env, Meaning(ps + end + [PFlush])) ==
        Branches(env, Meaning(ps)) + if next.Some? then [(BiOp(n, next.value), env(next.value))] else []
  {
    hide *;
    if next.Some? {
      var b := PBi(n, next.value);
      PrimBranches(env, ps, b);
      PrimBranches(env, ps + [b], PFlush);
    } else {
      assert ps + [] == ps;
      PrimBranches(env, ps, PFlush);
    }
  }

  /** A block that is run to its end hands over the branches of its exits, in order, and then that at its
      end. */
  lemma {:induction false} BlockBranches(cfg: Config, env: Atom -> nat, ss: seq<Stmt>, next: Option<Atom>)
    requires ss != [] && ss[0].IMark?
    ensures Branches(env, Meaning(BlockPrims(cfg, ss, next))) == ExitBranches(cfg, env, ss, |ss|) +
      if next.Some? && cfg.branchSim then [(BiOp(InstrAt(ss, |ss| - 1), next.value), env(next.value))] else []
  {
    PrefixBranches(cfg, env, ss, |ss|);
    InstrIs(ss, |ss| - 1);
    assert ss[..|ss|] == ss;
    hide AllPrims, Branches, Meaning, InstrAt, CurrOf, ExitBranches;
    EndBranches(env, AllPrims(cfg, ss), CurrOf(ss), if cfg.branchSim then next else None);
  }
}
