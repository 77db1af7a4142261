/** What the counters of a profile mean: numbers of the memory accesses that a run asks for, and of
    those that miss. */
module EventCounts {
  import opened Wrappers
  import opened Arithmetic
  import opened CacheSim
  import opened CacheAccess
  import opened Events

  datatype Kind = Fetch | Load | Store

  datatype Access = Access(kind: Kind, owner: LineId, a: nat, size: nat)

  /** The access that an operation asks for, if its guards hold. */
  function AccessOf(env: Atom -> nat, op: Op): Option<Access> {
    match op
    case IrOp(n) => Some(Access(Fetch, n.parent, n.addr, n.len))
    case DrOp(n, ea, szB) => Some(Access(Load, n.parent, env(ea), szB))
    case DwOp(n, ea, szB) => Some(Access(Store, n.parent, env(ea), szB))
    case BcOp(n, ea) => None
    case BiOp(n, ea) => None
    case GuardedOp(g, o) => if env(g) == 0 then None else AccessOf(env, o)
  }

  function Bit(b: bool): nat { if b then 1 else 0 }

  /** A sum of counts in a counter of 64 bits. */
  function Mod64(n: nat): nat { n % WORD }

  predicate Of(acc: Option<Access>, kind: Kind, p: LineId) {
    acc.Some? && acc.value.kind == kind && acc.value.owner == p
  }

  /** How many accesses of one kind line `p` makes. */
  function Accesses(env: Atom -> nat, ops: seq<Op>, kind: Kind, p: LineId): nat {
    if ops == [] then 0
    else Bit(Of(AccessOf(env, ops[0]), kind, p)) + Accesses(env, ops[1..], kind, p)
  }

  /** The counters of one kind of one line. */
  function Counters(s: Sim, kind: Kind, p: LineId): CC {
    var l := Line(s, p);
    match kind case Fetch => l.ir case Load => l.dr case Store => l.dw
  }

  /** All counters are 64-bit numbers. */
  ghost predicate InRange(s: Sim) {
    forall kind: Kind, p: LineId :: Ranged(Counters(s, kind, p))
  }

  predicate Ranged(c: CC) { c.a < WORD && c.m1 < WORD && c.mL < WORD }

  /** `d` is `c` with one access more, if it is one of those that are counted there. */
  predicate Grown(c: CC, d: CC, counts: bool, miss1: bool, missL: bool) {
    && d.a == Mod64(c.a + Bit(counts))
    && d.m1 == Mod64(c.m1 + Bit(counts && miss1))
    && d.mL == Mod64(c.mL + Bit(counts && missL))
  }

  /** From `s` to `r` the one counter of accesses that `acc` belongs to has grown by one, and those of its
      misses if it missed; no other counter has changed. */
  ghost predicate Counted(s: Sim, r: Sim, acc: Option<Access>, miss1: bool, missL: bool) {
    forall kind: Kind, p: LineId :: Grown(Counters(s, kind, p), Counters(r, kind, p), Of(acc, kind, p), miss1, missL)
  }

  lemma {:induction false} InItself(s: Sim, kind: Kind, p: LineId)
    requires InRange(s)
    ensures var c := Counters(s, kind, p); c.a == Mod64(c.a) && c.m1 == Mod64(c.m1) && c.mL == Mod64(c.mL)
  {
    assert Ranged(Counters(s, kind, p));
  }

  lemma {:induction false} Bumped(c: CC, counts: bool, miss1: bool, missL: bool)
    requires Ranged(c)
    ensures Grown(c, if counts then Bump(c, miss1, missL) else c, counts, miss1, missL)
  {}

  lemma {:induction false} StaysInRange(s: Sim, r: Sim, acc: Option<Access>, miss1: bool, missL: bool)
    requires Counted(s, r, acc, miss1, missL)
    ensures InRange(r)
  {
    forall kind: Kind, p: LineId ensures Ranged(Counters(r, kind, p)) {
      GrownRanged(Counters(s, kind, p), Counters(r, kind, p), Of(acc, kind, p), miss1, missL);
    }
  }

  lemma {:induction false} GrownRanged(c: CC, d: CC, counts: bool, miss1: bool, missL: bool)
    requires Grown(c, d, counts, miss1, missL)
    ensures Ranged(d)
  {}

  lemma {:induction false} NothingCounted(s: Sim, r: Sim, acc: Option<Access>, miss1: bool, missL: bool)
    requires InRange(s) && r.cc == s.cc && acc == None
    ensures Counted(s, r, acc, miss1, missL)
  {
    SameCounters(s, r);
    hide Counters;
    forall kind: Kind, p: LineId
      ensures Grown(Counters(s, kind, p), Counters(r, kind, p), Of(acc, kind, p), miss1, missL)
    {
      Bumped(Counters(s, kind, p), false, miss1, missL);
    }
  }

  lemma {:induction false} CountedBy(s: Sim, r: Sim, acc: Access, miss1: bool, missL: bool)
    requires InRange(s)
    requires forall kind: Kind, p: LineId ::
      var c := Counters(s, kind, p);
      Counters(r, kind, p) == if Of(Some(acc), kind, p) then Bump(c, miss1, missL) else c
    ensures Counted(s, r, Some(acc), miss1, missL)
  {
    hide Counters, Bump, Grown, Ranged, Of;
    forall kind: Kind, p: LineId
      ensures Grown(Counters(s, kind, p), Counters(r, kind, p), Of(Some(acc), kind, p), miss1, missL)
    {
      Bumped(Counters(s, kind, p), Of(Some(acc), kind, p), miss1, missL);
    }
  }

  lemma {:induction false} OneCounted(s: Sim, n: InstrInfo, a: nat, size: nat, miss1: bool, missL: bool)
    requires InRange(s)
    ensures Counted(s, CountIr(s, n, miss1, missL), Some(Access(Fetch, n.parent, a, size)), miss1, missL)
    ensures Counted(s, CountDr(s, n, miss1, missL), Some(Access(Load, n.parent, a, size)), miss1, missL)
    ensures Counted(s, CountDw(s, n, miss1, missL), Some(Access(Store, n.parent, a, size)), miss1, missL)
  {
    hide Bump, Grown, Ranged, Counted, InRange;
    CountedBy(s, CountIr(s, n, miss1, missL), Access(Fetch, n.parent, a, size), miss1, missL);
    CountedBy(s, CountDr(s, n, miss1, missL), Access(Load, n.parent, a, size), miss1, missL);
    CountedBy(s, CountDw(s, n, miss1, missL), Access(Store, n.parent, a, size), miss1, missL);
  }

  lemma {:induction false} OpCounted(cfg: Config, env: Atom -> nat, s: Sim, op: Op) returns (miss1: bool, missL: bool)
    requires Ready(cfg, s) && InRange(s) && RunOp(cfg, env, s, op).Some?
    ensures Counted(s, RunOp(cfg, env, s, op).value, AccessOf(env, op), miss1, missL)
    decreases op
  {
    hide Grown, Counted, InRange, Ready, CountIr, CountDr, CountDw, Doref;
    var r := RunOp(cfg, env, s, op).value;
    miss1, missL := false, false;
    match op
    case IrOp(n) =>
      if cfg.cacheSim {
        miss1, missL := FetchCounted(cfg, s, n);
      } else {
        OneCounted(s, n, n.addr, n.len, false, false);
      }
    case DrOp(n, ea, szB) => miss1, missL := DataCounted(cfg, s, n, env(ea), szB, false);
    case DwOp(n, ea, szB) => miss1, missL := DataCounted(cfg, s, n, env(ea), szB, true);
    case BcOp(n, ea) => NothingCounted(s, r, None, false, false);
    case BiOp(n, ea) => NothingCounted(s, r, None, false, false);
    case GuardedOp(g, o) =>
      if env(g) == 0 { NothingCounted(s, r, None, false, false); } else { miss1, missL := OpCounted(cfg, env, s, o); }
  }

  lemma {:induction false} SameCounters(s: Sim, t: Sim)
    requires t.cc == s.cc
    ensures forall kind: Kind, p: LineId :: Counters(t, kind, p) == Counters(s, kind, p)
    ensures InRange(s) <==> InRange(t)
  {
    assert forall kind: Kind, p: LineId :: Counters(t, kind, p) == Counters(s, kind, p);
    hide Counters;
  }

  lemma {:induction false} CountedFrom(s: Sim, t: Sim, r: Sim, acc: Option<Access>, miss1: bool, missL: bool)
    requires t.cc == s.cc && Counted(t, r, acc, miss1, missL)
    ensures Counted(s, r, acc, miss1, missL)
  {
    SameCounters(s, t);
    hide Counters;
  }

  lemma {:induction false} FetchCounted(cfg: Config, s: Sim, n: InstrInfo) returns (miss1: bool, missL: bool)
    requires Ready(cfg, s) && InRange(s) && cfg.cacheSim && IrGeneric(cfg, s, n).Some?
    ensures Doref(s.i1, s.ll, cfg.lineI, cfg.lineL, n.addr, n.len).Some?
    ensures var t := Doref(s.i1, s.ll, cfg.lineI, cfg.lineL, n.addr, n.len).value; miss1 == t.miss1 && missL == t.missL
    ensures Counted(s, IrGeneric(cfg, s, n).value, Some(Access(Fetch, n.parent, n.addr, n.len)), miss1, missL)
  {
    var t := Doref(s.i1, s.ll, cfg.lineI, cfg.lineL, n.addr, n.len).value;
    hide Grown, Counted, InRange, CountIr, CountDr, CountDw, Doref;
    miss1, missL := t.miss1, t.missL;
    var s' := s.(i1 := t.l1, ll := t.ll);
    SameCounters(s, s');
    OneCounted(s', n, n.addr, n.len, miss1, missL);
    CountedFrom(s, s', IrGeneric(cfg, s, n).value, Some(Access(Fetch, n.parent, n.addr, n.len)), miss1, missL);
  }

  lemma {:induction false} DataCounted(cfg: Config, s: Sim, n: InstrInfo, a: nat, szB: nat, write: bool)
      returns (miss1: bool, missL: bool)
    requires Ready(cfg, s) && InRange(s) && Data(cfg, s, n, a, szB, write).Some?
    ensures Doref(s.d1, s.ll, cfg.lineD, cfg.lineL, a, szB).Some?
    ensures var t := Doref(s.d1, s.ll, cfg.lineD, cfg.lineL, a, szB).value; miss1 == t.miss1 && missL == t.missL
    ensures Counted(s, Data(cfg, s, n, a, szB, write).value,
                    Some(Access(if write then Store else Load, n.parent, a, szB)), miss1, missL)
  {
    var t := Doref(s.d1, s.ll, cfg.lineD, cfg.lineL, a, szB).value;
    hide Grown, Counted, InRange, CountIr, CountDr, CountDw, Doref;
    miss1, missL := t.miss1, t.missL;
    var s' := s.(d1 := t.l1, ll := t.ll);
    SameCounters(s, s');
    OneCounted(s', n, a, szB, miss1, missL);
    CountedFrom(s, s', Data(cfg, s, n, a, szB, write).value,
                Some(Access(if write then Store else Load, n.parent, a, szB)), miss1, missL);
  }

  /** Whatever runs to its end: every counter of accesses has grown by the number of accesses of its kind
      that its line made, modulo 2^64. */
  lemma {:induction false} AccessesCounted(cfg: Config, env: Atom -> nat, s: Sim, ops: seq<Op>, kind: Kind, p: LineId)
    requires Ready(cfg, s) && InRange(s) && RunOps(cfg, env, s, ops).Some?
    ensures var r := RunOps(cfg, env, s, ops).value;
      InRange(r) && Counters(r, kind, p).a == Mod64(Counters(s, kind, p).a + Accesses(env, ops, kind, p))
    decreases ops
  {
    hide *;
    if ops == [] {
      NothingAccessed(cfg, env, s, kind, p);
    } else {
      var t, one := AccessesStep(cfg, env, s, ops, kind, p);
      AccessesCounted(cfg, env, t, ops[1..], kind, p);
      Carried(Counters(s, kind, p).a, one, Counters(t, kind, p).a,
              Accesses(env, ops[1..], kind, p), Counters(RunOps(cfg, env, s, ops).value, kind, p).a);
    }
  }

  lemma {:induction false} NothingAccessed(cfg: Config, env: Atom -> nat, s: Sim, kind: Kind, p: LineId)
    requires Ready(cfg, s) && InRange(s)
    ensures RunOps(cfg, env, s, []) == Some(s) && Accesses(env, [], kind, p) == 0
    ensures Counters(s, kind, p).a == Mod64(Counters(s, kind, p).a + 0)
  {
    InItself(s, kind, p);
  }

  lemma {:induction false} AccessesStep(cfg: Config, env: Atom -> nat, s: Sim, ops: seq<Op>, kind: Kind, p: LineId)
      returns (t: Sim, one: nat)
    requires Ready(cfg, s) && InRange(s) && RunOps(cfg, env, s, ops).Some? && ops != []
    ensures Ready(cfg, t) && InRange(t) && RunOps(cfg, env, s, ops) == RunOps(cfg, env, t, ops[1..])
    ensures Counters(t, kind, p).a == Mod64(Counters(s, kind, p).a + one)
    ensures Accesses(env, ops, kind, p) == one + Accesses(env, ops[1..], kind, p)
  {
    hide *;
    RunsToEnd(cfg, env, s, ops);
    AccessesUnfold(env, ops, kind, p);
    var miss1, missL := OpCounted(cfg, env, s, ops[0]);
    t := RunOp(cfg, env, s, ops[0]).value;
    StaysInRange(s, t, AccessOf(env, ops[0]), miss1, missL);
    GrownAt(s, t, AccessOf(env, ops[0]), miss1, missL, kind, p);
    one := Bit(Of(AccessOf(env, ops[0]), kind, p));
  }

  lemma {:induction false} AccessesUnfold(env: Atom -> nat, ops: seq<Op>, kind: Kind, p: LineId)
    ensures Accesses(env, ops, kind, p) ==
      if ops == [] then 0 else Bit(Of(AccessOf(env, ops[0]), kind, p)) + Accesses(env, ops[1..], kind, p)
  {}

  lemma {:induction false} RunsToEnd(cfg: Config, env: Atom -> nat, s: Sim, ops: seq<Op>)
    requires Ready(cfg, s) && RunOps(cfg, env, s, ops).Some?
    ensures ops == [] ==> RunOps(cfg, env, s, ops) == Some(s)
    ensures ops != [] ==> RunOp(cfg, env, s, ops[0]).Some?
    ensures ops != [] ==> var t := RunOp(cfg, env, s, ops[0]).value;
      Ready(cfg, t) && RunOps(cfg, env, t, ops[1..]).Some? && RunOps(cfg, env, s, ops) == RunOps(cfg, env, t, ops[1..])
  {}

  // ----- branches, and runs without caches

  /** The branches that a run hands to the predictors, with their conditions and targets. */
  function Branches(env: Atom -> nat, ops: seq<Op>): seq<(Op, nat)> {
    if ops == [] then [] else BranchOf(env, ops[0]) + Branches(env, ops[1..])
  }

  function BranchOf(env: Atom -> nat, op: Op): seq<(Op, nat)> {
    match op
    case IrOp(_) => []
    case DrOp(_, _, _) => []
    case DwOp(_, _, _) => []
    case BcOp(_, taken) => [(op, env(taken))]
    case BiOp(_, dst) => [(op, env(dst))]
    case GuardedOp(g, o) => if env(g) == 0 then [] else BranchOf(env, o)
  }

  lemma {:induction false} OpBranches(cfg: Config, env: Atom -> nat, s: Sim, op: Op)
    requires Ready(cfg, s) && RunOp(cfg, env, s, op).Some?
    ensures RunOp(cfg, env, s, op).value.branches == s.branches + BranchOf(env, op)
    decreases op
  {
    hide Ready, Doref;
    match op
    case GuardedOp(g, o) => if env(g) != 0 { OpBranches(cfg, env, s, o); }
    case _ =>
  }

  /** Every branch is seen once, in the order in which the branches are taken. */
  lemma {:induction false} BranchesSeen(cfg: Config, env: Atom -> nat, s: Sim, ops: seq<Op>)
    requires Ready(cfg, s) && RunOps(cfg, env, s, ops).Some?
    ensures RunOps(cfg, env, s, ops).value.branches == s.branches + Branches(env, ops)
    decreases ops
  {
    RunsToEnd(cfg, env, s, ops);
    assert Branches(env, ops) == if ops == [] then [] else BranchOf(env, ops[0]) + Branches(env, ops[1..]);
    hide *;
    if ops != [] {
      OpBranches(cfg, env, s, ops[0]);
      BranchesSeen(cfg, env, RunOp(cfg, env, s, ops[0]).value, ops[1..]);
    }
  }

  /** Without caches an instruction read counts no miss and touches no cache. */
  lemma {:induction false} NoCachesNoMisses(cfg: Config, env: Atom -> nat, s: Sim, n: InstrInfo)
    requires Ready(cfg, s) && InRange(s) && !cfg.cacheSim
    ensures RunOp(cfg, env, s, IrOp(n)).Some?
    ensures var r := RunOp(cfg, env, s, IrOp(n)).value;
      && Counted(s, r, Some(Access(Fetch, n.parent, n.addr, n.len)), false, false)
      && r.i1 == s.i1 && r.d1 == s.d1 && r.ll == s.ll
  {
    OneCounted(s, n, n.addr, n.len, false, false);
    hide Counted, InRange;
  }

  // ----- misses

  /** The caches of a machine, and which blocks were referenced in each, as told by the accesses. */
  datatype Machine = Machine(i: Geometry, d: Geometry, l: Geometry)

  datatype History = History(i: seq<nat>, d: seq<nat>, l: seq<nat>)

  predicate Buildable(m: Machine) { Built(m.i) && Built(m.d) && Built(m.l) }

  function First(m: Machine, kind: Kind): Geometry { if kind == Fetch then m.i else m.d }

  function Seen(h: History, kind: Kind): seq<nat> { if kind == Fetch then h.i else h.d }

  predicate FitsBoth(m: Machine, acc: Access)
    requires Buildable(m)
  {
    Fits(First(m, acc.kind).line, acc.a, acc.size) && Fits(m.l.line, acc.a, acc.size)
  }

  /** Whether an access misses the first level, and whether it then misses the last. */
  ghost predicate MissesFirst(m: Machine, h: History, acc: Access)
    requires Buildable(m) && FitsBoth(m, acc)
  {
    AccessMisses(First(m, acc.kind), Seen(h, acc.kind), acc.a, acc.size)
  }

  ghost predicate MissesLast(m: Machine, h: History, acc: Access)
    requires Buildable(m) && FitsBoth(m, acc)
  {
    MissesFirst(m, h, acc) && AccessMisses(m.l, h.l, acc.a, acc.size)
  }

  /** The last level sees the accesses that miss the first one, of instructions and of data. */
  ghost function Extended(m: Machine, h: History, acc: Access): History
    requires Buildable(m) && FitsBoth(m, acc)
  {
    var bs := Blocks(First(m, acc.kind).line, acc.a, acc.size);
    var l := if MissesFirst(m, h, acc) then h.l + Blocks(m.l.line, acc.a, acc.size) else h.l;
    if acc.kind == Fetch then History(h.i + bs, h.d, l) else History(h.i, h.d + bs, l)
  }

  ghost predicate AllFit(m: Machine, env: Atom -> nat, ops: seq<Op>)
    requires Buildable(m)
  {
    forall i :: 0 <= i < |ops| && AccessOf(env, ops[i]).Some? ==> FitsBoth(m, AccessOf(env, ops[i]).value)
  }

  ghost function Next(m: Machine, h: History, env: Atom -> nat, op: Op): History
    requires Buildable(m) && (AccessOf(env, op).Some? ==> FitsBoth(m, AccessOf(env, op).value))
  {
    match AccessOf(env, op) case None => h case Some(acc) => Extended(m, h, acc)
  }

  ghost function Final(m: Machine, h: History, env: Atom -> nat, ops: seq<Op>): History
    requires Buildable(m) && AllFit(m, env, ops)
    decreases ops
  {
    if ops == [] then h else Final(m, Next(m, h, env, ops[0]), env, ops[1..])
  }

  /** Whether an operation makes an access that misses the first level, or the last. */
  ghost predicate Misses(m: Machine, h: History, acc: Option<Access>, last: bool)
    requires Buildable(m) && (acc.Some? ==> FitsBoth(m, acc.value))
  {
    acc.Some? && if last then MissesLast(m, h, acc.value) else MissesFirst(m, h, acc.value)
  }

  /** How many accesses of one kind and line miss the first level, or the last. */
  ghost function Missed(m: Machine, h: History, env: Atom -> nat, ops: seq<Op>, kind: Kind, p: LineId, last: bool): nat
    requires Buildable(m) && AllFit(m, env, ops)
    decreases ops
  {
    if ops == [] then 0
    else
      var acc := AccessOf(env, ops[0]);
      Bit(Of(acc, kind, p) && Misses(m, h, acc, last)) +
        Missed(m, Next(m, h, env, ops[0]), env, ops[1..], kind, p, last)
  }

  /** The caches are as the history left them. */
  ghost predicate Matches(m: Machine, h: History, cfg: Config, s: Sim)
    requires Buildable(m)
  {
    && cfg.lineI == m.i.line && cfg.lineD == m.d.line && cfg.lineL == m.l.line && cfg.cacheSim
    && 0 !in h.i && 0 !in h.d && 0 !in h.l
    && s.i1 == After(m.i, h.i) && s.d1 == After(m.d, h.d) && s.ll == After(m.l, h.l)
  }

  lemma {:induction false} OpMisses(m: Machine, h: History, cfg: Config, env: Atom -> nat, s: Sim, op: Op)
    requires Buildable(m) && Matches(m, h, cfg, s) && InRange(s)
    requires AccessOf(env, op).Some? ==> FitsBoth(m, AccessOf(env, op).value)
    ensures Ready(cfg, s) && RunOp(cfg, env, s, op).Some?
    ensures var acc, r := AccessOf(env, op), RunOp(cfg, env, s, op).value;
      && Matches(m, Next(m, h, env, op), cfg, r)
      && Counted(s, r, acc, Misses(m, h, acc, false), Misses(m, h, acc, true))
    decreases op
  {
    hide Grown, Counted, InRange, CountIr, CountDr, CountDw, Doref, After, AccessMisses, Blocks, Fits;
    match op
    case IrOp(n) =>
      FetchMisses(m, h, cfg, s, n);
    case DrOp(n, ea, szB) => DataMisses(m, h, cfg, s, n, env(ea), szB, false);
    case DwOp(n, ea, szB) => DataMisses(m, h, cfg, s, n, env(ea), szB, true);
    case BcOp(n, ea) => NothingCounted(s, RunOp(cfg, env, s, op).value, None, false, false);
    case BiOp(n, ea) => NothingCounted(s, RunOp(cfg, env, s, op).value, None, false, false);
    case GuardedOp(g, o) =>
      if env(g) == 0 {
        NothingCounted(s, RunOp(cfg, env, s, op).value, None, false, false);
      } else {
        OpMisses(m, h, cfg, env, s, o);
      }
  }

  lemma {:induction false} NonZero(line: nat, a: nat, size: nat)
    requires line > 0 && Fits(line, a, size)
    ensures 0 !in Blocks(line, a, size)
  {
    BlocksOf(line, a, size);
  }

  lemma {:induction false} FetchMisses(m: Machine, h: History, cfg: Config, s: Sim, n: InstrInfo)
    requires Buildable(m) && Matches(m, h, cfg, s) && InRange(s)
    requires FitsBoth(m, Access(Fetch, n.parent, n.addr, n.len))
    ensures Ready(cfg, s) && IrGeneric(cfg, s, n).Some?
    ensures var acc, r := Access(Fetch, n.parent, n.addr, n.len), IrGeneric(cfg, s, n).value;
      && Matches(m, Extended(m, h, acc), cfg, r)
      && Counted(s, r, Some(acc), MissesFirst(m, h, acc), MissesLast(m, h, acc))
  {
    hide Grown, Counted, InRange, CountDr, CountDw, Doref, After, AccessMisses, Blocks, Fits;
    TwoLevelMisses(m.i, m.l, h.i, h.l, n.addr, n.len);
    NonZero(m.i.line, n.addr, n.len);
    NonZero(m.l.line, n.addr, n.len);
    var m1, mL := FetchCounted(cfg, s, n);
  }

  lemma {:induction false} DataMisses(m: Machine, h: History, cfg: Config, s: Sim, n: InstrInfo, a: nat, szB: nat,
                                      write: bool)
    requires Buildable(m) && Matches(m, h, cfg, s) && InRange(s)
    requires FitsBoth(m, Access(if write then Store else Load, n.parent, a, szB))
    ensures Ready(cfg, s) && Data(cfg, s, n, a, szB, write).Some?
    ensures var acc, r := Access(if write then Store else Load, n.parent, a, szB), Data(cfg, s, n, a, szB, write).value;
      && Matches(m, Extended(m, h, acc), cfg, r)
      && Counted(s, r, Some(acc), MissesFirst(m, h, acc), MissesLast(m, h, acc))
  {
    hide Grown, Counted, InRange, CountIr, Doref, After, AccessMisses, Blocks, Fits;
    TwoLevelMisses(m.d, m.l, h.d, h.l, a, szB);
    NonZero(m.d.line, a, szB);
    NonZero(m.l.line, a, szB);
    var m1, mL := DataCounted(cfg, s, n, a, szB, write);
  }

  /** With caches simulated: a run whose accesses fit ends, its caches have seen exactly the accesses of
      the run, and every counter of misses has grown by the number of misses of its kind and line. */
  lemma {:induction false} MissesCounted(m: Machine, h: History, cfg: Config, env: Atom -> nat, s: Sim, ops: seq<Op>,
                                         kind: Kind, p: LineId)
    requires Buildable(m) && Matches(m, h, cfg, s) && InRange(s) && AllFit(m, env, ops)
    ensures Ready(cfg, s) && RunOps(cfg, env, s, ops).Some?
    ensures var r := RunOps(cfg, env, s, ops).value; var c, d := Counters(s, kind, p), Counters(r, kind, p);
      && Matches(m, Final(m, h, env, ops), cfg, r)
      && d.m1 == Mod64(c.m1 + Missed(m, h, env, ops, kind, p, false))
      && d.mL == Mod64(c.mL + Missed(m, h, env, ops, kind, p, true))
    decreases ops
  {
    hide *;
    if ops != [] {
      var t, h', one, two := MissesStep(m, h, cfg, env, s, ops, kind, p);
      MissesCounted(m, h', cfg, env, t, ops[1..], kind, p);
      var c, d, e := Counters(s, kind, p), Counters(t, kind, p), Counters(RunOps(cfg, env, s, ops).value, kind, p);
      Carried(c.m1, one, d.m1, Missed(m, h', env, ops[1..], kind, p, false), e.m1);
      Carried(c.mL, two, d.mL, Missed(m, h', env, ops[1..], kind, p, true), e.mL);
    } else {
      NothingMissed(m, h, cfg, env, s, kind, p);
    }
  }

  /** The first operation of a run, and what is left. */
  lemma {:induction false} MissesStep(m: Machine, h: History, cfg: Config, env: Atom -> nat, s: Sim, ops: seq<Op>,
                                      kind: Kind, p: LineId) returns (t: Sim, h': History, one: nat, two: nat)
    requires Buildable(m) && Matches(m, h, cfg, s) && InRange(s) && AllFit(m, env, ops) && ops != []
    ensures Ready(cfg, s) && Ready(cfg, t) && RunOps(cfg, env, s, ops) == RunOps(cfg, env, t, ops[1..])
    ensures Matches(m, h', cfg, t) && InRange(t) && AllFit(m, env, ops[1..])
    ensures Final(m, h, env, ops) == Final(m, h', env, ops[1..])
    ensures Counters(t, kind, p).m1 == Mod64(Counters(s, kind, p).m1 + one)
    ensures Counters(t, kind, p).mL == Mod64(Counters(s, kind, p).mL + two)
    ensures Missed(m, h, env, ops, kind, p, false) == one + Missed(m, h', env, ops[1..], kind, p, false)
    ensures Missed(m, h, env, ops, kind, p, true) == two + Missed(m, h', env, ops[1..], kind, p, true)
  {
    hide *;
    MissedUnfold(m, h, env, ops, kind, p);
    var acc := AccessOf(env, ops[0]);
    h' := Next(m, h, env, ops[0]);
    t := FirstOp(m, h, cfg, env, s, ops);
    var miss1, missL := Misses(m, h, acc, false), Misses(m, h, acc, true);
    GrownAt(s, t, acc, miss1, missL, kind, p);
    one, two := Bit(Of(acc, kind, p) && miss1), Bit(Of(acc, kind, p) && missL);
  }

  lemma {:induction false} FirstOp(m: Machine, h: History, cfg: Config, env: Atom -> nat, s: Sim, ops: seq<Op>)
      returns (t: Sim)
    requires Buildable(m) && Matches(m, h, cfg, s) && InRange(s) && ops != []
    requires AccessOf(env, ops[0]).Some? ==> FitsBoth(m, AccessOf(env, ops[0]).value)
    ensures Ready(cfg, s) && Ready(cfg, t) && RunOps(cfg, env, s, ops) == RunOps(cfg, env, t, ops[1..])
    ensures Matches(m, Next(m, h, env, ops[0]), cfg, t) && InRange(t)
    ensures var acc := AccessOf(env, ops[0]); Counted(s, t, acc, Misses(m, h, acc, false), Misses(m, h, acc, true))
  {
    hide *;
    OpMisses(m, h, cfg, env, s, ops[0]);
    RunOpsUnfold(cfg, env, s, ops);
    t := RunOp(cfg, env, s, ops[0]).value;
    var acc := AccessOf(env, ops[0]);
    StaysInRange(s, t, acc, Misses(m, h, acc, false), Misses(m, h, acc, true));
  }

  lemma {:induction false} GrownAt(s: Sim, t: Sim, acc: Option<Access>, miss1: bool, missL: bool, kind: Kind, p: LineId)
    requires Counted(s, t, acc, miss1, missL)
    ensures var c, d := Counters(s, kind, p), Counters(t, kind, p);
      && d.a == Mod64(c.a + Bit(Of(acc, kind, p)))
      && d.m1 == Mod64(c.m1 + Bit(Of(acc, kind, p) && miss1))
      && d.mL == Mod64(c.mL + Bit(Of(acc, kind, p) && missL))
  {}

  lemma {:induction false} Carried(c: nat, one: nat, d: nat, rest: nat, e: nat)
    requires d == Mod64(c + one) && e == Mod64(d + rest)
    ensures e == Mod64(c + (one + rest))
  {
    ModAdd(c + one, rest, WORD);
  }

  lemma {:induction false} NothingMissed(m: Machine, h: History, cfg: Config, env: Atom -> nat, s: Sim,
                                         kind: Kind, p: LineId)
    requires Buildable(m) && Matches(m, h, cfg, s) && InRange(s)
    ensures Ready(cfg, s) && AllFit(m, env, []) && RunOps(cfg, env, s, []) == Some(s) && Final(m, h, env, []) == h
    ensures Missed(m, h, env, [], kind, p, false) == 0 == Missed(m, h, env, [], kind, p, true)
    ensures var c := Counters(s, kind, p); c.m1 == Mod64(c.m1 + 0) && c.mL == Mod64(c.mL + 0)
  {}

  lemma {:induction false} RunOpsUnfold(cfg: Config, env: Atom -> nat, s: Sim, ops: seq<Op>)
    requires Ready(cfg, s) && ops != [] && RunOp(cfg, env, s, ops[0]).Some?
    ensures var t := RunOp(cfg, env, s, ops[0]).value;
      Ready(cfg, t) && RunOps(cfg, env, s, ops) == RunOps(cfg, env, t, ops[1..])
  {}

  lemma {:induction false} MissedUnfold(m: Machine, h: History, env: Atom -> nat, ops: seq<Op>, kind: Kind, p: LineId)
    requires Buildable(m) && AllFit(m, env, ops) && ops != []
    ensures AccessOf(env, ops[0]).Some? ==> FitsBoth(m, AccessOf(env, ops[0]).value)
    ensures AllFit(m, env, ops[1..])
    ensures var h' := Next(m, h, env, ops[0]); var acc := AccessOf(env, ops[0]);
      && Final(m, h, env, ops) == Final(m, h', env, ops[1..])
      && Missed(m, h, env, ops, kind, p, false) ==
           Bit(Of(acc, kind, p) && Misses(m, h, acc, false)) +
             Missed(m, h', env, ops[1..], kind, p, false)
      && Missed(m, h, env, ops, kind, p, true) ==
           Bit(Of(acc, kind, p) && Misses(m, h, acc, true)) +
             Missed(m, h', env, ops[1..], kind, p, true)
  {
    hide AccessOf, FitsBoth, Misses, Next;
  }
}
