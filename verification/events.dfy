/** Memory events, the helper calls that replace them, and what both mean to the simulation. */
module Events {
  import opened Wrappers
  import opened CacheSim

  type Atom = nat              // an IR atom: a temporary or a constant, fixed while a block runs
  type LineId = nat            // a source line's cost centre

  datatype InstrInfo = InstrInfo(id: nat, addr: nat, len: nat, parent: LineId)

  datatype EventTag = IrNoX | IrGen | Dr | Dw | Dm | Bc | Bi

  /** `ea` is the data address, the branch condition or the branch target. */
  datatype Event = Event(tag: EventTag, inode: InstrInfo, szB: nat, ea: Atom)

  datatype Call =
    | Log1Ir(n: InstrInfo)
    | Log2Ir(n: InstrInfo, n2: InstrInfo)
    | Log3Ir(n: InstrInfo, n2: InstrInfo, n3: InstrInfo)
    | Log1IrGen(n: InstrInfo)
    | Log1IrNoX(n: InstrInfo)
    | Log2IrNoX(n: InstrInfo, n2: InstrInfo)
    | Log3IrNoX(n: InstrInfo, n2: InstrInfo, n3: InstrInfo)
    | Log1IrNoX1Dr(n: InstrInfo, ea: Atom, szB: nat)
    | Log1IrNoX1Dw(n: InstrInfo, ea: Atom, szB: nat)
    | Log0Ir1Dr(n: InstrInfo, ea: Atom, szB: nat)
    | Log0Ir1Dw(n: InstrInfo, ea: Atom, szB: nat)
    | LogCondBranch(n: InstrInfo, taken: Atom)
    | LogIndBranch(n: InstrInfo, dst: Atom)

  /** One simulated operation, as the unmerged program would ask for it. */
  datatype Op =
    | IrOp(n: InstrInfo)
    | DrOp(n: InstrInfo, ea: Atom, szB: nat)
    | DwOp(n: InstrInfo, ea: Atom, szB: nat)
    | BcOp(n: InstrInfo, ea: Atom)
    | BiOp(n: InstrInfo, ea: Atom)
    | GuardedOp(guard: Atom, op: Op)

  function OpOf(e: Event): Op {
    match e.tag
    case IrNoX => IrOp(e.inode)
    case IrGen => IrOp(e.inode)
    case Dr => DrOp(e.inode, e.ea, e.szB)
    case Dm => DrOp(e.inode, e.ea, e.szB)
    case Dw => DwOp(e.inode, e.ea, e.szB)
    case Bc => BcOp(e.inode, e.ea)
    case Bi => BiOp(e.inode, e.ea)
  }

  function OpsOf(c: Call): seq<Op> {
    match c
    case Log1Ir(n) => [IrOp(n)]
    case Log2Ir(n, n2) => [IrOp(n), IrOp(n2)]
    case Log3Ir(n, n2, n3) => [IrOp(n), IrOp(n2), IrOp(n3)]
    case Log1IrGen(n) => [IrOp(n)]
    case Log1IrNoX(n) => [IrOp(n)]
    case Log2IrNoX(n, n2) => [IrOp(n), IrOp(n2)]
    case Log3IrNoX(n, n2, n3) => [IrOp(n), IrOp(n2), IrOp(n3)]
    case Log1IrNoX1Dr(n, ea, szB) => [IrOp(n), DrOp(n, ea, szB)]
    case Log1IrNoX1Dw(n, ea, szB) => [IrOp(n), DwOp(n, ea, szB)]
    case Log0Ir1Dr(n, ea, szB) => [DrOp(n, ea, szB)]
    case Log0Ir1Dw(n, ea, szB) => [DwOp(n, ea, szB)]
    case LogCondBranch(n, taken) => [BcOp(n, taken)]
    case LogIndBranch(n, dst) => [BiOp(n, dst)]
  }

  // ----- run time

  datatype CC = CC(a: nat, m1: nat, mL: nat)
  datatype LineCC = LineCC(ir: CC, dr: CC, dw: CC)

  /** The caches, the cost centres touched so far, and the branches handed to the predictors. */
  datatype Sim = Sim(i1: State, d1: State, ll: State, cc: map<LineId, LineCC>, branches: seq<(Op, nat)>)

  datatype Config = Config(lineI: nat, lineD: nat, lineL: nat, cacheSim: bool, branchSim: bool)

  ghost predicate Ready(cfg: Config, s: Sim) {
    cfg.lineI > 0 && cfg.lineD > 0 && cfg.lineL > 0 && Proper(s.i1) && Proper(s.d1) && Proper(s.ll)
  }

  function Line(s: Sim, p: LineId): LineCC {
    if p in s.cc then s.cc[p] else LineCC(CC(0, 0, 0), CC(0, 0, 0), CC(0, 0, 0))
  }

  function Bump(c: CC, miss1: bool, missL: bool): CC {
    CC(Inc(c.a), if miss1 then Inc(c.m1) else c.m1, if missL then Inc(c.mL) else c.mL)
  }

  function CountIr(s: Sim, n: InstrInfo, miss1: bool, missL: bool): (r: Sim) {
    var l := Line(s, n.parent);
    s.(cc := s.cc[n.parent := l.(ir := Bump(l.ir, miss1, missL))])
  }

  function CountDr(s: Sim, n: InstrInfo, miss1: bool, missL: bool): (r: Sim) {
    var l := Line(s, n.parent);
    s.(cc := s.cc[n.parent := l.(dr := Bump(l.dr, miss1, missL))])
  }

  function CountDw(s: Sim, n: InstrInfo, miss1: bool, missL: bool): (r: Sim) {
    var l := Line(s, n.parent);
    s.(cc := s.cc[n.parent := l.(dw := Bump(l.dw, miss1, missL))])
  }

  function IrGeneric(cfg: Config, s: Sim, n: InstrInfo): (r: Option<Sim>)
    requires Ready(cfg, s)
    ensures r.Some? ==> Ready(cfg, r.value)
  {
    if !cfg.cacheSim then Some(CountIr(s, n, false, false))
    else
      match Doref(s.i1, s.ll, cfg.lineI, cfg.lineL, n.addr, n.len)
      case None => None
      case Some(t) => Some(CountIr(s.(i1 := t.l1, ll := t.ll), n, t.miss1, t.missL))
  }

  function IrFast(cfg: Config, s: Sim, n: InstrInfo): (r: Sim)
    requires Ready(cfg, s)
    ensures Ready(cfg, r)
  {
    var t := NoX(s.i1, s.ll, cfg.lineI, n.addr);
    CountIr(s.(i1 := t.l1, ll := t.ll), n, t.miss1, t.missL)
  }

  function Data(cfg: Config, s: Sim, n: InstrInfo, a: nat, szB: nat, write: bool): (r: Option<Sim>)
    requires Ready(cfg, s)
    ensures r.Some? ==> Ready(cfg, r.value)
  {
    match Doref(s.d1, s.ll, cfg.lineD, cfg.lineL, a, szB)
    case None => None
    case Some(t) =>
      var s' := s.(d1 := t.l1, ll := t.ll);
      Some(if write then CountDw(s', n, t.miss1, t.missL) else CountDr(s', n, t.miss1, t.missL))
  }

  /** The reference: every operation by itself, through the generic path. None is a panic. */
  function RunOp(cfg: Config, env: Atom -> nat, s: Sim, op: Op): (r: Option<Sim>)
    requires Ready(cfg, s)
    ensures r.Some? ==> Ready(cfg, r.value)
  {
    match op
    case IrOp(n) => IrGeneric(cfg, s, n)
    case DrOp(n, ea, szB) => Data(cfg, s, n, env(ea), szB, false)
    case DwOp(n, ea, szB) => Data(cfg, s, n, env(ea), szB, true)
    case BcOp(n, ea) => Some(s.(branches := s.branches + [(op, env(ea))]))
    case BiOp(n, ea) => Some(s.(branches := s.branches + [(op, env(ea))]))
    case GuardedOp(g, o) => if env(g) == 0 then Some(s) else RunOp(cfg, env, s, o)
  }

  function RunOps(cfg: Config, env: Atom -> nat, s: Sim, ops: seq<Op>): (r: Option<Sim>)
    requires Ready(cfg, s)
    ensures r.Some? ==> Ready(cfg, r.value)
    decreases ops
  {
    if ops == [] then Some(s)
    else
      match RunOp(cfg, env, s, ops[0])
      case None => None
      case Some(s') => RunOps(cfg, env, s', ops[1..])
  }

  lemma {:induction false} RunOpsConcat(cfg: Config, env: Atom -> nat, s: Sim, a: seq<Op>, b: seq<Op>)
    requires Ready(cfg, s)
    ensures RunOps(cfg, env, s, a + b) ==
      match RunOps(cfg, env, s, a) case None => None case Some(s') => RunOps(cfg, env, s', b)
    decreases a
  {
    if a == [] {
      assert a + b == b;
    } else {
      assert (a + b)[1..] == a[1..] + b;
      match RunOp(cfg, env, s, a[0])
      case None =>
      case Some(s') => RunOpsConcat(cfg, env, s', a[1..], b);
    }
  }

  /** What a helper function does, statement by statement. */
  function RunCall(cfg: Config, env: Atom -> nat, s: Sim, c: Call): (r: Option<Sim>)
    requires Ready(cfg, s)
    ensures r.Some? ==> Ready(cfg, r.value)
  {
    match c
    case Log1Ir(n) => Some(CountIr(s, n, false, false))
    case Log2Ir(n, n2) => Some(CountIr(CountIr(s, n, false, false), n2, false, false))
    case Log3Ir(n, n2, n3) => Some(CountIr(CountIr(CountIr(s, n, false, false), n2, false, false), n3, false, false))
    case Log1IrGen(n) =>
      (match Doref(s.i1, s.ll, cfg.lineI, cfg.lineL, n.addr, n.len)
       case None => None
       case Some(t) => Some(CountIr(s.(i1 := t.l1, ll := t.ll), n, t.miss1, t.missL)))
    case Log1IrNoX(n) => Some(IrFast(cfg, s, n))
    case Log2IrNoX(n, n2) => Some(IrFast(cfg, IrFast(cfg, s, n), n2))
    case Log3IrNoX(n, n2, n3) => Some(IrFast(cfg, IrFast(cfg, IrFast(cfg, s, n), n2), n3))
    case Log1IrNoX1Dr(n, ea, szB) => Data(cfg, IrFast(cfg, s, n), n, env(ea), szB, false)
    case Log1IrNoX1Dw(n, ea, szB) => Data(cfg, IrFast(cfg, s, n), n, env(ea), szB, true)
    case Log0Ir1Dr(n, ea, szB) => Data(cfg, s, n, env(ea), szB, false)
    case Log0Ir1Dw(n, ea, szB) => Data(cfg, s, n, env(ea), szB, true)
    case LogCondBranch(n, taken) => Some(s.(branches := s.branches + [(BcOp(n, taken), env(taken))]))
    case LogIndBranch(n, dst) => Some(s.(branches := s.branches + [(BiOp(n, dst), env(dst))]))
  }

  predicate NoXInstr(cfg: Config, n: InstrInfo)
    requires cfg.lineI > 0
  {
    IsIrNoX(cfg.lineI, cfg.lineL, n.addr, n.len)
  }

  /** Calls that the instrumentation may emit: the fast path only for instructions that passed the
      test, cache helpers only when the caches are simulated. */
  ghost predicate Sound(cfg: Config, c: Call)
    requires cfg.lineI > 0
  {
    match c
    case Log1Ir(n) => !cfg.cacheSim
    case Log2Ir(n, n2) => !cfg.cacheSim
    case Log3Ir(n, n2, n3) => !cfg.cacheSim
    case Log1IrGen(n) => cfg.cacheSim
    case Log1IrNoX(n) => cfg.cacheSim && NoXInstr(cfg, n)
    case Log2IrNoX(n, n2) => cfg.cacheSim && NoXInstr(cfg, n) && NoXInstr(cfg, n2)
    case Log3IrNoX(n, n2, n3) => cfg.cacheSim && NoXInstr(cfg, n) && NoXInstr(cfg, n2) && NoXInstr(cfg, n3)
    case Log1IrNoX1Dr(n, ea, szB) => cfg.cacheSim && NoXInstr(cfg, n)
    case Log1IrNoX1Dw(n, ea, szB) => cfg.cacheSim && NoXInstr(cfg, n)
    case Log0Ir1Dr(n, ea, szB) => true
    case Log0Ir1Dw(n, ea, szB) => true
    case LogCondBranch(n, taken) => true
    case LogIndBranch(n, dst) => true
  }

  lemma {:induction false} FastIsGeneric(cfg: Config, s: Sim, n: InstrInfo)
    requires Ready(cfg, s) && cfg.cacheSim && NoXInstr(cfg, n)
    ensures IrGeneric(cfg, s, n) == Some(IrFast(cfg, s, n))
  {
    NoXIsGeneric(s.i1, s.ll, cfg.lineI, cfg.lineL, n.addr, n.len);
  }

  lemma {:induction false} RunOne(cfg: Config, env: Atom -> nat, s: Sim, a: Op)
    requires Ready(cfg, s)
    ensures RunOps(cfg, env, s, [a]) == RunOp(cfg, env, s, a)
  {}

  lemma {:induction false} RunTwo(cfg: Config, env: Atom -> nat, s: Sim, a: Op, b: Op)
    requires Ready(cfg, s) && RunOp(cfg, env, s, a).Some?
    ensures RunOps(cfg, env, s, [a, b]) == RunOp(cfg, env, RunOp(cfg, env, s, a).value, b)
  {
    assert [a, b] == [a] + [b];
    RunOpsConcat(cfg, env, s, [a], [b]);
    RunOne(cfg, env, s, a);
    RunOne(cfg, env, RunOp(cfg, env, s, a).value, b);
  }

  /** A helper call computes what its operations compute one at a time. */
  lemma {:induction false} CallRunsItsOps(cfg: Config, env: Atom -> nat, s: Sim, c: Call)
    requires Ready(cfg, s) && Sound(cfg, c)
    ensures RunCall(cfg, env, s, c) == RunOps(cfg, env, s, OpsOf(c))
  {
    hide CountIr, Doref, Data;
    var ops := OpsOf(c);
    if |ops| == 1 {
      RunOne(cfg, env, s, ops[0]);
      if c.Log1IrNoX? { FastIsGeneric(cfg, s, c.n); }
    } else {
      if cfg.cacheSim {
        FastIsGeneric(cfg, s, c.n);
        var s1 := IrFast(cfg, s, c.n);
        if |ops| == 2 { RunTwo(cfg, env, s, ops[0], ops[1]); }
        if c.Log2IrNoX? { FastIsGeneric(cfg, s1, c.n2); }
        if c.Log3IrNoX? {
          FastIsGeneric(cfg, s1, c.n2);
          FastIsGeneric(cfg, IrFast(cfg, s1, c.n2), c.n3);
          RunThree(cfg, env, s, ops[0], ops[1], ops[2]);
        }
      } else if |ops| == 2 {
        RunTwo(cfg, env, s, ops[0], ops[1]);
      } else {
        RunThree(cfg, env, s, ops[0], ops[1], ops[2]);
      }
    }
  }

  lemma {:induction false} RunThree(cfg: Config, env: Atom -> nat, s: Sim, a: Op, b: Op, c: Op)
    requires Ready(cfg, s) && RunOp(cfg, env, s, a).Some? && RunOp(cfg, env, RunOp(cfg, env, s, a).value, b).Some?
    ensures RunOps(cfg, env, s, [a, b, c]) ==
      RunOp(cfg, env, RunOp(cfg, env, RunOp(cfg, env, s, a).value, b).value, c)
  {
    assert [a, b, c] == [a, b] + [c];
    RunOpsConcat(cfg, env, s, [a, b], [c]);
    RunTwo(cfg, env, s, a, b);
    RunOne(cfg, env, RunOp(cfg, env, RunOp(cfg, env, s, a).value, b).value, c);
  }
}
