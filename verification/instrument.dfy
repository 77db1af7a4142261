/** The instrumentation pass: a queue of events, merged and flushed into helper calls. */
module Instrument {
  import opened Wrappers
  import opened Events

  const N_EVENTS: int := 16

  // ----- the input, and the operations it stands for

  datatype Stmt =
    | IMark(n: InstrInfo)
    | Load(ea: Atom, szB: nat)
    | Store(ea: Atom, szB: nat)
    | LoadG(ea: Atom, szB: nat, guard: Atom)
    | StoreG(ea: Atom, szB: nat, guard: Atom)
    | Dirty(ea: Atom, szB: nat, rd: bool, wr: bool)     // a helper with a memory effect
    | CAS(ea: Atom, szB: nat)
    | LoadLinked(ea: Atom, szB: nat)
    | StoreConditional(ea: Atom, szB: nat)
    | Exit(branch: Option<Atom>)                               // Some: a branch in guest code
    | Other

  /** The requests a statement makes of the event queue. */
  datatype Prim =
    | PIr(n: InstrInfo)
    | PDr(n: InstrInfo, ea: Atom, szB: nat)
    | PDw(n: InstrInfo, ea: Atom, szB: nat)
    | PGuarded(n: InstrInfo, ea: Atom, szB: nat, guard: Atom, write: bool)
    | PBc(n: InstrInfo, ea: Atom)
    | PBi(n: InstrInfo, ea: Atom)
    | PFlush

  function Clip(cfg: Config, szB: nat): (r: nat) {
    var m := if cfg.lineI < cfg.lineD then cfg.lineI else cfg.lineD;
    var min := if cfg.lineL < m then cfg.lineL else m;
    if szB > min then min else szB
  }

  function Prims(cfg: Config, st: Stmt, n: InstrInfo): seq<Prim> {
    var d := cfg.cacheSim;
    match st
    case IMark(m) => [PIr(m)]
    case Load(ea, szB) => if d then [PDr(n, ea, szB)] else []
    case Store(ea, szB) => if d then [PDw(n, ea, szB)] else []
    case LoadG(ea, szB, g) => if d then [PGuarded(n, ea, szB, g, false)] else []
    case StoreG(ea, szB, g) => if d then [PGuarded(n, ea, szB, g, true)] else []
    case Dirty(ea, szB, r, w) =>
      (if d && r then [PDr(n, ea, Clip(cfg, szB))] else []) + (if d && w then [PDw(n, ea, Clip(cfg, szB))] else [])
    case CAS(ea, szB) => if d then [PDr(n, ea, Clip(cfg, szB)), PDw(n, ea, Clip(cfg, szB))] else []
    case LoadLinked(ea, szB) => (if d then [PDr(n, ea, szB)] else []) + [PFlush]
    case StoreConditional(ea, szB) => if d then [PDw(n, ea, szB)] else []
    case Exit(b) => (if b.Some? && cfg.branchSim then [PBc(n, b.value)] else []) + [PFlush]
    case Other => []
  }

  /** The operation a request stands for, given the request before it: a store right after a load of
      the same instruction, address and size makes the load a modify and adds nothing. */
  function PrimOps(prev: Option<Prim>, p: Prim): seq<Op> {
    match p
    case PIr(n) => [IrOp(n)]
    case PDr(n, ea, szB) => [DrOp(n, ea, szB)]
    case PDw(n, ea, szB) => if prev == Some(PDr(n, ea, szB)) then [] else [DwOp(n, ea, szB)]
    case PGuarded(n, ea, szB, g, w) => [GuardedOp(g, if w then DwOp(n, ea, szB) else DrOp(n, ea, szB))]
    case PBc(n, ea) => [BcOp(n, ea)]
    case PBi(n, ea) => [BiOp(n, ea)]
    case PFlush => []
  }

  function LastOf(ps: seq<Prim>): Option<Prim> {
    if ps == [] then None else Some(ps[|ps| - 1])
  }

  /** The reference meaning of a sequence of requests. It knows nothing of queues or their size. */
  function Meaning(ps: seq<Prim>): seq<Op> {
    if ps == [] then [] else Meaning(ps[..|ps| - 1]) + PrimOps(LastOf(ps[..|ps| - 1]), ps[|ps| - 1])
  }

  lemma {:induction false} MeaningSnoc(ps: seq<Prim>, p: Prim)
    ensures Meaning(ps + [p]) == Meaning(ps) + PrimOps(LastOf(ps), p)
    ensures LastOf(ps + [p]) == Some(p)
  {
    assert (ps + [p])[..|ps|] == ps;
  }

  // ----- the output

  datatype Out = Helper(call: Call, guard: Option<Atom>) | Orig(st: Stmt)

  function OutOps(o: Out): seq<Op> {
    match o
    case Helper(c, None) => OpsOf(c)
    case Helper(c, Some(g)) => if |OpsOf(c)| == 1 then [GuardedOp(g, OpsOf(c)[0])] else []
    case Orig(_) => []
  }

  function Trace(out: seq<Out>): seq<Op> {
    if out == [] then [] else Trace(out[..|out| - 1]) + OutOps(out[|out| - 1])
  }

  lemma {:induction false} TraceSnoc(out: seq<Out>, o: Out)
    ensures Trace(out + [o]) == Trace(out) + OutOps(o)
  {
    assert (out + [o])[..|out|] == out;
  }

  ghost predicate SoundOut(cfg: Config, out: seq<Out>)
    requires cfg.lineI > 0
  {
    forall i :: 0 <= i < |out| && out[i].Helper? ==>
      Sound(cfg, out[i].call) && (out[i].guard.Some? ==> out[i].call.Log0Ir1Dr? || out[i].call.Log0Ir1Dw?)
  }

  function EventOps(evs: seq<Event>): seq<Op> {
    if evs == [] then [] else EventOps(evs[..|evs| - 1]) + [OpOf(evs[|evs| - 1])]
  }

  lemma {:induction false} EventOpsConcat(a: seq<Event>, b: seq<Event>)
    ensures EventOps(a + b) == EventOps(a) + EventOps(b)
  {
    if b == [] {
      assert a + b == a;
    } else {
      assert (a + b)[..|a + b| - 1] == a + b[..|b| - 1];
      EventOpsConcat(a, b[..|b| - 1]);
    }
  }

  // ----- the queue

  predicate IsData(e: Event) { e.tag == Dr || e.tag == Dw || e.tag == Dm }

  /** Every data event belongs to the instruction of the read just before it; fast reads passed the test. */
  ghost predicate Queued(cfg: Config, evs: seq<Event>)
    requires cfg.lineI > 0
  {
    && (forall i :: 0 <= i < |evs| ==>
      (evs[i].tag == IrNoX ==> NoXInstr(cfg, evs[i].inode)) && (IsData(evs[i]) ==> cfg.cacheSim))
    && (forall i :: 0 <= i < |evs| - 1 && evs[i].tag == IrNoX && IsData(evs[i + 1]) ==>
      evs[i + 1].inode == evs[i].inode)
  }

  /** The call that flushEvents chooses for the events at the head of the queue, and how many it takes. */
  function Choose(cfg: Config, evs: seq<Event>): (r: (Call, nat))
    requires evs != []
    ensures 1 <= r.1 <= |evs|
  {
    var e := evs[0];
    match e.tag
    case IrNoX =>
      if |evs| > 1 && (evs[1].tag == Dr || evs[1].tag == Dm) then (Log1IrNoX1Dr(e.inode, evs[1].ea, evs[1].szB), 2)
      else if |evs| > 1 && evs[1].tag == Dw then (Log1IrNoX1Dw(e.inode, evs[1].ea, evs[1].szB), 2)
      else if |evs| > 2 && evs[1].tag == IrNoX && evs[2].tag == IrNoX then
        (if cfg.cacheSim then Log3IrNoX(e.inode, evs[1].inode, evs[2].inode)
         else Log3Ir(e.inode, evs[1].inode, evs[2].inode), 3)
      else if |evs| > 1 && evs[1].tag == IrNoX then
        (if cfg.cacheSim then Log2IrNoX(e.inode, evs[1].inode) else Log2Ir(e.inode, evs[1].inode), 2)
      else (if cfg.cacheSim then Log1IrNoX(e.inode) else Log1Ir(e.inode), 1)
    case IrGen => (if cfg.cacheSim then Log1IrGen(e.inode) else Log1Ir(e.inode), 1)
    case Dr => (Log0Ir1Dr(e.inode, e.ea, e.szB), 1)
    case Dm => (Log0Ir1Dr(e.inode, e.ea, e.szB), 1)
    case Dw => (Log0Ir1Dw(e.inode, e.ea, e.szB), 1)
    case Bc => (LogCondBranch(e.inode, e.ea), 1)
    case Bi => (LogIndBranch(e.inode, e.ea), 1)
  }

  /** The chosen call stands for exactly the events it takes, and is one the run time can trust. */
  lemma {:induction false} ChoiceIsFaithful(cfg: Config, evs: seq<Event>)
    requires evs != [] && cfg.lineI > 0 && Queued(cfg, evs)
    ensures var (c, k) := Choose(cfg, evs); OpsOf(c) == EventOps(evs[..k]) && Sound(cfg, c)
  {
    var (c, k) := Choose(cfg, evs);
    assert evs[..1] == [evs[0]] && EventOps([evs[0]]) == [OpOf(evs[0])];
    if k >= 2 {
      assert evs[..2] == [evs[0]] + [evs[1]];
      EventOpsConcat([evs[0]], [evs[1]]);
      assert EventOps([evs[1]]) == [OpOf(evs[1])];
    }
    if k == 3 {
      assert evs[..3] == evs[..2] + [evs[2]];
      EventOpsConcat(evs[..2], [evs[2]]);
      assert EventOps([evs[2]]) == [OpOf(evs[2])];
    }
  }

  // ----- running the output

  function RunOut(cfg: Config, env: Atom -> nat, s: Sim, out: seq<Out>): (r: Option<Sim>)
    requires Ready(cfg, s)
    ensures r.Some? ==> Ready(cfg, r.value)
  {
    if out == [] then Some(s)
    else
      match RunOut(cfg, env, s, out[..|out| - 1])
      case None => None
      case Some(s') =>
        match out[|out| - 1]
        case Orig(_) => Some(s')
        case Helper(c, g) => if g.Some? && env(g.value) == 0 then Some(s') else RunCall(cfg, env, s', c)
  }

  /** Running the instrumented block simulates exactly the operations its trace stands for. */
  lemma {:induction false} OutRunsItsTrace(cfg: Config, env: Atom -> nat, s: Sim, out: seq<Out>)
    requires Ready(cfg, s) && SoundOut(cfg, out)
    ensures RunOut(cfg, env, s, out) == RunOps(cfg, env, s, Trace(out))
  {
    hide RunOps, RunCall;
    if out == [] {
      RunNone(cfg, env, s);
    } else {
      var before, o := out[..|out| - 1], out[|out| - 1];
      OutRunsItsTrace(cfg, env, s, before);
      RunOpsConcat(cfg, env, s, Trace(before), OutOps(o));
      var r := RunOut(cfg, env, s, before);
      if r.Some? {
        RunNone(cfg, env, r.value);
        if o.Helper? {
          CallRunsItsOps(cfg, env, r.value, o.call);
          if o.guard.Some? {
            RunOne(cfg, env, r.value, OutOps(o)[0]);
            RunOne(cfg, env, r.value, OpsOf(o.call)[0]);
          }
        }
      }
    }
  }

  lemma {:induction false} RunNone(cfg: Config, env: Atom -> nat, s: Sim)
    requires Ready(cfg, s)
    ensures RunOps(cfg, env, s, []) == Some(s)
  {}

  // ----- the pass over a block

  function CurrOf(ss: seq<Stmt>): InstrInfo
    requires ss != [] && ss[0].IMark?
  {
    if ss[|ss| - 1].IMark? then ss[|ss| - 1].n else CurrOf(ss[..|ss| - 1])
  }

  function AllPrims(cfg: Config, ss: seq<Stmt>): seq<Prim>
    requires ss != [] ==> ss[0].IMark?
  {
    if ss == [] then [] else AllPrims(cfg, ss[..|ss| - 1]) + Prims(cfg, ss[|ss| - 1], CurrOf(ss))
  }

  /** The original statements of the output, in order. */
  function Origs(out: seq<Out>): seq<Stmt> {
    if out == [] then []
    else
      var o := out[|out| - 1];
      Origs(out[..|out| - 1]) + if o.Orig? then [o.st] else []
  }

  /** When control can leave the block at an exit, everything up to that exit has been simulated. */
  ghost predicate ExitsCovered(cfg: Config, out: seq<Out>) {
    forall j :: 0 <= j < |out| && out[j].Orig? && out[j].st.Exit? ==>
      var ss := Origs(out[..j]) + [out[j].st];
      ss[0].IMark? && Trace(out[..j]) == Meaning(AllPrims(cfg, ss))
  }

  /** Nothing but helper calls was added to the output. */
  ghost predicate OnlyHelpers(out: seq<Out>, out': seq<Out>) {
    && out <= out' && Origs(out') == Origs(out)
    && forall j :: |out| <= j < |out'| ==> out'[j].Helper?
  }

  lemma {:induction false} HelpersSnoc(out: seq<Out>, out': seq<Out>, o: Out)
    requires OnlyHelpers(out, out') && o.Helper?
    ensures OnlyHelpers(out, out' + [o])
  {
    OrigsSnoc(out', o);
  }

  class CgState {
    const cfg: Config
    const events: array<Event>
    var eventsUsed: nat
    var sbOut: seq<Out>
    ghost var prims: seq<Prim>     // the requests so far

    ghost predicate Inv()
      reads this, events
    {
      && cfg.lineI > 0 && events.Length == N_EVENTS && eventsUsed <= N_EVENTS
      && Queued(cfg, events[..eventsUsed]) && SoundOut(cfg, sbOut)
      && Trace(sbOut) + EventOps(events[..eventsUsed]) == Meaning(prims)
    }

    /** The last event is a plain load exactly if the last request was that load. */
    ghost predicate Valid()
      reads this, events
    {
      && Inv()
      && (eventsUsed > 0 && events[eventsUsed - 1].tag == Dr ==>
            var e := events[eventsUsed - 1]; LastOf(prims) == Some(PDr(e.inode, e.ea, e.szB)))
      && (forall n, ea, szB :: LastOf(prims) == Some(PDr(n, ea, szB)) ==>
            eventsUsed > 0 && events[eventsUsed - 1] == Event(Dr, n, szB, ea))
    }

    /** The instruction at hand is the one whose read is last in the queue, if a read is last. */
    ghost predicate Current(n: InstrInfo)
      reads this, events
    {
      0 < eventsUsed <= events.Length && events[eventsUsed - 1].tag == IrNoX ==> events[eventsUsed - 1].inode == n
    }

    constructor (cfg: Config)
      requires cfg.lineI > 0
      ensures Valid() && fresh(events) && this.cfg == cfg && eventsUsed == 0 && sbOut == [] && prims == []
    {
      this.cfg := cfg;
      events := new Event[N_EVENTS](_ => Event(IrGen, InstrInfo(0, 0, 0, 0), 0, 0));
      eventsUsed, sbOut, prims := 0, [], [];
    }

    /** Emits calls for all queued events, in order, and empties the queue. */
    method FlushEvents()
      requires Inv()
      modifies this`eventsUsed, this`sbOut
      ensures Inv() && eventsUsed == 0
      ensures OnlyHelpers(old(sbOut), sbOut)
    {
      hide Queued, OpsOf, Sound, SoundOut, EventOps, Trace, Origs, Choose, Meaning;
      ghost var evs := events[..eventsUsed];
      EventOpsNone(events[..0]);
      assert evs[..0] == events[..0];
      var i := 0;
      while i < eventsUsed
        invariant i <= eventsUsed && eventsUsed == old(eventsUsed)
        invariant SoundOut(cfg, sbOut) && Trace(sbOut) == Trace(old(sbOut)) + EventOps(evs[..i])
        invariant OnlyHelpers(old(sbOut), sbOut)
      {
        var rest := events[i..eventsUsed];
        assert rest == evs[i..];
        QueuedSuffix(cfg, evs, i);
        var (c, k) := Choose(cfg, rest);
        ChoiceIsFaithful(cfg, rest);
        MergedInode(cfg, rest);
        if c.Log1IrNoX1Dr? || c.Log1IrNoX1Dw? {
          assert rest[1].inode == rest[0].inode;      // the pass's own assertion
        }
        SoundSnoc(cfg, sbOut, c);
        EventOpsConcat(evs[..i], rest[..k]);
        assert evs[..i] + rest[..k] == evs[..i + k];
        TraceSnoc(sbOut, Helper(c, None));
        OrigsSnoc(sbOut, Helper(c, None));
        sbOut := sbOut + [Helper(c, None)];
        i := i + k;
      }
      assert evs[..i] == evs;
      eventsUsed := 0;
      QueuedNone(cfg, events[..0]);
    }
  
    /** Appends an event, first flushing a full queue. */
    method Enqueue(e: Event, ghost p: Prim)
      requires Inv() && PrimOps(LastOf(prims), p) == [OpOf(e)]
      requires e.tag == IrNoX ==> NoXInstr(cfg, e.inode)
      requires IsData(e) ==> cfg.cacheSim && Current(e.inode)
      modifies this`eventsUsed, this`sbOut, this`prims, events
      ensures Inv() && prims == old(prims) + [p] && eventsUsed > 0 && events[eventsUsed - 1] == e
      ensures OnlyHelpers(old(sbOut), sbOut)
    {
      hide OpOf, SoundOut, Trace, Origs, Meaning, Queued, EventOps, PrimOps;
      if eventsUsed == N_EVENTS { FlushEvents(); }
      ghost var evs := events[..eventsUsed];
      events[eventsUsed] := e;
      eventsUsed := eventsUsed + 1;
      assert events[..eventsUsed] == evs + [e];
      EventOpsSnoc(evs, e);
      QueuedSnoc(cfg, evs, e);
      MeaningSnoc(prims, p);
      prims := prims + [p];
    }

    method AddEventIr(n: InstrInfo)
      requires Valid()
      modifies this`eventsUsed, this`sbOut, this`prims, events
      ensures Valid() && Current(n) && prims == old(prims) + [PIr(n)]
      ensures OnlyHelpers(old(sbOut), sbOut)
    {
      var tag := if NoXInstr(cfg, n) then IrNoX else IrGen;
      Enqueue(Event(tag, n, 0, 0), PIr(n));
    }

    method AddEventDr(n: InstrInfo, szB: nat, ea: Atom)
      requires Valid() && Current(n)
      modifies this`eventsUsed, this`sbOut, this`prims, events
      ensures Valid() && Current(n)
      ensures prims == old(prims) + if cfg.cacheSim then [PDr(n, ea, szB)] else []
      ensures OnlyHelpers(old(sbOut), sbOut)
    {
      if !cfg.cacheSim { return; }
      Enqueue(Event(Dr, n, szB, ea), PDr(n, ea, szB));
    }

    /** A store is merged into the load before it if that is still the last thing in the queue. */
    method AddEventDw(n: InstrInfo, szB: nat, ea: Atom)
      requires Valid() && Current(n)
      modifies this`eventsUsed, this`sbOut, this`prims, events
      ensures Valid() && Current(n)
      ensures prims == old(prims) + if cfg.cacheSim then [PDw(n, ea, szB)] else []
      ensures OnlyHelpers(old(sbOut), sbOut)
    {
      if !cfg.cacheSim { return; }
      if eventsUsed > 0 {
        var last := events[eventsUsed - 1];
        if last.tag == Dr && last.szB == szB && last.inode == n && last.ea == ea {
          MakeModify(last);
          return;
        }
      }
      Enqueue(Event(Dw, n, szB, ea), PDw(n, ea, szB));
    }

    method MakeModify(last: Event)
      requires Valid() && eventsUsed > 0 && last == events[eventsUsed - 1] && last.tag == Dr
      modifies this`prims, events
      ensures Valid() && events[eventsUsed - 1].tag == Dm
      ensures prims == old(prims) + [PDw(last.inode, last.ea, last.szB)]
    {
      hide SoundOut, Trace, Meaning;
      ghost var evs := events[..eventsUsed - 1];
      assert events[..eventsUsed] == evs + [last];
      EventOpsConcat(evs, [last]);
      events[eventsUsed - 1] := last.(tag := Dm);
      assert events[..eventsUsed] == evs + [last.(tag := Dm)];
      EventOpsConcat(evs, [last.(tag := Dm)]);
      QueuedModify(cfg, evs, last);
      ghost var p := PDw(last.inode, last.ea, last.szB);
      MeaningSnoc(prims, p);
      prims := prims + [p];
    }

    /** A guarded access is not queued: the queue is flushed and the guarded call emitted at once. */
    method AddEventDGuarded(n: InstrInfo, szB: nat, ea: Atom, guard: Atom, write: bool)
      requires Valid() && Current(n)
      modifies this`eventsUsed, this`sbOut, this`prims, events
      ensures Valid() && Current(n)
      ensures prims == old(prims) + if cfg.cacheSim then [PGuarded(n, ea, szB, guard, write)] else []
      ensures OnlyHelpers(old(sbOut), sbOut)
    {
      if !cfg.cacheSim { return; }
      var c := if write then Log0Ir1Dw(n, ea, szB) else Log0Ir1Dr(n, ea, szB);
      GuardedOps(LastOf(prims), c, n, ea, szB, guard, write);
      hide SoundOut, Trace, Origs, Meaning, Queued, EventOps, OnlyHelpers, PrimOps, OutOps, Inv;
      FlushEvents();
      HelpersSnoc(old(sbOut), sbOut, Helper(c, Some(guard)));
      Emit(c, guard, PGuarded(n, ea, szB, guard, write));
      hide Valid;
      FlushedValid();
    }

    /** With an empty queue, and no load requested last. */
    lemma {:induction false} FlushedValid()
      requires Inv() && eventsUsed == 0 && (LastOf(prims).Some? ==> !LastOf(prims).value.PDr?)
      ensures Valid()
    {}

    method Emit(c: Call, guard: Atom, ghost p: Prim)
      requires Inv() && eventsUsed == 0 && (c.Log0Ir1Dr? || c.Log0Ir1Dw?)
      requires PrimOps(LastOf(prims), p) == OutOps(Helper(c, Some(guard)))
      modifies this`sbOut, this`prims
      ensures Inv() && eventsUsed == 0 && sbOut == old(sbOut) + [Helper(c, Some(guard))] && prims == old(prims) + [p]
    {
      hide SoundOut, Trace, Meaning, Queued, EventOps, OutOps, PrimOps;
      var o := Helper(c, Some(guard));
      TraceSnoc(sbOut, o);
      MeaningSnoc(prims, p);
      EventOpsNone(events[..eventsUsed]);
      SoundGuarded(cfg, sbOut, o);
      sbOut := sbOut + [o];
      prims := prims + [p];
    }

    method AddEventBc(n: InstrInfo, ea: Atom)
      requires Valid() && Current(n)
      modifies this`eventsUsed, this`sbOut, this`prims, events
      ensures Valid() && Current(n) && prims == old(prims) + if cfg.branchSim then [PBc(n, ea)] else []
      ensures OnlyHelpers(old(sbOut), sbOut)
    {
      if !cfg.branchSim { return; }
      Enqueue(Event(Bc, n, 0, ea), PBc(n, ea));
    }

    method AddEventBi(n: InstrInfo, ea: Atom)
      requires Valid() && Current(n)
      modifies this`eventsUsed, this`sbOut, this`prims, events
      ensures Valid() && Current(n) && prims == old(prims) + if cfg.branchSim then [PBi(n, ea)] else []
      ensures OnlyHelpers(old(sbOut), sbOut)
    {
      if !cfg.branchSim { return; }
      Enqueue(Event(Bi, n, 0, ea), PBi(n, ea));
    }

    /** A flush that the block asks for. */
    method Flush()
      requires Valid()
      modifies this`eventsUsed, this`sbOut, this`prims
      ensures Valid() && eventsUsed == 0 && prims == old(prims) + [PFlush]
      ensures OnlyHelpers(old(sbOut), sbOut) && Trace(sbOut) == Meaning(prims)
    {
      hide OpOf, SoundOut, Trace, Origs, Meaning, Queued, EventOps, OnlyHelpers;
      FlushEvents();
      MeaningSnoc(prims, PFlush);
      EventOpsNone(events[..eventsUsed]);
      prims := prims + [PFlush];
    }
  
    /** The instruction at hand after a statement, with all the statement's requests made. */
    method Statement(st: Stmt, curr: InstrInfo) returns (n: InstrInfo)
      requires Valid() && (st.IMark? || Current(curr))
      modifies this`eventsUsed, this`sbOut, this`prims, events
      ensures Valid() && Current(n) && n == (if st.IMark? then st.n else curr)
      ensures prims == old(prims) + Prims(cfg, st, n)
      ensures OnlyHelpers(old(sbOut), sbOut) && (st.Exit? ==> Trace(sbOut) == Meaning(prims))
    {
      hide OnlyHelpers, Trace, Meaning, Queued, SoundOut, EventOps, LastOf, Inv, Clip;
      HelpersSelf(sbOut);
      n := curr;
      match st
      case IMark(m) => n := m; AddEventIr(m);
      case Load(ea, szB) => AddEventDr(n, szB, ea);
      case Store(ea, szB) => AddEventDw(n, szB, ea);
      case LoadG(ea, szB, g) => AddEventDGuarded(n, szB, ea, g, false);
      case StoreG(ea, szB, g) => AddEventDGuarded(n, szB, ea, g, true);
      case Dirty(ea, szB, r, w) => ReadWrite(n, Clip(cfg, szB), ea, r, w);
      case CAS(ea, szB) => ReadWrite(n, Clip(cfg, szB), ea, true, true);
      case LoadLinked(ea, szB) =>
        AddEventDr(n, szB, ea);
        ghost var mid := sbOut;
        Flush();
        HelpersTrans(old(sbOut), mid, sbOut);
      case StoreConditional(ea, szB) => AddEventDw(n, szB, ea);
      case Exit(b) =>
        if b.Some? { AddEventBc(n, b.value); }
        ghost var mid := sbOut;
        Flush();
        HelpersTrans(old(sbOut), mid, sbOut);
      case Other =>
    }

    method ReadWrite(n: InstrInfo, szB: nat, ea: Atom, r: bool, w: bool)
      requires Valid() && Current(n)
      modifies this`eventsUsed, this`sbOut, this`prims, events
      ensures Valid() && Current(n) && OnlyHelpers(old(sbOut), sbOut)
      ensures prims == old(prims) + (if cfg.cacheSim && r then [PDr(n, ea, szB)] else [])
                                  + (if cfg.cacheSim && w then [PDw(n, ea, szB)] else [])
    {
      hide OnlyHelpers, Trace, Meaning;
      HelpersSelf(sbOut);
      if r { AddEventDr(n, szB, ea); }
      ghost var mid := sbOut;
      HelpersSelf(sbOut);
      if w { AddEventDw(n, szB, ea); }
      HelpersTrans(old(sbOut), mid, sbOut);
    }

    /** Copies an original statement to the output. */
    method CopyOriginal(st: Stmt)
      requires Valid()
      modifies this`sbOut
      ensures Valid() && sbOut == old(sbOut) + [Orig(st)] && Origs(sbOut) == Origs(old(sbOut)) + [st]
    {
      hide Queued, EventOps, Meaning;
      TraceSnoc(sbOut, Orig(st));
      OrigsSnoc(sbOut, Orig(st));
      sbOut := sbOut + [Orig(st)];
    }
  }

  lemma {:induction false} HelpersSelf(out: seq<Out>)
    ensures OnlyHelpers(out, out)
  {}

  lemma {:induction false} HelpersTrans(a: seq<Out>, b: seq<Out>, c: seq<Out>)
    requires OnlyHelpers(a, b) && OnlyHelpers(b, c)
    ensures OnlyHelpers(a, c)
  {
    forall j | |a| <= j < |c| ensures c[j].Helper? {
      if j < |b| { assert c[j] == b[j]; }
    }
  }

  lemma {:induction false} CoveredHelpers(cfg: Config, out: seq<Out>, out': seq<Out>)
    requires ExitsCovered(cfg, out) && OnlyHelpers(out, out')
    ensures ExitsCovered(cfg, out')
  {
    forall j | 0 <= j < |out'| && out'[j].Orig? && out'[j].st.Exit?
      ensures var ss := Origs(out'[..j]) + [out'[j].st]; ss[0].IMark? && Trace(out'[..j]) == Meaning(AllPrims(cfg, ss))
    {
      assert j < |out| && out'[..j] == out[..j] && out'[j] == out[j];
    }
  }

  lemma {:induction false} CoveredOriginal(cfg: Config, out: seq<Out>, st: Stmt)
    requires ExitsCovered(cfg, out)
    requires var ss := Origs(out) + [st]; st.Exit? ==> ss[0].IMark? && Trace(out) == Meaning(AllPrims(cfg, ss))
    ensures ExitsCovered(cfg, out + [Orig(st)])
  {
    var out' := out + [Orig(st)];
    forall j | 0 <= j < |out'| && out'[j].Orig? && out'[j].st.Exit?
      ensures var ss := Origs(out'[..j]) + [out'[j].st]; ss[0].IMark? && Trace(out'[..j]) == Meaning(AllPrims(cfg, ss))
    {
      if j < |out| { assert out'[..j] == out[..j] && out'[j] == out[j]; } else { assert out'[..j] == out; }
    }
  }

  lemma {:induction false} AllPrimsSnoc(cfg: Config, ss: seq<Stmt>, st: Stmt)
    requires (ss + [st])[0].IMark?
    ensures AllPrims(cfg, ss + [st]) == AllPrims(cfg, ss) + Prims(cfg, st, CurrOf(ss + [st]))
    ensures CurrOf(ss + [st]) == if st.IMark? then st.n else CurrOf(ss)
  {
    assert (ss + [st])[..|ss|] == ss;
  }

  /** The requests of a whole block: its statements, an indirect jump at its end, and the last flush. */
  function BlockPrims(cfg: Config, ss: seq<Stmt>, next: Option<Atom>): seq<Prim>
    requires ss != [] && ss[0].IMark?
  {
    AllPrims(cfg, ss) + (if next.Some? && cfg.branchSim then [PBi(CurrOf(ss), next.value)] else []) + [PFlush]
  }

  /** cg_instrument, from the first instruction mark on. The output keeps the original statements in
      order, stands for exactly the operations of the block, and at every exit for exactly those of
      the statements up to the exit. */
  method CgInstrument(cfg: Config, ss: seq<Stmt>, next: Option<Atom>) returns (out: seq<Out>)
    requires cfg.lineI > 0 && ss != [] && ss[0].IMark?
    ensures SoundOut(cfg, out) && Origs(out) == ss && ExitsCovered(cfg, out)
    ensures Trace(out) == Meaning(BlockPrims(cfg, ss, next))
  {
    hide Trace, Meaning, OnlyHelpers, ExitsCovered, Origs, SoundOut, AllPrims, CurrOf, Prims;
    var cgs := new CgState(cfg);
    var n := ss[0].n;
    NothingCovered(cfg);
    var i := 0;
    while i < |ss|
      invariant i <= |ss| && cgs.Valid() && cgs.cfg == cfg && fresh(cgs) && fresh(cgs.events)
      invariant i > 0 ==> cgs.Current(n) && n == CurrOf(ss[..i])
      invariant cgs.prims == AllPrims(cfg, ss[..i])
      invariant Origs(cgs.sbOut) == ss[..i] && ExitsCovered(cfg, cgs.sbOut)
    {
      ghost var before := cgs.sbOut;
      assert ss[..i + 1] == ss[..i] + [ss[i]];
      AllPrimsSnoc(cfg, ss[..i], ss[i]);
      n := cgs.Statement(ss[i], n);
      CoveredHelpers(cfg, before, cgs.sbOut);
      HelpersKeepOrigs(before, cgs.sbOut);
      CoveredOriginal(cfg, cgs.sbOut, ss[i]);
      cgs.CopyOriginal(ss[i]);
      i := i + 1;
    }
    assert ss[..|ss|] == ss;
    ghost var body := cgs.sbOut;
    HelpersSelf(body);
    if next.Some? { cgs.AddEventBi(n, next.value); }
    ghost var mid := cgs.sbOut;
    cgs.Flush();
    HelpersTrans(body, mid, cgs.sbOut);
    CoveredHelpers(cfg, body, cgs.sbOut);
    HelpersKeepOrigs(body, cgs.sbOut);
    assert AllPrims(cfg, ss) + [] == AllPrims(cfg, ss);
    assert cgs.prims == BlockPrims(cfg, ss, next);
    out := cgs.sbOut;
  }

  lemma {:induction false} NothingCovered(cfg: Config)
    ensures ExitsCovered(cfg, []) && Origs([]) == [] && AllPrims(cfg, []) == []
  {}

  lemma {:induction false} HelpersKeepOrigs(a: seq<Out>, b: seq<Out>)
    requires OnlyHelpers(a, b)
    ensures Origs(b) == Origs(a)
  {}

  /** The end-to-end claim: on every machine state, the instrumented block leaves the caches, the
      counters and the predictor inputs as simulating the block's requests one at a time would,
      at the end of the block and at every exit from it. */
  lemma {:induction false} InstrumentedBlockSimulates(cfg: Config, env: Atom -> nat, s: Sim, ss: seq<Stmt>,
                                                      next: Option<Atom>, out: seq<Out>)
    requires Ready(cfg, s) && ss != [] && ss[0].IMark?
    requires SoundOut(cfg, out) && ExitsCovered(cfg, out) && Trace(out) == Meaning(BlockPrims(cfg, ss, next))
    ensures RunOut(cfg, env, s, out) == RunOps(cfg, env, s, Meaning(BlockPrims(cfg, ss, next)))
    ensures forall j :: 0 <= j < |out| && out[j].Orig? && out[j].st.Exit? ==>
      var upTo := Origs(out[..j]) + [out[j].st];
      upTo[0].IMark? && RunOut(cfg, env, s, out[..j]) == RunOps(cfg, env, s, Meaning(AllPrims(cfg, upTo)))
  {
    hide RunOut, RunOps, Trace, Meaning, Origs;
    OutRunsItsTrace(cfg, env, s, out);
    forall j | 0 <= j < |out| && out[j].Orig? && out[j].st.Exit?
      ensures var upTo := Origs(out[..j]) + [out[j].st];
        upTo[0].IMark? && RunOut(cfg, env, s, out[..j]) == RunOps(cfg, env, s, Meaning(AllPrims(cfg, upTo)))
    {
      OutRunsItsTrace(cfg, env, s, out[..j]);
    }
  }

  lemma {:induction false} GuardedOps(prev: Option<Prim>, c: Call, n: InstrInfo, ea: Atom, szB: nat, guard: Atom,
                                      write: bool)
    requires c == if write then Log0Ir1Dw(n, ea, szB) else Log0Ir1Dr(n, ea, szB)
    ensures PrimOps(prev, PGuarded(n, ea, szB, guard, write)) == OutOps(Helper(c, Some(guard)))
  {}

  lemma {:induction false} QueuedModify(cfg: Config, evs: seq<Event>, e: Event)
    requires cfg.lineI > 0 && Queued(cfg, evs + [e]) && e.tag == Dr
    ensures Queued(cfg, evs + [e.(tag := Dm)])
  {
    var s, t := evs + [e], evs + [e.(tag := Dm)];
    assert forall i :: 0 <= i < |evs| ==> t[i] == s[i];
    assert IsData(s[|evs|]);
  }

  lemma {:induction false} EventOpsNone(evs: seq<Event>)
    requires evs == []
    ensures EventOps(evs) == []
  {}

  lemma {:induction false} EventOpsSnoc(evs: seq<Event>, e: Event)
    ensures EventOps(evs + [e]) == EventOps(evs) + [OpOf(e)]
  {
    assert (evs + [e])[..|evs|] == evs;
  }

  lemma {:induction false} QueuedSnoc(cfg: Config, evs: seq<Event>, e: Event)
    requires cfg.lineI > 0 && Queued(cfg, evs)
    requires (e.tag == IrNoX ==> NoXInstr(cfg, e.inode)) && (IsData(e) ==> cfg.cacheSim)
    requires IsData(e) && evs != [] && evs[|evs| - 1].tag == IrNoX ==> evs[|evs| - 1].inode == e.inode
    ensures Queued(cfg, evs + [e])
  {}

  lemma {:induction false} SoundGuarded(cfg: Config, out: seq<Out>, o: Out)
    requires cfg.lineI > 0 && SoundOut(cfg, out)
    requires o.Helper? && (o.call.Log0Ir1Dr? || o.call.Log0Ir1Dw?)
    ensures SoundOut(cfg, out + [o])
  {}

  lemma {:induction false} QueuedNone(cfg: Config, evs: seq<Event>)
    requires evs == [] && cfg.lineI > 0
    ensures Queued(cfg, evs)
  {}

  lemma {:induction false} SoundSnoc(cfg: Config, out: seq<Out>, c: Call)
    requires cfg.lineI > 0 && SoundOut(cfg, out) && Sound(cfg, c)
    ensures SoundOut(cfg, out + [Helper(c, None)])
  {}

  /** A read is merged only with data of its own instruction. */
  lemma {:induction false} MergedInode(cfg: Config, evs: seq<Event>)
    requires evs != [] && cfg.lineI > 0 && Queued(cfg, evs)
    ensures var c := Choose(cfg, evs).0;
      c.Log1IrNoX1Dr? || c.Log1IrNoX1Dw? ==> |evs| > 1 && evs[1].inode == evs[0].inode
  {}

  lemma {:induction false} QueuedSuffix(cfg: Config, evs: seq<Event>, i: nat)
    requires cfg.lineI > 0 && i <= |evs| && Queued(cfg, evs)
    ensures Queued(cfg, evs[i..])
  {}

  lemma {:induction false} OrigsSnoc(out: seq<Out>, o: Out)
    ensures Origs(out + [o]) == Origs(out) + if o.Orig? then [o.st] else []
  {
    assert (out + [o])[..|out|] == out;
  }
}
