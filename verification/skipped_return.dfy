/** A run on which an assertion at the start of a basic block fails. The return from a skipped
    function into the first function is taken for a return from nothing: the frame of the call stays,
    but the caller it remembered is forgotten. A jump that first leaves the function then meets it. */
module SkippedReturn {
  import opened Wrappers
  import opened CallState
  import opened CallUnwind
  import opened CallRuns
  import opened BlockSetup

  const FIRST := Fn(1, 0, 0, 1, false, true, false)
  const SKIPPED := Fn(2, 0, 0, 1, true, false, false)

  const CALLER := Block(1000, FIRST, true, 0, 0, [], Exit(Call, 1010))
  const CALLEE := Block(2000, SKIPPED, true, 0, 0, [], Exit(Return, 2010))
  const AFTER := Block(1010, FIRST, false, 0, 0, [], Exit(Jump, 1020))
  const ELSEWHERE := Block(3000, FIRST, false, 0, 1, [], Exit(NoJump, 3010))

  const CXT := Context(FIRST, [])

  function Comes(bb: Block, sp: nat): Arrival { Arrival(bb, sp, 0, Bbcc(CALLER, CXT, 0), []) }

  const START := NewThread(0)

  function InCaller(): Cpu {
    Cpu(START.st.(fns := [FIRST], cxt := Some(CXT), depths := map[FIRST := 1]), Some(Bbcc(CALLER, CXT, 0)))
  }

  lemma {:induction false} FirstContext()
    ensures ContextOf([FIRST]) == CXT
  {
    assert ContextOf([FIRST]).callers == [];
  }

  lemma {:induction false} Starts(skipDirect: bool)
    ensures CpuInv(START) && Admissible(START, Comes(CALLER, 100))
    ensures Step(START, Comes(CALLER, 100), skipDirect) == InCaller()
  {
    var a := Comes(CALLER, 100);
    StartSeen(skipDirect);
    assert a.bb == CALLER && CALLER.fn == FIRST;
    assert InCaller() == Cpu(InCaller().st, Some(Bbcc(CALLER, CXT, 0)));
    InCallerIs();
    hide *;
    var plan, st0, l, st1, c, st2 := StepParts(START, a, skipDirect);
    StartLands(plan, a, skipDirect);
    CentreOfFirst(st1, l, a, plan.src, skipDirect);
  }

  lemma {:induction false} InCallerIs()
    ensures InCaller().st.fns == [FIRST] && InCaller().st.cxt == Some(CXT)
  {}

  lemma {:induction false} StartSeen(skipDirect: bool)
    ensures var a := Comes(CALLER, 100);
      && CpuInv(START) && Admissible(START, a) && Layered(START.st)
      && PlanOf(START, a) == Plan(NoJump, 1, false, None, 0, 100) && Planned(START, a, skipDirect) == START.st
  {
    NewThreadInv(0);
    InvLayered(START.st);
    hide Layered, Inv;
  }

  /** The first block enters its function, and there is no call. */
  lemma {:induction false} StartLands(plan: Plan, a: Arrival, skipDirect: bool)
    requires plan == Plan(NoJump, 1, false, None, 0, 100) && a == Comes(CALLER, 100) && Inv(START.st)
    ensures Land(START.st, plan, a, skipDirect) == Landing(START.st, false, 100)
    ensures Placed(Landing(START.st, false, 100), a) == InCaller().st
  {
    FirstContext();
    hide Inv, ContextOf;
    assert [] + [FIRST] == [FIRST];
  }

  function InCallee(): Cpu {
    Cpu(InCaller().st.(frames := [Frame(None, [], 90, 1010, None, None, 0)], nonskipped := Some(Bbcc(CALLER, CXT, 0))),
        Some(Bbcc(CALLEE, CXT, 0)))
  }

  /** The call is not entered in the function stack. */
  lemma {:induction false} Calls(skipDirect: bool)
    requires CpuInv(InCaller())
    ensures Admissible(InCaller(), Comes(CALLEE, 90)) && Step(InCaller(), Comes(CALLEE, 90), skipDirect) == InCallee()
  {
    var a := Comes(CALLEE, 90);
    CallSeen(skipDirect);
    hide PlanOf, Planned, PopsOnJump, Underflow, PopCall, Layered, ContextOf, PopCount, CallState.PushCxt, Inv, CpuInv,
      Step, Admissible;
    var plan, st0, l, st1, c, st2 := StepParts(InCaller(), a, skipDirect);
    assert l == Landing(InCaller().st, true, 90);
    assert st1 == InCaller().st;
    CentreOfFirst(st1, l, a, plan.src, skipDirect);
    hide Centre, Land, Placed;
    assert InCaller().st.frames + [InCallee().st.frames[0]] == InCallee().st.frames;
  }

  lemma {:induction false} CallSeen(skipDirect: bool)
    requires CpuInv(InCaller())
    ensures var cpu, a := InCaller(), Comes(CALLEE, 90);
      && Admissible(cpu, a) && Layered(cpu.st)
      && PlanOf(cpu, a) == Plan(Call, 1, false, cpu.bbcc, 0, 90) && Planned(cpu, a, skipDirect) == cpu.st
  {
    InvLayered(InCaller().st);
    hide Planned, PlanOf, Layered, Inv;
    NotEmulated(InCaller(), Comes(CALLEE, 90), skipDirect);
  }

  /** Where the return leads: the frame is still there, and no caller is remembered. */
  ghost predicate Stranded(cpu: Cpu) {
    && cpu.bbcc == Some(Bbcc(AFTER, CXT, 0))
    && cpu.st.frames == InCallee().st.frames && cpu.st.nonskipped == None && cpu.st.cxt == Some(CXT)
    && cpu.st.fns == [FIRST]
  }

  lemma {:induction false} Returns(skipDirect: bool)
    requires CpuInv(InCallee())
    ensures Admissible(InCallee(), Comes(AFTER, 100)) && Stranded(Step(InCallee(), Comes(AFTER, 100), skipDirect))
  {
    var a := Comes(AFTER, 100);
    ReturnSeen(skipDirect);
    assert a.bb == AFTER;
    hide *;
    var plan, st0, l, st1, c, st2 := StepParts(InCallee(), a, skipDirect);
    ReturnLands(plan, a, skipDirect);
    CentreOfFirst(st1, l, a, plan.src, skipDirect);
    IsStranded(Step(InCallee(), a, skipDirect));
  }

  lemma {:induction false} IsStranded(cpu: Cpu)
    requires cpu.bbcc == Some(Bbcc(AFTER, CXT, 0)) && cpu.st.cxt == Some(CXT) && cpu.st.fns == [FIRST]
    requires cpu.st.frames == InCallee().st.frames && cpu.st.nonskipped == None
    ensures Stranded(cpu)
  {}

  /** The first function does not tell its recursions apart. */
  lemma {:induction false} CentreOfFirst(st: State, l: Landing, a: Arrival, src: Option<Bbcc>, skipDirect: bool)
    requires st.fns == [FIRST] && st.cxt == Some(CXT) && (l.calls ==> src.Some?)
    ensures Centre(st, l, a, src, skipDirect) == (Bbcc(a.bb, CXT, 0), st)
  {}

  lemma {:induction false} ReturnSeen(skipDirect: bool)
    requires CpuInv(InCallee())
    ensures var cpu, a := InCallee(), Comes(AFTER, 100);
      && Admissible(cpu, a) && Layered(cpu.st)
      && PlanOf(cpu, a) == Plan(Return, 1, false, cpu.bbcc, 0, 100) && PlanOf(cpu, a).kind == Return
      && Planned(cpu, a, skipDirect) == cpu.st
  {
    InvLayered(InCallee().st);
    hide Planned, PlanOf, Layered, Inv;
    NotEmulated(InCallee(), Comes(AFTER, 100), skipDirect);
  }

  lemma {:induction false} ReturnLands(plan: Plan, a: Arrival, skipDirect: bool)
    requires plan.kind == Return && plan.src == InCallee().bbcc && a == Comes(AFTER, 100) && Inv(InCallee().st)
    ensures var l := Land(InCallee().st, plan, a, skipDirect);
      && !l.calls && l.st.cxt.Some?
      && (Inv(l.st) ==>
           var s := Placed(l, a);
           s.frames == InCallee().st.frames && s.nonskipped == None && s.cxt == Some(CXT) && s.fns == [FIRST])
  {
    hide Underflow, PopCall, Poppable, ContextOf, Inv, CallState.PushCxt;
    FirstContext();
    UnderflowResult(InCallee().st, plan.src.value, FIRST, a.unseen, a.lastDump, skipDirect);
  }

  /** At the jump out of the first function the assertion that a skipped caller is remembered fails. */
  lemma {:induction false} AssertionCanFail(skipDirect: bool)
    ensures CpuInv(START)
    ensures var way := [Comes(CALLER, 100), Comes(CALLEE, 90), Comes(AFTER, 100)];
      && Runs(START, way, skipDirect)
      && var cpu := RunBlocks(START, way, skipDirect); var a := Comes(ELSEWHERE, 100);
      Admissible(cpu, a) && !Asserted(cpu, a)
  {
    Starts(skipDirect);
    Calls(skipDirect);
    Returns(skipDirect);
    hide Step, CpuInv, Admissible, Asserted, PlanOf, InCaller, InCallee, Runs, RunBlocks, Stranded, Comes;
    var last := Step(InCallee(), Comes(AFTER, 100), skipDirect);
    RunsThree(START, InCaller(), InCallee(), last, Comes(CALLER, 100), Comes(CALLEE, 90), Comes(AFTER, 100),
      skipDirect);
    StrandedFails(last);
  }

  lemma {:induction false} RunsThree(c0: Cpu, c1: Cpu, c2: Cpu, c3: Cpu, a1: Arrival, a2: Arrival, a3: Arrival,
                                     skipDirect: bool)
    requires CpuInv(c0) && Admissible(c0, a1) && Step(c0, a1, skipDirect) == c1
    requires CpuInv(c1) && Admissible(c1, a2) && Step(c1, a2, skipDirect) == c2
    requires CpuInv(c2) && Admissible(c2, a3) && Step(c2, a3, skipDirect) == c3
    ensures Runs(c0, [a1, a2, a3], skipDirect) && RunBlocks(c0, [a1, a2, a3], skipDirect) == c3
  {
    hide Step, CpuInv, Admissible, Runs, RunBlocks;
    var way := [a1, a2, a3];
    RunsOne(c0, way, skipDirect);
    assert way[1..] == [a2, a3] && way[1..][1..] == [a3] && way[1..][1..][1..] == [];
    RunsOne(c1, way[1..], skipDirect);
    RunsOne(c2, way[1..][1..], skipDirect);
    RunsNone(c3, skipDirect);
  }

  lemma {:induction false} RunsOne(cpu: Cpu, arrivals: seq<Arrival>, skipDirect: bool)
    requires CpuInv(cpu) && arrivals != [] && Admissible(cpu, arrivals[0])
    ensures Runs(cpu, arrivals, skipDirect) <==> Runs(Step(cpu, arrivals[0], skipDirect), arrivals[1..], skipDirect)
    ensures Runs(cpu, arrivals, skipDirect) ==>
      RunBlocks(cpu, arrivals, skipDirect) == RunBlocks(Step(cpu, arrivals[0], skipDirect), arrivals[1..], skipDirect)
  {
    hide Step, CpuInv, Admissible;
  }

  lemma {:induction false} RunsNone(cpu: Cpu, skipDirect: bool)
    requires CpuInv(cpu)
    ensures Runs(cpu, [], skipDirect) && RunBlocks(cpu, [], skipDirect) == cpu
  {}

  lemma {:induction false} StrandedFails(cpu: Cpu)
    requires Stranded(cpu)
    ensures var a := Comes(ELSEWHERE, 100); Admissible(cpu, a) && !Asserted(cpu, a)
  {}
}
