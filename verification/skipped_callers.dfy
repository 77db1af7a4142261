/** Who called into a skipped function: when a thread still knows it, and so exactly when the assertion
    about it at the start of a basic block holds. */
module SkippedCallers {
  import opened Wrappers
  import opened CallState
  import opened CallUnwind
  import opened CallRuns
  import opened BlockSetup

  /** The caller that is remembered while frame `i` is the top one. */
  function CallerAt(st: State, i: nat): Option<Bbcc>
    requires i < |st.frames|
  {
    if i + 1 < |st.frames| then st.frames[i + 1].nonskipped else st.nonskipped
  }

  /** For every call into a skipped function its caller is known. */
  ghost predicate Remembered(st: State) {
    forall i :: 0 <= i < |st.frames| && st.frames[i].jcc == None ==> CallerAt(st, i).Some?
  }

  /** The one way to forget a caller: a return that is taken for one from an unknown call, while the
      top frame is a call into a skipped function. */
  predicate Forgets(cpu: Cpu, a: Arrival)
    requires HasExit(cpu, a)
  {
    && PlanOf(cpu, a).kind == Return && |cpu.st.fns| == 1
    && cpu.st.frames != [] && cpu.st.frames[|cpu.st.frames| - 1].jcc == None
  }

  lemma {:induction false} PopRemembers(st: State, skipDirect: bool)
    requires Poppable(st) && Remembered(st)
    ensures Remembered(PopCall(st, skipDirect))
  {
    PopLeaves(st, skipDirect);
    hide PopCall;
    var u := PopCall(st, skipDirect);
    forall i | 0 <= i < |u.frames| && u.frames[i].jcc == None ensures CallerAt(u, i).Some? {
      assert CallerAt(u, i) == CallerAt(st, i);
    }
  }

  lemma {:induction false} UnwindRemembers(st: State, sp: nat, minpops: int, skipDirect: bool)
    requires Layered(st) && Remembered(st)
    ensures Remembered(Unwind(st, sp, minpops, skipDirect))
    decreases |st.frames|
  {
    hide Layered, PopCall, Unwind, Remembered;
    UnwindUnfold(st, sp, minpops, skipDirect);
    if Leaves(st, sp, minpops) {
      PopRemembers(st, skipDirect);
      UnwindRemembers(PopCall(st, skipDirect), sp, minpops - 1, skipDirect);
    }
  }

  lemma {:induction false} PushRemembers(st: State, src: Bbcc, jmp: nat, dst: Bbcc, sp: nat, skip: bool,
                                         skipDirect: bool)
    requires Pushable(st, src, jmp, skip)
    ensures Remembered(PushCall(st, src, jmp, dst, sp, skip, skipDirect)) <==> Remembered(st)
  {
    var r, n := PushCall(st, src, jmp, dst, sp, skip, skipDirect), |st.frames|;
    assert r.frames == st.frames + [r.frames[n]] && r.frames[n].nonskipped == st.nonskipped;
    assert r.frames[n].jcc == None ==> r.nonskipped.Some?;
    hide PushCall;
    forall i | 0 <= i < n ensures CallerAt(r, i) == CallerAt(st, i) && r.frames[i] == st.frames[i] {}
  }

  /** Only the top frame depends on what the state itself remembers. */
  lemma {:induction false} ForgottenTop(st: State, r: State)
    requires Remembered(st) && r.frames == st.frames && r.nonskipped == None
    ensures Remembered(r) <==> st.frames == [] || st.frames[|st.frames| - 1].jcc.Some?
  {
    var n := |st.frames|;
    forall i | 0 <= i < n - 1 ensures CallerAt(r, i) == CallerAt(st, i) {}
    if n > 0 { assert CallerAt(r, n - 1) == None; }
  }

  lemma {:induction false} LandRemembers(st: State, plan: Plan, a: Arrival, skipDirect: bool)
    requires Inv(st) && (plan.kind == Return ==> plan.src.Some? && st.cxt.Some?)
    requires plan.kind == Return && Underflows(st) ==> a.bb.fn.group == 0
    requires Remembered(st)
    ensures Remembered(Land(st, plan, a, skipDirect).st) <==>
      !(plan.kind == Return && Underflows(st) && st.frames != [] && st.frames[|st.frames| - 1].jcc == None)
  {
    InvLayered(st);
    hide Inv, Underflow, Unwind, PopCall, Poppable, Layered, Underflows, Remembered;
    if plan.kind == Return && Underflows(st) {
      OneFunction(st);
      UnderflowResult(st, plan.src.value, a.bb.fn, a.unseen, a.lastDump, skipDirect);
      ForgottenTop(st, Land(st, plan, a, skipDirect).st);
    } else {
      UnwindRemembers(st, plan.sp, if plan.kind == Return then plan.pops else 0, skipDirect);
    }
  }

  lemma {:induction false} PlannedRemembers(cpu: Cpu, a: Arrival, skipDirect: bool)
    requires Layered(cpu.st) && HasExit(cpu, a)
    requires Remembered(cpu.st)
    ensures Remembered(Planned(cpu, a, skipDirect))
    ensures PlanOf(cpu, a).kind == Return ==> Planned(cpu, a, skipDirect) == cpu.st
  {
    hide PopCall, Remembered, PopCount;
    if PopsOnJump(cpu, a) && cpu.st.frames[|cpu.st.frames| - 1].jcc.Some? {
      PopLayered(cpu.st, skipDirect);
      hide Layered, Poppable;
      PopRemembers(cpu.st, skipDirect);
    }
  }

  lemma {:induction false} SameCallers(st: State, r: State)
    requires r.frames == st.frames && r.nonskipped == st.nonskipped
    ensures Remembered(r) <==> Remembered(st)
  {
    forall i | 0 <= i < |st.frames| ensures CallerAt(r, i) == CallerAt(st, i) {}
  }

  /** The context and the cost centre of a block leave the frames and the skipped caller alone. */
  lemma {:induction false} PlacedKeeps(l: Landing, a: Arrival, src: Option<Bbcc>, skipDirect: bool)
    requires Inv(l.st) && (l.st.cxt == None ==> a.bb.fn.group == 0)
    requires var s := Placed(l, a); s.fns != [] && s.cxt.Some? && (l.calls ==> src.Some?)
    ensures var s := Centre(Placed(l, a), l, a, src, skipDirect).1;
      s.frames == l.st.frames && s.nonskipped == l.st.nonskipped
  {
    hide Layered, Descending, ArcsInBounds, Base, ContextOf, Level;
  }

  /** A step from a state in which all callers of skipped functions are remembered leads to such a
      state exactly if it does not forget one. */
  lemma {:induction false} StepRemembers(cpu: Cpu, a: Arrival, skipDirect: bool)
    requires CpuInv(cpu) && Admissible(cpu, a) && Remembered(cpu.st)
    ensures Remembered(Step(cpu, a, skipDirect).st) <==> !Forgets(cpu, a)
  {
    hide Remembered, Inv, Layered, Land, Planned, PlanOf, Placed, Centre, PushCall, Pushable, Step;
    var plan, st0, l, st1, c, st2 := StepParts(cpu, a, skipDirect);
    PlannedRemembers(cpu, a, skipDirect);
    LandRemembers(st0, plan, a, skipDirect);
    PlacedKeeps(l, a, plan.src, skipDirect);
    SameCallers(l.st, st2);
    if l.calls {
      var from := Caller(st2, plan, a.bb.fn.skip);
      PushRemembers(st2, from.0, from.1, c, l.sp, a.bb.fn.skip, skipDirect);
    }
  }

  /** Then the assertion holds, wherever the thread goes. */
  lemma {:induction false} RememberedAsserts(cpu: Cpu, a: Arrival)
    requires Remembered(cpu.st) && HasExit(cpu, a)
    ensures Asserted(cpu, a)
  {
    hide Emulated;
    if cpu.st.frames != [] { assert CallerAt(cpu.st, |cpu.st.frames| - 1) == cpu.st.nonskipped; }
  }

  // ----- whole runs

  /** At every block boundary of a run all callers of skipped functions are remembered. */
  ghost predicate AlwaysRemembered(cpu: Cpu, arrivals: seq<Arrival>, skipDirect: bool)
    requires CpuInv(cpu) && Runs(cpu, arrivals, skipDirect)
    decreases |arrivals|
  {
    && Remembered(cpu.st)
    && (arrivals != [] ==> AlwaysRemembered(Step(cpu, arrivals[0], skipDirect), arrivals[1..], skipDirect))
  }

  ghost predicate NeverForgets(cpu: Cpu, arrivals: seq<Arrival>, skipDirect: bool)
    requires CpuInv(cpu) && Runs(cpu, arrivals, skipDirect)
    decreases |arrivals|
  {
    arrivals != [] ==>
      !Forgets(cpu, arrivals[0]) && NeverForgets(Step(cpu, arrivals[0], skipDirect), arrivals[1..], skipDirect)
  }

  /** No step of a run fails the assertion. */
  ghost predicate AllAsserted(cpu: Cpu, arrivals: seq<Arrival>, skipDirect: bool)
    requires CpuInv(cpu) && Runs(cpu, arrivals, skipDirect)
    decreases |arrivals|
  {
    arrivals != [] ==>
      Asserted(cpu, arrivals[0]) && AllAsserted(Step(cpu, arrivals[0], skipDirect), arrivals[1..], skipDirect)
  }

  /** Over every run from such a state, for one from the start of a thread: the callers are remembered
      throughout exactly if no return forgets one, and then the assertion never fails. */
  lemma {:induction false} RunRemembers(cpu: Cpu, arrivals: seq<Arrival>, skipDirect: bool)
    requires CpuInv(cpu) && Runs(cpu, arrivals, skipDirect) && Remembered(cpu.st)
    ensures AlwaysRemembered(cpu, arrivals, skipDirect) <==> NeverForgets(cpu, arrivals, skipDirect)
    ensures NeverForgets(cpu, arrivals, skipDirect) ==> AllAsserted(cpu, arrivals, skipDirect)
    decreases |arrivals|
  {
    hide CpuInv, Remembered, Step, Forgets, Asserted;
    if arrivals != [] {
      StepRemembers(cpu, arrivals[0], skipDirect);
      RememberedAsserts(cpu, arrivals[0]);
      if !Forgets(cpu, arrivals[0]) { RunRemembers(Step(cpu, arrivals[0], skipDirect), arrivals[1..], skipDirect); }
    }
  }

  lemma {:induction false} NewThreadRemembers(events: nat)
    ensures CpuInv(NewThread(events)) && Remembered(NewThread(events).st)
  {
    NewThreadInv(events);
  }

  // ----- from which states the assertion can fail

  /** An address to which no frame returns. */
  function FreshAddress(frames: seq<Frame>): (addr: nat)
    ensures forall i :: 0 <= i < |frames| ==> frames[i].retAddr < addr
  {
    if frames == [] then 0
    else
      var n := |frames| - 1;
      var a := FreshAddress(frames[..n]);
      assert forall i :: 0 <= i < n ==> frames[i] == frames[..n][i];
      if a <= frames[n].retAddr then frames[n].retAddr + 1 else a
  }

  lemma {:induction false} NothingMatches(frames: seq<Frame>, i: nat, sp: nat, addr: nat, count: nat)
    requires i < |frames| && forall k :: 0 <= k < |frames| ==> frames[k].retAddr < addr
    ensures Matching(frames, i, sp, addr, count) == 0
  {
    if i > 0 && frames[i - 1].sp == sp { NothingMatches(frames, i - 1, sp, addr, count + 1); }
  }

  /** A block that is reached by exit `passed` as if it were called. */
  function CalledBlock(cpu: Cpu, passed: nat): Arrival
    requires cpu.st.frames != [] && cpu.bbcc.Some?
  {
    var b, top := cpu.bbcc.value, cpu.st.frames[|cpu.st.frames| - 1];
    Arrival(b.block.(addr := FreshAddress(cpu.st.frames), isEntry := true), top.sp, passed, b, [])
  }

  /** The assertion can fail next if and only if the caller of the skipped function on top is not
      remembered, the current function is left on jumps, and its block has an exit that is no call. */
  lemma {:induction false} AssertionFailsIff(cpu: Cpu)
    requires CpuInv(cpu)
    ensures (exists a: Arrival :: Admissible(cpu, a) && !Asserted(cpu, a)) <==>
      && cpu.bbcc.Some? && cpu.bbcc.value.block.fn.popOnJump
      && cpu.st.frames != [] && cpu.st.frames[|cpu.st.frames| - 1].jcc == None && cpu.st.nonskipped == None
      && exists x: nat :: x <= |cpu.bbcc.value.block.cjmps| && cpu.bbcc.value.block.ExitAt(x).kind != Call
  {
    hide Inv, FreshAddress;
    if cpu.bbcc.Some? && cpu.st.frames != [] {
      var b := cpu.bbcc.value.block;
      forall x: nat | x <= |b.cjmps| && b.ExitAt(x).kind != Call ensures Emulated(cpu, CalledBlock(cpu, x)) {
        var a := CalledBlock(cpu, x);
        NothingMatches(cpu.st.frames, |cpu.st.frames| - 1, a.sp, a.bb.addr, 1);
      }
      if x: nat :| x <= |b.cjmps| && b.ExitAt(x).kind != Call {
        var a := CalledBlock(cpu, x);
        assert Emulated(cpu, a) && Admissible(cpu, a);
      }
      forall a: Arrival | Admissible(cpu, a) && !Asserted(cpu, a) ensures b.ExitAt(a.passed).kind != Call {}
    }
  }
}
