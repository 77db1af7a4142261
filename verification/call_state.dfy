/** The shadow call stack as a state machine: what each operation of the call stack and of the
    context stack does to the state of a thread. */
module CallState {
  import opened Wrappers
  import opened Costs

  /** A function, with the options that were given for it. `callers` is how many callers a context
      keeps beside it; functions of the same positive `group` are not told apart. */
  datatype Fn = Fn(number: nat, group: nat, callers: nat, recursions: nat, skip: bool, popOnJump: bool,
    toggleCollect: bool)

  datatype JmpKind = NoJump | Jump | Call | Return

  /** How control can leave a basic block; `next` is the address after the instruction. */
  datatype Exit = Exit(kind: JmpKind, next: nat)

  /** A basic block leaves by one of its conditional jumps `cjmps`, or by `final`. */
  datatype Block = Block(addr: nat, fn: Fn, isEntry: bool, sect: nat, obj: nat, cjmps: seq<Exit>, final: Exit) {
    function ExitAt(jmp: nat): Exit
      requires jmp <= |cjmps|
    {
      if jmp < |cjmps| then cjmps[jmp] else final
    }
  }

  /** A function and the nearest of the callers below it. */
  datatype Context = Context(fn: Fn, callers: seq<Fn>)

  /** A cost centre is known by its block, its context and its recursion level. */
  datatype Bbcc = Bbcc(block: Block, cxt: Context, rec: nat)

  /** A call arc; `jmp` is the exit it leaves by. */
  datatype Jcc = Jcc(src: Bbcc, jmp: nat, dst: Bbcc)

  /** A frame of the shadow stack. A call into a skipped function has no arc, and saves no context. */
  datatype Frame = Frame(jcc: Option<Jcc>, enterCost: Cost, sp: nat, retAddr: nat, nonskipped: Option<Bbcc>,
    cxt: Option<Context>, fnSp: nat)

  /** `fns` is the function stack without the marker at its bottom; `saved` is what `PushCxt` leaves
      in the first unused entry of the call stack. */
  datatype State = State(
    frames: seq<Frame>, saved: Option<(Context, nat)>, fns: seq<Fn>, cxt: Option<Context>,
    nonskipped: Option<Bbcc>, depths: map<Fn, int>, collect: bool, cost: Cost, books: Books)

  /** The inclusive costs that arcs have collected since the last dump, what dumps have written for
      them, and how often calls have returned to a cost centre with some cost. */
  datatype Books = Books(sums: map<Jcc, Cost>, written: map<Jcc, Cost>, rets: map<Bbcc, nat>)

  function Depth(st: State, f: Fn): int { if f in st.depths then st.depths[f] else 0 }

  function Deeper(st: State, f: Fn, d: int): State { st.(depths := st.depths[f := Depth(st, f) + d]) }

  function Sum(m: map<Jcc, Cost>, j: Jcc): Cost { if j in m then m[j] else [] }

  function Rets(k: Books, b: Bbcc): nat { if b in k.rets then k.rets[b] else 0 }

  /** The context of a function stack: as many functions as its top wants. */
  function ContextOf(fns: seq<Fn>): (c: Context)
    requires fns != []
    ensures c.fn == fns[|fns| - 1]
  {
    var n := |fns| - 1;
    var k := if fns[n].callers < n then fns[n].callers else n;
    Context(fns[n], seq(k, i requires 0 <= i < k => fns[n - 1 - i]))
  }

  // ----- the operations

  /** Nothing is asked of the top of an empty function stack. */
  predicate GroupFits(st: State, f: Fn) { f.group > 0 ==> st.fns != [] }

  /** Entering `f` from the current context. A function of a group must not be the first one: the
      source looks up the group of the function at the top. */
  function PushCxt(st: State, f: Fn): (r: State)
    requires st.saved == None && GroupFits(st, f)
  {
    var s := st.(saved := if st.cxt == None then None else Some((st.cxt.value, |st.fns|)));
    if st.fns != [] && (st.fns[|st.fns| - 1] == f || (f.group > 0 && st.fns[|st.fns| - 1].group == f.group)) then s
    else
      var t := if st.fns == [] then Deeper(s, f, 1) else s;
      t.(fns := st.fns + [f], cxt := Some(ContextOf(st.fns + [f])))
  }

  /** Whether a call changes the number of active activations of its target. */
  predicate Counts(src: Bbcc, dst: Bbcc, skipDirect: bool) {
    !skipDirect || src.cxt.fn != dst.cxt.fn
  }

  function ReturnAddress(src: Bbcc, jmp: nat): nat
    requires jmp <= |src.block.cjmps|
  {
    var x := src.block.ExitAt(jmp);
    if x.kind == Call then x.next else 0
  }

  /** What the assertions of `PushCall` ask for. */
  predicate Pushable(st: State, src: Bbcc, jmp: nat, skip: bool) {
    && jmp <= |src.block.cjmps|
    && (!skip ==> st.saved.Some? && (st.nonskipped.Some? ==> st.nonskipped.value == src))
  }

  /** The collection state is toggled when the first activation of a function starts. */
  function Entered(st: State, f: Fn): State {
    if Depth(st, f) == 1 && f.toggleCollect then st.(collect := !st.collect) else st
  }

  /** And when the last one ends. */
  function Left(st: State, f: Fn): State {
    if Depth(st, f) == 0 && f.toggleCollect then st.(collect := !st.collect) else st
  }

  function PushCall(st: State, src: Bbcc, jmp: nat, dst: Bbcc, sp: nat, skip: bool, skipDirect: bool): (r: State)
    requires Pushable(st, src, jmp, skip)
  {
    var cxt := if st.saved == None then None else Some(st.saved.value.0);
    var fnSp := if st.saved == None then 0 else st.saved.value.1;
    if skip then
      var frame := Frame(None, [], sp, ReturnAddress(src, jmp), st.nonskipped, cxt, fnSp);
      st.(frames := st.frames + [frame], saved := None,
          nonskipped := if st.nonskipped == None then Some(src) else st.nonskipped)
    else
      var frame := Frame(Some(Jcc(src, jmp, dst)), st.cost, sp, ReturnAddress(src, jmp), st.nonskipped, cxt, fnSp);
      var t := if Counts(src, dst, skipDirect) then Deeper(st, dst.cxt.fn, 1) else st;
      Entered(t, dst.cxt.fn).(frames := st.frames + [frame], saved := None, nonskipped := None)
  }

  /** The top frame of a call that is not skipped holds the context to go back to. */
  predicate Poppable(st: State) {
    && st.frames != []
    && var f := st.frames[|st.frames| - 1];
       f.jcc.Some? ==> f.cxt.Some? && f.fnSp <= |st.fns|
  }

  /** Adds what frame `f` has cost since it was last added to its arc. */
  function Charge(k: Books, f: Frame, now: Cost): (r: Books)
    requires f.jcc.Some?
  {
    var j := f.jcc.value;
    k.(sums := k.sums[j := Plus(Sum(k.sums, j), f.enterCost, now)])
  }

  /** And counts the return if there was some. */
  function Settle(k: Books, f: Frame, now: Cost): (r: Books)
    requires f.jcc.Some?
  {
    var b := f.jcc.value.src;
    var c := Charge(k, f, now);
    if Differ(f.enterCost, now) then c.(rets := c.rets[b := Rets(c, b) + 1]) else c
  }

  function PopCall(st: State, skipDirect: bool): (r: State)
    requires Poppable(st)
  {
    var n := |st.frames| - 1;
    var f := st.frames[n];
    var s := st.(frames := st.frames[..n], saved := None, nonskipped := f.nonskipped);
    if f.jcc == None then s
    else
      var j := f.jcc.value;
      var t := if Counts(j.src, j.dst, skipDirect) then Deeper(s, j.dst.cxt.fn, -1) else s;
      Left(t.(books := Settle(st.books, f, st.cost), cxt := f.cxt, fns := st.fns[..f.fnSp]), j.dst.cxt.fn)
  }

  /** A dump first charges all active frames up to now. */
  function ChargeAll(st: State, k: nat): (r: State)
    requires k <= |st.frames|
    ensures r == st.(frames := r.frames, books := r.books) && |r.frames| == |st.frames|
    ensures forall i :: k <= i < |st.frames| ==> r.frames[i] == st.frames[i]
  {
    if k == 0 then st
    else
      var s := ChargeAll(st, k - 1);
      var f := s.frames[k - 1];
      if f.jcc == None then s
      else s.(frames := s.frames[k - 1 := f.(enterCost := st.cost)], books := Charge(s.books, f, st.cost))
  }

  lemma {:induction false} ChargeNone(st: State)
    ensures ChargeAll(st, 0) == st
  {}

  lemma {:induction false} ChargeAllStep(st: State, k: nat)
    requires 0 < k <= |st.frames|
    ensures var s := ChargeAll(st, k - 1);
      var f := s.frames[k - 1];
      && |s.frames| == |st.frames| && s.cost == st.cost
      && ChargeAll(st, k) == if f.jcc == None then s
           else s.(frames := s.frames[k - 1 := f.(enterCost := s.cost)], books := Charge(s.books, f, s.cost))
  {
    hide Charge;
  }

  predicate IsZero(c: Cost) { forall e :: 0 <= e < |c| ==> c[e] == 0 }

  /** The cost centres that a dump writes: those that were executed or returned to since the last
      one, and those that call an active frame. */
  predicate Chosen(st: State, executed: set<Bbcc>, b: Bbcc) {
    || b in executed
    || Rets(st.books, b) > 0
    || exists i :: 0 <= i < |st.frames| && st.frames[i].jcc.Some? && st.frames[i].jcc.value.src == b
  }

  /** And then writes the arcs of the chosen cost centres, which start again from zero. */
  function Dump(st: State, executed: set<Bbcc>): (r: State) {
    var s := ChargeAll(st, |st.frames|);
    var k := s.books;
    s.(books := Books(
      map j | j in k.sums :: if Chosen(s, executed, j.src) then seq(|k.sums[j]|, _ => 0) else k.sums[j],
      map j | j in k.sums.Keys + k.written.Keys ::
        if j in k.sums && Chosen(s, executed, j.src) then Added(|st.cost|, Sum(k.written, j), k.sums[j])
        else Sum(k.written, j),
      map b | b in k.rets :: if Chosen(s, executed, b) then 0 else k.rets[b]))
  }
}
