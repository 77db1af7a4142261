/** The shadow call stack and the function stack of a thread, updated in place. */
module CallStack {
  import opened Wrappers
  import opened Costs
  import opened CallState
  import opened CallUnwind
  import opened CallRuns
  import opened BlockSetup

  const N_CALL_STACK_INITIAL_ENTRIES := 500
  const N_FNSTACK_INITIAL_ENTRIES := 500

  const EMPTY_ENTRY := Frame(None, [], 0, 0, None, None, 0)

  /** The functions in a piece of the function stack that holds no marker. */
  ghost function Functions(s: seq<Option<Fn>>): (r: seq<Fn>)
    requires forall i :: 0 <= i < |s| ==> s[i].Some?
  {
    seq(|s|, i requires 0 <= i < |s| => s[i].value)
  }

  lemma {:induction false} FunctionsBelow(s: seq<Option<Fn>>, n: nat)
    requires n <= |s| && forall i :: 0 <= i < |s| ==> s[i].Some?
    ensures Functions(s[..n]) == Functions(s)[..n]
  {}

  lemma {:induction false} SliceBelow<T>(s: seq<T>, lo: nat, hi: nat, n: nat)
    requires lo <= n <= hi <= |s|
    ensures s[lo..hi][..n - lo] == s[lo..n]
  {}

  // ----- the size of the call stack

  /** `size`, doubled until it is at least `i`. */
  function DoubledTo(size: nat, i: nat): (r: nat)
    requires size > 0
    ensures r >= i && r >= size
    decreases i - size
  {
    if i <= size then size else DoubledTo(2 * size, i)
  }

  /** `size`, doubled `k` times. */
  function Doubled(size: nat, k: nat): (r: nat)
    ensures r >= size
    decreases k
  {
    if k == 0 then size else Doubled(2 * size, k - 1)
  }

  lemma {:induction false} DoubledStays(size: nat, k: nat)
    requires size > 0
    ensures DoubledTo(size, Doubled(size, k)) == Doubled(size, k)
    decreases k
  {
    if k > 0 { DoubledStays(2 * size, k - 1); }
  }

  lemma {:induction false} OnlyDoubled(size: nat, i: nat) returns (k: nat)
    requires size > 0 && DoubledTo(size, i) == i
    ensures i == Doubled(size, k)
    decreases i - size
  {
    k := 0;
    if i > size {
      var m := OnlyDoubled(2 * size, i);
      k := m + 1;
    }
  }

  /** Doubling until `i` is not exceeded leaves no room for entry `i` exactly if `i` is one of the
      doubled sizes itself. */
  lemma {:induction false} DoubledFitsIff(size: nat, i: nat)
    requires size > 0
    ensures i < DoubledTo(size, i) <==> !exists k: nat :: i == Doubled(size, k)
  {
    forall k: nat ensures DoubledTo(size, Doubled(size, k)) == Doubled(size, k) { DoubledStays(size, k); }
    if DoubledTo(size, i) == i {
      var k := OnlyDoubled(size, i);
    }
  }

  /** From the initial size on, no room is made for entry 1000. */
  lemma {:induction false} NoRoomFor1000()
    ensures DoubledTo(2 * N_CALL_STACK_INITIAL_ENTRIES, 1000) == 1000 == Doubled(2 * N_CALL_STACK_INITIAL_ENTRIES, 0)
  {}

  class Thread {
    var entry: array<Frame>
    var sp: nat
    var bottom: array<Option<Fn>>
    var top: nat
    var cxt: Option<Context>
    var nonskipped: Option<Bbcc>
    var depths: map<Fn, int>
    var collect: bool
    var cost: Cost
    var books: Books
    var bbcc: Option<Bbcc>
    const skipDirect: bool

    /** The entry above the stack exists; the function stack starts with a marker. */
    ghost predicate Valid()
      reads this, entry, bottom
    {
      && sp < entry.Length && top < bottom.Length
      && bottom[0] == None && (forall i :: 0 < i <= top ==> bottom[i].Some?)
    }

    ghost function Abs(): (st: State)
      requires Valid()
      reads this, entry, bottom
    {
      var spare := entry[sp];
      State(entry[..sp], if spare.cxt == None then None else Some((spare.cxt.value, spare.fnSp)),
            Functions(bottom[1..top + 1]), cxt, nonskipped, depths, collect, cost, books)
    }

    constructor (events: nat, skipDirect: bool)
      ensures Valid() && fresh(entry) && fresh(bottom) && this.skipDirect == skipDirect
      ensures Abs() == NewThread(events).st && bbcc == None
    {
      entry := new Frame[N_CALL_STACK_INITIAL_ENTRIES](_ => EMPTY_ENTRY);
      bottom := new Option<Fn>[N_FNSTACK_INITIAL_ENTRIES](_ => None);
      sp, top, cxt, nonskipped, depths, collect, bbcc := 0, 0, None, None, map[], true, None;
      cost := seq(events, _ => 0);
      books := Books(map[], map[], map[]);
      this.skipDirect := skipDirect;
    }

    /** Makes room for entry `i`, unless `i` is the size before, doubled once or more. */
    method EnsureStackSize(i: nat)
      requires Valid()
      modifies this`entry
      ensures Valid() && Abs() == old(Abs())
      ensures entry.Length == if i < old(entry.Length) then old(entry.Length) else DoubledTo(2 * old(entry.Length), i)
      ensures i < entry.Length <==> !exists k: nat :: i == Doubled(2 * old(entry.Length), k)
      ensures entry == old(entry) || fresh(entry)
    {
      DoubledFitsIff(2 * entry.Length, i);
      if i < entry.Length { return; }
      var size := entry.Length * 2;
      while i > size
        invariant size >= entry.Length * 2 && DoubledTo(size, i) == DoubledTo(2 * entry.Length, i)
      {
        size := size * 2;
      }
      Reallocate(size);
    }

    /** Moves the entries to a larger array. */
    method Reallocate(size: nat)
      requires Valid() && entry.Length <= size
      modifies this`entry
      ensures Valid() && Abs() == old(Abs()) && fresh(entry) && entry.Length == size
    {
      var smaller, bigger := entry, new Frame[size](_ => EMPTY_ENTRY);
      for k := 0 to smaller.Length
        invariant entry == smaller
        invariant forall m :: 0 <= m < k ==> bigger[m] == smaller[m]
      {
        bigger[k] := smaller[k];
      }
      assert bigger[..sp] == smaller[..sp];
      entry := bigger;
    }

    method EnsureFnStackSize()
      requires Valid()
      modifies this`bottom
      ensures Valid() && Abs() == old(Abs()) && top + 1 < bottom.Length
      ensures bottom == old(bottom) || fresh(bottom)
    {
      if top != bottom.Length - 1 { return; }
      var smaller, bigger := bottom, new Option<Fn>[bottom.Length * 2](_ => None);
      for k := 0 to smaller.Length
        invariant bottom == smaller
        invariant forall m :: 0 <= m < k ==> bigger[m] == smaller[m]
      {
        bigger[k] := smaller[k];
      }
      assert bigger[1..top + 1] == smaller[1..top + 1];
      bottom := bigger;
    }

    /** Saves the context in the entry above the stack. */
    method SaveContext()
      requires Valid() && Abs().saved == None
      modifies entry
      ensures Valid() && |old(Abs()).fns| == top
      ensures Abs() == (var st := old(Abs()); st.(saved := if st.cxt == None then None else Some((st.cxt.value, top))))
    {
      entry[sp] := entry[sp].(cxt := cxt, fnSp := top);
      assert entry[..sp] == old(entry[..sp]);
    }

    method PushFn(fn: Fn)
      requires Valid()
      modifies this`bottom, this`top, this`cxt, bottom
      ensures Valid()
      ensures Abs() == old(Abs()).(fns := old(Abs()).fns + [fn], cxt := Some(ContextOf(old(Abs()).fns + [fn])))
      ensures bottom == old(bottom) || fresh(bottom)
    {
      hide *;
      EnsureFnStackSize();
      AppendFn(fn);
      var c := GetCxt();
      SetCxt(Some(c));
    }

    method SetCxt(c: Option<Context>)
      requires Valid()
      modifies this`cxt
      ensures Valid() && Abs() == old(Abs()).(cxt := c) && bottom == old(bottom)
    {
      cxt := c;
    }

    method AppendFn(fn: Fn)
      requires Valid() && top + 1 < bottom.Length
      modifies this`top, bottom
      ensures Valid() && top > 0 && Abs() == old(Abs()).(fns := old(Abs()).fns + [fn])
    {
      ghost var b := bottom[1..top + 1];
      top := top + 1;
      bottom[top] := Some(fn);
      assert bottom[1..top + 1] == b + [Some(fn)];
    }


    /** Stops where the source looks at the group of the function below, exactly if there is none. */
    method PushCxt(fn: Fn) returns (ok: bool)
      requires Valid() && Abs().saved == None
      modifies this`bottom, this`top, this`cxt, this`depths, entry, bottom
      ensures ok == GroupFits(old(Abs()), fn)
      ensures Valid() && Abs() == (var st := old(Abs());
        if ok then CallState.PushCxt(st, fn)
        else st.(saved := if st.cxt == None then None else Some((st.cxt.value, |st.fns|))))
      ensures bottom == old(bottom) || fresh(bottom)
    {
      hide *;
      ok := true;
      SaveContext();
      TopFunction();
      EmptyFits(old(Abs()), fn);
      if top == 0 && fn.group > 0 { return false; }
      PushCxtSteps(old(Abs()), fn);
      if top > 0 && (bottom[top].value == fn || (fn.group > 0 && bottom[top].value.group == fn.group)) { return; }
      if top == 0 { CountFirst(fn); }
      PushFn(fn);
    }

    static lemma {:induction false} EmptyFits(st: State, fn: Fn)
      ensures GroupFits(st, fn) <==> !(|st.fns| == 0 && fn.group > 0)
    {}

    method CountFirst(fn: Fn)
      requires Valid()
      modifies this`depths
      ensures Valid() && Abs() == Deeper(old(Abs()), fn, 1) && bottom == old(bottom) && entry == old(entry)
    {
      depths := depths[fn := (if fn in depths then depths[fn] else 0) + 1];
    }

    static lemma {:induction false} PushCxtSteps(st: State, f: Fn)
      requires st.saved == None && GroupFits(st, f)
      ensures var n := |st.fns|;
        var s := st.(saved := if st.cxt == None then None else Some((st.cxt.value, n)));
        var t := if n == 0 then Deeper(s, f, 1) else s;
        && t.fns == st.fns
        && CallState.PushCxt(st, f) ==
          if n > 0 && (st.fns[n - 1] == f || (f.group > 0 && st.fns[n - 1].group == f.group)) then s
          else t.(fns := t.fns + [f], cxt := Some(ContextOf(t.fns + [f])))
    {
      hide ContextOf;
    }

    lemma {:induction false} TopFunction()
      requires Valid()
      ensures |Abs().fns| == top && (top > 0 ==> bottom[top].Some? && Abs().fns[top - 1] == bottom[top].value)
    {}

    /** The context of the function stack, read off from its top down to the marker. */
    method GetCxt() returns (c: Context)
      requires Valid() && top > 0
      ensures Abs().fns != [] && c == ContextOf(Abs().fns)
    {
      var size := bottom[top].value.callers + 1;
      var fns: seq<Fn> := [];
      var k: nat := top;
      while bottom[k] != None
        invariant k <= top && |fns| == top - k < size
        invariant forall i :: 0 <= i < |fns| ==> fns[i] == bottom[top - i].value
        decreases k
      {
        fns := fns + [bottom[k].value];
        k := k - 1;
        if |fns| >= size { break; }
      }
      c := Context(fns[0], fns[1..]);
      ghost var all := Functions(bottom[1..top + 1]);
      forall i | 0 <= i < |fns| ensures fns[i] == all[top - 1 - i] {
        assert bottom[1..top + 1][top - 1 - i] == bottom[top - i];
      }
      ReadsContext(all, fns);
    }

    static lemma {:induction false} ReadsContext(all: seq<Fn>, fns: seq<Fn>)
      requires all != [] && |fns| == (var size := all[|all| - 1].callers + 1; if size <= |all| then size else |all|)
      requires forall i :: 0 <= i < |fns| ==> fns[i] == all[|all| - 1 - i]
      ensures Context(fns[0], fns[1..]) == ContextOf(all)
    {
      var c := ContextOf(all);
      forall i | 0 <= i < |c.callers| ensures c.callers[i] == fns[1..][i] {
        assert fns[1..][i] == fns[i + 1];
      }
      assert fns[1..] == c.callers;
    }

    method AddDepth(fn: Fn, d: int) returns (depth: int)
      requires Valid()
      modifies this`depths
      ensures Valid() && Abs() == Deeper(old(Abs()), fn, d) && depth == Depth(Abs(), fn)
    {
      depth := (if fn in depths then depths[fn] else 0) + d;
      depths := depths[fn := depth];
    }

    method DepthOf(fn: Fn) returns (depth: int)
      requires Valid()
      ensures depth == Depth(Abs(), fn)
    {
      depth := if fn in depths then depths[fn] else 0;
    }

    /** At the first activation of a function and after its last one. */
    method Toggle(fn: Fn)
      requires Valid()
      modifies this`collect
      ensures Valid() && Abs() == if fn.toggleCollect then old(Abs()).(collect := !old(Abs()).collect) else old(Abs())
    {
      if fn.toggleCollect { collect := !collect; }
    }

    /** The function entry of a call that is not skipped. */
    method CountEntry(src: Bbcc, dst: Bbcc)
      requires Valid()
      modifies this`depths, this`collect
      ensures Valid()
      ensures var f, st := dst.cxt.fn, old(Abs());
        Abs() == Entered(if Counts(src, dst, skipDirect) then Deeper(st, f, 1) else st, f)
    {
      hide Valid, Abs, Deeper, Depth, Counts;
      var fn := dst.cxt.fn;
      var depth: int;
      if Counts(src, dst, skipDirect) { depth := AddDepth(fn, 1); } else { depth := DepthOf(fn); }
      if depth == 1 { Toggle(fn); }
    }

    method PushCallStack(src: Bbcc, jmp: nat, dst: Bbcc, sp: nat, skip: bool)
      requires Valid() && Pushable(Abs(), src, jmp, skip)
      modifies this`entry, this`sp, this`nonskipped, this`depths, this`collect, entry
      ensures Valid() && Abs() == PushCall(old(Abs()), src, jmp, dst, sp, skip, skipDirect)
      ensures entry == old(entry) || fresh(entry)
    {
      EnsureStackSize(this.sp + 1);
      var spare := entry[this.sp];
      if spare.cxt == None { spare := spare.(fnSp := 0); }
      hide Counts, Entered, Deeper, ReturnAddress;
      assert nonskipped == Abs().nonskipped && cost == Abs().cost;
      var f := Frame(None, [], sp, ReturnAddress(src, jmp), nonskipped, spare.cxt, spare.fnSp);
      var after := nonskipped;
      if skip {
        if after == None { after := Some(src); }
      } else {
        f := f.(jcc := Some(Jcc(src, jmp, dst)), enterCost := cost);
        after := None;
        CountEntry(src, dst);
        EntryKeeps(old(Abs()), src, dst, skipDirect);
      }
      hide Valid, Abs;
      StoreEntry(f, after);
    }

    static lemma {:induction false} EntryKeeps(st: State, src: Bbcc, dst: Bbcc, skipDirect: bool)
      ensures var f := dst.cxt.fn; var r := Entered(if Counts(src, dst, skipDirect) then Deeper(st, f, 1) else st, f);
        r == st.(depths := r.depths, collect := r.collect)
    {}

    /** Fills the entry above the stack, and clears the one after it. */
    method StoreEntry(f: Frame, after: Option<Bbcc>)
      requires Valid() && sp + 1 < entry.Length
      modifies this`sp, this`nonskipped, entry
      ensures Valid() && Abs() == old(Abs()).(frames := old(Abs()).frames + [f], saved := None, nonskipped := after)
    {
      ghost var b := entry[..sp];
      entry[sp] := f;
      sp := sp + 1;
      entry[sp] := entry[sp].(cxt := None);
      assert entry[..sp] == b + [f];
      nonskipped := after;
    }

    /** The return from a call that is not skipped. */
    method LeaveCall(lower: Frame)
      requires Valid() && lower.jcc.Some? && lower.fnSp <= top == |Abs().fns|
      modifies this`depths, this`collect, this`books, this`cxt, this`top
      ensures Valid()
      ensures var st, j := old(Abs()), lower.jcc.value; var fn := j.dst.cxt.fn;
        var t := if Counts(j.src, j.dst, skipDirect) then Deeper(st, fn, -1) else st;
        Abs() == Left(t.(books := Settle(st.books, lower, st.cost), cxt := lower.cxt, fns := st.fns[..lower.fnSp]), fn)
    {
      hide Valid, Abs, Deeper, Depth, Counts, Settle;
      var jcc := lower.jcc.value;
      var fn := jcc.dst.cxt.fn;
      var depth: int;
      if Counts(jcc.src, jcc.dst, skipDirect) { depth := AddDepth(fn, -1); } else { depth := DepthOf(fn); }
      ghost var t := Abs();
      DeeperKeeps(old(Abs()), fn, -1);
      RestoreContext(lower);
      DepthKept(t, Abs(), fn);
      if depth == 0 { Toggle(fn); }
    }

    static lemma {:induction false} DeeperKeeps(st: State, fn: Fn, d: int)
      ensures var t := Deeper(st, fn, d); t == st.(depths := t.depths)
    {}

    static lemma {:induction false} DepthKept(a: State, b: State, fn: Fn)
      requires a.depths == b.depths
      ensures Depth(a, fn) == Depth(b, fn)
    {}

    /** Charges the arc and goes back to the context before the call. */
    method RestoreContext(lower: Frame)
      requires Valid() && lower.jcc.Some? && lower.fnSp <= top
      modifies this`books, this`cxt, this`top
      ensures Valid()
      ensures var st := old(Abs());
        && |st.fns| == old(top)
        && Abs() == st.(books := Settle(st.books, lower, st.cost), cxt := lower.cxt, fns := st.fns[..lower.fnSp])
    {
      hide Settle;
      books := Settle(books, lower, cost);
      cxt := lower.cxt;
      FunctionsBelow(bottom[1..top + 1], lower.fnSp);
      SliceBelow(bottom[..], 1, top + 1, lower.fnSp + 1);
      hide Functions;
      top := lower.fnSp;
    }

    method DropEntry(before: Option<Bbcc>)
      requires Valid() && sp > 0
      modifies this`sp, this`nonskipped, entry
      ensures sp == old(sp) - 1 && |old(Abs()).frames| == old(sp)
      ensures Valid() && Abs() == old(Abs()).(frames := old(Abs()).frames[..sp], saved := None, nonskipped := before)
    {
      ghost var b := entry[..sp];
      entry[sp - 1] := entry[sp - 1].(cxt := None);
      sp := sp - 1;
      assert entry[..sp] == b[..sp];
      nonskipped := before;
    }

    method PopCallStack()
      requires Valid() && Poppable(Abs())
      modifies this`sp, this`nonskipped, this`depths, this`collect, this`books, this`cxt, this`top, entry
      ensures Valid() && Abs() == PopCall(old(Abs()), skipDirect)
      ensures entry == old(entry) && bottom == old(bottom)
    {
      var lower := entry[sp - 1];
      StackShape();
      hide Counts, Left, Deeper, Settle;
      ghost var st := Abs();
      hide Valid, Abs;
      if lower.jcc.Some? {
        LeaveCall(lower);
        ExitKeeps(st, lower, skipDirect);
      }
      DropEntry(lower.nonskipped);
    }

    lemma {:induction false} StackShape()
      requires Valid()
      ensures |Abs().frames| == sp && |Abs().fns| == top && (sp > 0 ==> entry[sp - 1] == Abs().frames[sp - 1])
    {}

    /** Leaving commutes with taking the frame off. */
    static lemma {:induction false} ExitKeeps(st: State, f: Frame, skipDirect: bool)
      requires st.frames != [] && f == st.frames[|st.frames| - 1] && f.jcc.Some? && Poppable(st)
      ensures var j := f.jcc.value; var fn := j.dst.cxt.fn;
        var t := if Counts(j.src, j.dst, skipDirect) then Deeper(st, fn, -1) else st;
        var r := Left(t.(books := Settle(st.books, f, st.cost), cxt := f.cxt, fns := st.fns[..f.fnSp]), fn);
        && r.frames == st.frames
        && PopCall(st, skipDirect) ==
          r.(frames := st.frames[..|st.frames| - 1], saved := None, nonskipped := f.nonskipped)
    {
      hide Settle;
    }

    /** Pops what is not on the real stack any more; says how many frames that were. */
    method UnwindCallStack(sp: nat, minpops: int) returns (count: nat)
      requires Valid() && Layered(Abs())
      modifies this`sp, this`nonskipped, this`depths, this`collect, this`books, this`cxt, this`top, entry
      ensures Valid() && Abs() == Unwind(old(Abs()), sp, minpops, skipDirect)
      ensures entry == old(entry) && bottom == old(bottom)
      ensures count == |old(Abs()).frames| - |Abs().frames|
    {
      hide Unwind, PopCall, Layered;
      count := 0;
      var left := minpops;
      ghost var st := Abs();
      while this.sp > 0
        invariant Valid() && Layered(Abs()) && left == minpops - count
        invariant entry == old(entry) && bottom == old(bottom)
        invariant Unwind(Abs(), sp, left, skipDirect) == Unwind(st, sp, minpops, skipDirect)
        invariant count == |st.frames| - |Abs().frames|
        decreases this.sp
      {
        var top := entry[this.sp - 1];
        StackShape();
        UnwindUnfold(Abs(), sp, left, skipDirect);
        if top.sp < sp || (top.sp == sp && left > 0) {
          left := left - 1;
          count := count + 1;
          PopLayered(Abs(), skipDirect);
          PopCallStack();
          StackShape();
        } else {
          return;
        }
      }
      UnwindUnfold(Abs(), sp, left, skipDirect);
    }

    /** What a dump does first: charges all active frames up to now. */
    method AddCounts()
      requires Valid()
      modifies this`books, entry
      ensures Valid() && Abs() == ChargeAll(old(Abs()), |old(Abs()).frames|)
    {
      hide *;
      ghost var st := Abs();
      FrameCount();
      ChargeNone(st);
      var i := 0;
      while i < sp
        invariant Valid() && i <= sp == |st.frames| && Abs() == ChargeAll(st, i)
      {
        ChargeActive(i, st);
        i := i + 1;
      }
    }

    lemma {:induction false} FrameCount()
      requires Valid()
      ensures |Abs().frames| == sp
    {}

    method ChargeActive(i: nat, ghost st: State)
      requires Valid() && i < sp == |st.frames| && Abs() == ChargeAll(st, i)
      modifies this`books, entry
      ensures Valid() && Abs() == ChargeAll(st, i + 1)
    {
      EntryIs(i);
      ChargeAllStep(st, i + 1);
      hide *;
      if entry[i].jcc.Some? { ChargeEntry(i); }
    }

    lemma {:induction false} EntryIs(i: nat)
      requires Valid() && i < sp
      ensures |Abs().frames| == sp && entry[i] == Abs().frames[i]
    {}

    method ChargeEntry(i: nat)
      requires Valid() && i < sp && entry[i].jcc.Some?
      modifies this`books, entry
      ensures |old(Abs()).frames| == sp && Valid()
      ensures var st := old(Abs()); var f := st.frames[i];
        && f.jcc.Some?
        && Abs() == st.(frames := st.frames[i := f.(enterCost := st.cost)], books := Charge(st.books, f, st.cost))
    {
      hide Charge;
      var e := entry[i];
      books := Charge(books, e, cost);
      ghost var b := entry[..sp];
      entry[i] := e.(enterCost := cost);
      assert entry[..sp] == b[i := e.(enterCost := cost)];
    }

    // ----- the start of a basic block

    method PopcountOnReturn(sp: nat, addr: nat) returns (n: nat)
      requires Valid()
      ensures n == PopCount(Abs().frames, sp, addr)
    {
      n := 1;
      if this.sp == 0 { return; }
      var up: nat := this.sp - 1;
      if sp < entry[up].sp { return 0; }
      if entry[up].sp == sp {
        while true
          invariant up < this.sp
          invariant Matching(Abs().frames, up, sp, addr, n) == Matching(Abs().frames, this.sp - 1, sp, addr, 1)
          decreases up
        {
          if entry[up].retAddr == addr { return; }
          if up == 0 || entry[up - 1].sp != sp { return 0; }
          up := up - 1;
          n := n + 1;
        }
      }
    }

    method ForgetContext()
      requires Valid() && top == 1
      modifies this`top, this`cxt, this`nonskipped
      ensures Valid() && top == 0 && Abs() == old(Abs()).(fns := [], cxt := None)
    {
      top := 0;
      cxt := None;
      assert bottom[1..1] == [];
    }

    /** Lets the top frame count from the last dump on. */
    method Redate(lastDump: Cost)
      requires Valid() && sp > 0
      modifies entry
      ensures |old(Abs()).frames| == sp && Valid() && Abs() == Redated(old(Abs()), lastDump)
    {
      ghost var b := entry[..sp];
      entry[sp - 1] := entry[sp - 1].(enterCost := lastDump);
      assert entry[..sp] == b[sp - 1 := b[sp - 1].(enterCost := lastDump)];
    }

    method SetNonskipped(b: Option<Bbcc>)
      requires Valid()
      modifies this`nonskipped
      ensures Valid() && Abs() == old(Abs()).(nonskipped := b)
    {
      nonskipped := b;
    }

    method Reenter(cur: Bbcc, caller: Fn) returns (ok: bool)
      requires Valid() && Abs().saved == None && top == 1
      modifies this`bottom, this`top, this`cxt, this`nonskipped, this`depths, entry, bottom
      ensures ok == (caller.group == 0) && Valid()
      ensures Abs() == if ok then Reentered(old(Abs()), cur, caller) else old(Abs()).(fns := [], cxt := None)
      ensures bottom == old(bottom) || fresh(bottom)
    {
      hide Valid, Abs, CallState.PushCxt, Deeper;
      ForgetContext();
      ok := PushCxt(caller);
      if !ok { return; }
      var depth := AddDepth(cur.cxt.fn, -1);
      SetNonskipped(None);
    }

    method HandleUnderflow(cur: Bbcc, caller: Fn, unseen: Bbcc, lastDump: Cost) returns (ok: bool)
      requires Valid() && Abs().saved == None && top == 1
      modifies this`entry, this`sp, this`bottom, this`top, this`cxt, this`nonskipped, this`depths, this`collect, entry,
               bottom
      ensures |old(Abs()).fns| == 1 && ok == (caller.group == 0) && Valid()
      ensures Abs() == if ok then Underflow(old(Abs()), cur, caller, unseen, lastDump, skipDirect)
        else old(Abs()).(fns := [], cxt := None)
      ensures entry == old(entry) || fresh(entry)
      ensures bottom == old(bottom) || fresh(bottom)
    {
      StackShape();
      hide Valid, Abs, PushCall, CallState.PushCxt, Reentered, Redated, Pushable, ContextOf;
      ok := Reenter(cur, caller);
      if !ok { return; }
      ReenteredHas(old(Abs()), cur, caller);
      SecondCxt(Abs(), unseen, cur, skipDirect);
      EmulateCall(unseen, cur, lastDump);
    }

    method EmulateCall(unseen: Bbcc, cur: Bbcc, lastDump: Cost)
      requires Valid() && Abs().saved == None && Abs().fns != []
      requires Pushable(CallState.PushCxt(Abs(), cur.cxt.fn), unseen, 0, false)
      requires PushCall(CallState.PushCxt(Abs(), cur.cxt.fn), unseen, 0, cur, MAX_ADDR, false, skipDirect).frames != []
      modifies this`entry, this`sp, this`bottom, this`top, this`cxt, this`nonskipped, this`depths, this`collect, entry,
               bottom
      ensures Valid()
      ensures Abs() ==
        Redated(PushCall(CallState.PushCxt(old(Abs()), cur.cxt.fn), unseen, 0, cur, MAX_ADDR, false, skipDirect),
          lastDump)
      ensures entry == old(entry) || fresh(entry)
      ensures bottom == old(bottom) || fresh(bottom)
    {
      hide *;
      EmptyFits(Abs(), cur.cxt.fn);
      var ok := PushCxt(cur.cxt.fn);
      PushCallStack(unseen, 0, cur, MAX_ADDR, false);
      StackShape();
      Redate(lastDump);
    }

    static lemma {:induction false} ReenteredHas(st: State, cur: Bbcc, caller: Fn)
      requires st.saved == None && caller.group == 0
      ensures var t := Reentered(st, cur, caller); t.saved == None && t.fns != [] && t.cxt.Some? && t.nonskipped == None
    {}

    /** The emulated call is entered from the context of the caller. */
    static lemma {:induction false} SecondCxt(t: State, unseen: Bbcc, cur: Bbcc, skipDirect: bool)
      requires t.saved == None && t.fns != [] && t.cxt.Some? && t.nonskipped == None
      ensures Pushable(CallState.PushCxt(t, cur.cxt.fn), unseen, 0, false)
      ensures PushCall(CallState.PushCxt(t, cur.cxt.fn), unseen, 0, cur, MAX_ADDR, false, skipDirect).frames != []
    {
      hide ContextOf;
    }

    /** Finds out what the jump was, and leaves the current function first if that is asked for. It
        stops, and has changed nothing, exactly if the assertion there fails. */
    method MakePlan(a: Arrival) returns (ok: bool, plan: Plan)
      requires Valid() && Layered(Abs()) && HasExit(Cpu(Abs(), bbcc), a)
      modifies this`sp, this`nonskipped, this`depths, this`collect, this`books, this`cxt, this`top, entry
      ensures ok == Asserted(old(Cpu(Abs(), bbcc)), a)
      ensures ok ==> plan == PlanOf(old(Cpu(Abs(), bbcc)), a)
      ensures Valid() && Abs() == if ok then Planned(old(Cpu(Abs(), bbcc)), a, skipDirect) else old(Abs())
    {
      ok := true;
      var kind := if bbcc.Some? then bbcc.value.block.ExitAt(a.passed).kind else NoJump;
      var pops := PopcountOnReturn(a.sp, a.bb.addr);
      StackShape();
      assert nonskipped == Abs().nonskipped;
      ghost var cpu := Cpu(Abs(), bbcc);
      hide Valid, Abs, Layered, PopCount, PopCall;
      plan := Plan(kind, pops, false, bbcc, a.passed, a.sp);
      var retWithoutCall := kind == Return && sp > 0 && pops == 0;
      if bbcc.Some? && (retWithoutCall || (kind != Return && kind != Call
          && (a.bb.isEntry || bbcc.value.block.sect != a.bb.sect || bbcc.value.block.obj != a.bb.obj))) {
        assert Emulated(cpu, a);
        plan := plan.(kind := Call, emulated := true);
        if bbcc.value.block.fn.popOnJump && sp > 0 {
          var topEntry := entry[sp - 1];
          if topEntry.jcc.Some? {
            plan := plan.(src := Some(topEntry.jcc.value.src), passed := topEntry.jcc.value.jmp, sp := topEntry.sp);
            PopLayered(Abs(), skipDirect);
            PopCallStack();
          } else {
            ok := nonskipped.Some?;
          }
        }
      }
    }

    /** A return of which the call was not seen. */
    method ReturnPastBottom(cur: Bbcc, a: Arrival) returns (ok: bool)
      requires Valid() && Abs().saved == None && |Abs().fns| == 1
      modifies this`entry, this`sp, this`bottom, this`top, this`cxt, this`nonskipped, this`depths, this`collect,
               this`books, entry, bottom
      ensures ok == (a.bb.fn.group == 0) && Valid()
      ensures Abs() == if ok then ReturnPast(old(Abs()), cur, a, skipDirect) else old(Abs()).(fns := [], cxt := None)
      ensures entry == old(entry) || fresh(entry)
      ensures bottom == old(bottom) || fresh(bottom)
    {
      StackShape();
      hide *;
      ghost var st := Abs();
      ok := HandleUnderflow(cur, a.bb.fn, a.unseen, a.lastDump);
      if !ok { return; }
      ghost var u := ReturnPastParts(st, cur, a, skipDirect);
      PopCallStack();
    }

    /** Brings the call stack in line with the stack pointer. */
    method LandOn(plan: Plan, a: Arrival) returns (ok: bool, calls: bool, sp: nat)
      requires Valid() && Inv(Abs()) && (plan.kind == Return ==> plan.src.Some? && Abs().cxt.Some?)
      requires plan.kind == Return ==> Underflows(Abs()) || plan.pops > 0
      modifies this`entry, this`sp, this`bottom, this`top, this`cxt, this`nonskipped, this`depths, this`collect,
               this`books, entry, bottom
      ensures ok == (plan.kind == Return && Underflows(old(Abs())) ==> a.bb.fn.group == 0) && Valid()
      ensures ok ==> Landing(Abs(), calls, sp) == Land(old(Abs()), plan, a, skipDirect)
      ensures !ok ==> Abs() == old(Abs()).(fns := [], cxt := None)
      ensures entry == old(entry) || fresh(entry)
      ensures bottom == old(bottom) || fresh(bottom)
    {
      StackShape();
      ghost var st := Abs();
      InvLayered(st);
      hide Valid, Abs, Inv, Layered, Descending, Unwind, Underflow, Poppable, PopCall;
      ok, calls, sp := true, false, plan.sp;
      if plan.kind == Return {
        if this.sp == 0 || top == 1 {
          OneFunction(st);
          ok := ReturnPastBottom(plan.src.value, a);
        } else {
          assert plan.pops > 0;
          var count := UnwindCallStack(plan.sp, plan.pops);
        }
      } else {
        var count := UnwindCallStack(plan.sp, 0);
        StackShape();
        if count == 0 && plan.kind == Call {
          calls := true;
          if plan.emulated && this.sp > 0 { sp := entry[this.sp - 1].sp; }
        }
      }
    }

    /** The cost centre of the block in its context, at its recursion level. */
    method FindCentre(ghost l: Landing, calls: bool, a: Arrival, src: Option<Bbcc>) returns (c: Bbcc)
      requires Valid() && top > 0 && cxt.Some? && (calls ==> src.Some?) && l.calls == calls
      modifies this`depths
      ensures |old(Abs()).fns| > 0 && old(Abs()).cxt.Some? && Valid()
      ensures (c, Abs()) == Centre(old(Abs()), l, a, src, skipDirect)
      ensures entry == old(entry) && bottom == old(bottom)
    {
      StackShape();
      TopFunction();
      var fn := bottom[top].value;
      var idx := 0;
      if fn.recursions > 1 {
        var level := DepthOf(fn);
        if calls && !a.bb.fn.skip && (!skipDirect || src.value.cxt.fn != cxt.value.fn) { level := level + 1; }
        if level < 0 || level > fn.recursions { level := fn.recursions; }
        if level == 0 {
          level := 1;
          depths := depths[fn := 1];
        }
        idx := level - 1;
      }
      c := Bbcc(a.bb, cxt.value, idx);
    }

    /** The context of the block, if it is reached by a call or is the first one. */
    method Place(ghost l: Landing, calls: bool, a: Arrival) returns (ok: bool)
      requires Valid() && Inv(Abs()) && l.st == Abs() && l.calls == calls
      modifies this`bottom, this`top, this`cxt, this`depths, entry, bottom
      ensures ok == (l.st.cxt == None ==> a.bb.fn.group == 0) && Valid() && entry == old(entry)
      ensures Abs() == if ok then Placed(l, a) else old(Abs())
      ensures bottom == old(bottom) || fresh(bottom)
    {
      assert cxt == Abs().cxt;
      InvUnsaved(Abs());
      hide Valid, Abs, CallState.PushCxt, Inv;
      ok := true;
      if (calls && !a.bb.fn.skip) || cxt == None { ok := PushCxt(a.bb.fn); }
    }

    static lemma {:induction false} InvUnsaved(st: State)
      requires Inv(st)
      ensures st.saved == None && (st.cxt.Some? <==> st.fns != [])
    {}

    /** The push that was put off until the cost centre was known. */
    method DelayedPush(plan: Plan, dst: Bbcc, sp: nat, skip: bool)
      requires Valid() && plan.src.Some?
      requires Pushable(Abs(), Caller(Abs(), plan, skip).0, Caller(Abs(), plan, skip).1, skip)
      modifies this`entry, this`sp, this`nonskipped, this`depths, this`collect, entry
      ensures var from := Caller(old(Abs()), plan, skip);
        && Valid()
        && Abs() == PushCall(old(Abs()), from.0, from.1, dst, sp, skip, skipDirect)
      ensures entry == old(entry) || fresh(entry)
    {
      assert nonskipped == Abs().nonskipped;
      hide Valid, Abs, PushCall, Pushable;
      var src, passed := plan.src.value, plan.passed;
      if !skip && nonskipped.Some? {
        src := nonskipped.value;
        passed := |src.block.cjmps|;
      }
      PushCallStack(src, passed, dst, sp, skip);
    }

    /** The rest of the start of a block: cost centre and push. */
    method Arrive(ghost l: Landing, ghost st2: State, ghost dst: Bbcc, calls: bool, sp: nat, plan: Plan, a: Arrival)
        returns (c: Bbcc)
      requires Valid() && Abs().fns != [] && Abs().cxt.Some? && l.calls == calls && (calls ==> plan.src.Some?)
      requires (dst, st2) == Centre(Abs(), l, a, plan.src, skipDirect)
      requires calls ==>
        Pushable(st2, Caller(st2, plan, a.bb.fn.skip).0, Caller(st2, plan, a.bb.fn.skip).1, a.bb.fn.skip)
      modifies this`entry, this`sp, this`nonskipped, this`depths, this`collect, entry
      ensures Valid() && c == dst
      ensures Abs() == if calls then
          PushCall(st2, Caller(st2, plan, a.bb.fn.skip).0, Caller(st2, plan, a.bb.fn.skip).1, c, sp, a.bb.fn.skip,
            skipDirect)
        else st2
    {
      StackShape();
      assert cxt == Abs().cxt;
      hide *;
      c := FindCentre(l, calls, a, plan.src);
      if calls { DelayedPush(plan, c, sp, a.bb.fn.skip); }
    }

    method SetBbcc(c: Bbcc)
      requires Valid()
      modifies this`bbcc
      ensures Valid() && Abs() == old(Abs()) && bbcc == Some(c)
    {
      bbcc := Some(c);
    }

    /** The start of a basic block. It stops at the assertion about skipped callers, or where the group
        of a function that is not there is looked at, exactly if these fail. */
    method SetupBbcc(a: Arrival) returns (ok: bool)
      requires Valid() && CpuInv(Cpu(Abs(), bbcc)) && HasExit(Cpu(Abs(), bbcc), a)
      modifies this, entry, bottom
      ensures var cpu := old(Cpu(Abs(), bbcc));
        && ok == (Asserted(cpu, a) && BottomFits(cpu, a)) && Valid()
        && Cpu(Abs(), bbcc) ==
          if ok then Step(cpu, a, skipDirect)
          else if Asserted(cpu, a) && cpu.st.cxt.Some? then cpu.(st := cpu.st.(fns := [], cxt := None))
          else cpu
    {
      hide *;
      ghost var cpu := Cpu(Abs(), bbcc);
      ghost var gplan, st0 := Prepared(cpu, a, skipDirect);
      var plan, calls, sp;
      ok, plan := MakePlan(a);
      if !ok { return; }
      ok, calls, sp := LandOn(plan, a);
      if !ok { return; }
      LandsBefore(st0, plan, a, skipDirect);
      ghost var l := Landing(Abs(), calls, sp);
      ok := Place(l, calls, a);
      if !ok { return; }
      ghost var plan', st0', l', st1, dst, st2 := StepParts(cpu, a, skipDirect);
      var c := Arrive(l, st2, dst, calls, sp, plan, a);
      SetBbcc(c);
    }
  }
}
