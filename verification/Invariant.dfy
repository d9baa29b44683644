/** What every reachable machine state keeps: both chains are exactly the installed frames,
    innermost first, and every saved ESP is its frame's own stack level. */
module Invariant {
  import opened Selectors
  import opened Programs
  import opened Machine

  datatype Chain = Os2Chain | Win32Chain

  /** The chain an exception search follows. */
  function ChainOf(env: Env, kind: Kind): Chain {
    if env.variant.Os2Only? && kind.Hardware? then Os2Chain else Win32Chain
  }

  function Base(env: Env, c: Chain): Ptr {
    if c.Os2Chain? then env.baseOs2 else env.baseWin32
  }

  function ChainSel(env: Env, c: Chain): Selector {
    if c.Os2Chain? then OS2_SEL else env.tebSel
  }

  /** Every frame is on the OS/2 chain; the Win32 chain has those installed while FS was the
      thread's Win32 selector. */
  predicate OnChain(env: Env, k: Slot, c: Chain) {
    k.KTry? && (c.Os2Chain? || (k.frame.Win32Frame? && k.frame.win32FS == env.tebSel))
  }

  /** The innermost frame of a chain, or the head of the chain the thread was entered with. */
  function Top(env: Env, stack: Stack, c: Chain): Ptr {
    if stack == [] then Base(env, c)
    else if OnChain(env, Last(stack), c) then |stack| - 1
    else Top(env, Init(stack), c)
  }

  /** The link slot of a frame that belongs to a chain. */
  function Link(f: Frame, c: Chain): Ptr {
    if f.Os2Frame? then f.prev else if c.Os2Chain? then f.prevOs2 else f.prevWin32
  }

  predicate LinkOk(env: Env, stack: Stack, c: Chain)
    requires stack != [] && Last(stack).KTry?
  {
    OnChain(env, Last(stack), c) ==> Link(Last(stack).frame, c) == Top(env, Init(stack), c)
  }

  predicate CellOk(env: Env, stack: Stack)
    requires stack != []
  {
    var k := Last(stack);
    && !k.KWord?
    && (k.KTry? ==>
          && (k.frame.Win32Frame? <==> env.variant.Win32Tib?)
          && k.frame.esp == Esp(stack)
          && k.frame.context.None?
          && LinkOk(env, stack, Os2Chain)
          && LinkOk(env, stack, Win32Chain))
  }

  predicate Shape(env: Env, stack: Stack) {
    stack != [] ==> Shape(env, Init(stack)) && CellOk(env, stack)
  }

  predicate HeadsOk(env: Env, stack: Stack, heads: Heads) {
    && Head(heads, OS2_SEL) == Top(env, stack, Os2Chain)
    && Head(heads, env.tebSel) == Top(env, stack, Win32Chain)
  }

  /** How many instrumented calls are pending. */
  function Fns(stack: Stack): nat {
    if stack == [] then 0 else Fns(Init(stack)) + if Last(stack).KFn? then 1 else 0
  }

  /** A filter is running, at its frame's stack level, for a handler that waits. */
  predicate InFilter(m: Mach) {
    (m.ctl.Loop? || m.ctl.Callback?) && m.AtTry() && Last(m.stack).frame.context.Some?
  }

  /** The stack with what the waiting handler has put aside. */
  function Whole(m: Mach): Stack {
    if InFilter(m) then
      var f := Last(m.stack).frame;
      SetFrame(m.stack, |m.stack| - 1, f.(context := None)) + f.context.value.cells
    else m.stack
  }

  predicate ControlOk(env: Env, m: Mach) {
    match m.ctl
    case Loop =>
      && m.AtTry()
      && (InFilter(m) ==>
            && Last(m.stack).frame.state == 1
            && OnChain(env, Last(m.stack), ChainOf(env, Last(m.stack).frame.context.value.why.kind)))
    case Callback =>
      && m.AtTry()
      && (InFilter(m) ==>
            OnChain(env, Last(m.stack), ChainOf(env, Last(m.stack).frame.context.value.why.kind)))
    case Search(why, p) =>
      IsFrame(m.stack, p) ==> OnChain(env, m.stack[p], ChainOf(env, why.kind))
    case _ => true
  }

  /** The frame on top has been unlinked and only waits for the loop's test to fail. */
  predicate Unlinked(m: Mach) {
    m.ctl.Loop? && m.AtTry() && Last(m.stack).frame.state > 3
  }

  /** The part of the stack whose frames are installed. */
  function Installed(m: Mach): Stack {
    if Unlinked(m) then Init(m.stack) else Whole(m)
  }

  predicate StatesOk(m: Mach) {
    var w := Whole(m);
    forall i :: 0 <= i < |w| && w[i].KTry? ==>
      0 <= w[i].frame.state <= if m.ctl.Loop? && i == |m.stack| - 1 then 4 else 2
  }

  predicate Inv(env: Env, m: Mach) {
    && Shape(env, Whole(m))
    && HeadsOk(env, Installed(m), m.heads)
    && Fns(Whole(m)) <= |m.calls|
    && StatesOk(m)
    && ControlOk(env, m)
  }

  // ----- stacks that differ only in what searches and the loop write -----

  /** A slot without pPrev (where it is not the link itself), filterResult, record and state. */
  function Core(k: Slot): Slot {
    match k
    case KTry(Win32Frame(_, _, esp, ctx, prevOs2, _, _, prevWin32, sel), clause, body, handler, at) =>
      KTry(Win32Frame(0, 0, esp, ctx, prevOs2, 0, 0, prevWin32, sel), clause, body, handler, InBody)
    case KTry(Os2Frame(prev, _, esp, ctx, _, _), clause, body, handler, at) =>
      KTry(Os2Frame(prev, 0, esp, ctx, 0, 0), clause, body, handler, InBody)
    case _ => k
  }

  predicate Same(a: Stack, b: Stack) {
    |a| == |b| && forall i :: 0 <= i < |a| ==> Core(a[i]) == Core(b[i])
  }

  lemma SameInit(a: Stack, b: Stack)
    requires Same(a, b) && a != []
    ensures Same(Init(a), Init(b)) && Core(Last(a)) == Core(Last(b))
  {
  }

  lemma {:induction false} SameTop(env: Env, a: Stack, b: Stack, c: Chain)
    requires Same(a, b)
    ensures Top(env, a, c) == Top(env, b, c)
  {
    if a != [] {
      SameInit(a, b);
      SameTop(env, Init(a), Init(b), c);
    }
  }

  lemma {:induction false} SameShape(env: Env, a: Stack, b: Stack)
    requires Same(a, b) && Shape(env, a)
    ensures Shape(env, b)
  {
    if a != [] {
      SameInit(a, b);
      SameShape(env, Init(a), Init(b));
      SameTop(env, Init(a), Init(b), Os2Chain);
      SameTop(env, Init(a), Init(b), Win32Chain);
    }
  }

  lemma {:induction false} SameFns(a: Stack, b: Stack)
    requires Same(a, b)
    ensures Fns(a) == Fns(b)
  {
    if a != [] {
      SameInit(a, b);
      SameFns(Init(a), Init(b));
    }
  }

  lemma SameKeeps(env: Env, a: Stack, b: Stack, heads: Heads)
    requires Same(a, b) && Shape(env, a) && HeadsOk(env, a, heads)
    ensures Shape(env, b) && HeadsOk(env, b, heads) && Fns(a) == Fns(b)
  {
    SameShape(env, a, b);
    SameTop(env, a, b, Os2Chain);
    SameTop(env, a, b, Win32Chain);
    SameFns(a, b);
  }

  // ----- prefixes -----

  lemma {:induction false} ShapePrefix(env: Env, stack: Stack, k: nat)
    requires Shape(env, stack) && k <= |stack|
    ensures Shape(env, stack[..k])
    ensures k > 0 ==> CellOk(env, stack[..k])
  {
    if k == |stack| {
      assert stack[..k] == stack;
    } else {
      ShapePrefix(env, Init(stack), k);
      assert Init(stack)[..k] == stack[..k];
    }
  }

  lemma {:induction false} FnsPrefix(stack: Stack, k: nat)
    requires k <= |stack|
    ensures Fns(stack[..k]) <= Fns(stack)
  {
    if k == |stack| {
      assert stack[..k] == stack;
    } else {
      FnsPrefix(Init(stack), k);
      assert Init(stack)[..k] == stack[..k];
    }
  }

  lemma {:induction false} TopIsOnChain(env: Env, stack: Stack, c: Chain)
    requires env.Valid()
    ensures var p := Top(env, stack, c); p < |stack| && (p < 0 || OnChain(env, stack[p], c))
  {
    if stack != [] && !OnChain(env, Last(stack), c) {
      TopIsOnChain(env, Init(stack), c);
    }
  }

  /** A frame's saved ESP, and its links to the next outer frames. */
  lemma FrameAt(env: Env, stack: Stack, p: Ptr)
    requires Shape(env, stack) && IsFrame(stack, p)
    ensures var f := stack[p].frame;
      && f.esp == Esp(stack[..p + 1]) && Cells(f.esp) == p + 1 && f.context.None?
      && (f.Win32Frame? <==> env.variant.Win32Tib?)
      && forall c :: OnChain(env, stack[p], c) ==> Link(f, c) == Top(env, stack[..p], c)
  {
    ShapePrefix(env, stack, p + 1);
    var cut := stack[..p + 1];
    assert Init(cut) == stack[..p] && Last(cut) == stack[p];
    assert LinkOk(env, cut, Os2Chain) && LinkOk(env, cut, Win32Chain);
  }

  // ----- single steps -----

  lemma {:induction false} WalkIsSame(stack: Stack, p: Ptr)
    ensures Same(stack, WalkOs2(stack, p))
    ensures forall i :: 0 <= i < |stack| && stack[i].KTry? ==>
      WalkOs2(stack, p)[i].KTry? && WalkOs2(stack, p)[i].at == stack[i].at &&
      WalkOs2(stack, p)[i].frame.state == stack[i].frame.state &&
      WalkOs2(stack, p)[i].frame.record == stack[i].frame.record
    decreases p
  {
    if IsFrame(stack, p) && stack[p].frame.Win32Frame? {
      var f := stack[p].frame;
      var r := SetFrame(stack, p, f.(prev := f.prevOs2));
      if f.prevOs2 < p { WalkIsSame(r, f.prevOs2); }
    }
  }

  /** RtlUnwind stops at the frame that takes the exception. */
  lemma {:induction false} UnwindReaches(env: Env, stack: Stack, q: nat, p: Ptr)
    requires env.Valid() && env.variant.Win32Tib? && Shape(env, stack)
    requires 0 <= p < q <= |stack| && OnChain(env, stack[p], Win32Chain)
    ensures RtlUnwind(stack, Top(env, stack[..q], Win32Chain), p) == Some(p)
    decreases q
  {
    var cut := stack[..q];
    assert Init(cut) == stack[..q - 1] && Last(cut) == stack[q - 1];
    if OnChain(env, stack[q - 1], Win32Chain) {
      if q - 1 != p {
        FrameAt(env, stack, q - 1);
        TopIsOnChain(env, stack[..q - 1], Win32Chain);
        UnwindReaches(env, stack, q - 1, p);
      }
    } else {
      UnwindReaches(env, stack, q - 1, p);
    }
  }

  /** The installation, field by field. */
  lemma InstallStep(env: Env, m: Mach, s: Stmt)
    requires s.Try? && m.ctl == Exec(s)
    ensures var m' := StepExec(env, m, s);
      var p := |m.stack|;
      var os2, outer, esp := Head(m.heads, 0x150b), Head(m.heads, m.fs), -4 * (p + 1);
      var f := if env.variant.Win32Tib? then Win32Frame(outer, 0, esp, None, os2, 0, 0, outer, m.fs)
               else Os2Frame(os2, 0, esp, None, 0, 0);
      && m'.stack == m.stack + [KTry(f, s.clause, s.body, s.handler, InBody)]
      && m'.heads == (if env.variant.Win32Tib? then m.heads[0x150b := p][m.fs := p] else m.heads[0x150b := p])
      && (m'.ctl, m'.fs, m'.trace, m'.calls) == (Loop, m.fs, m.trace, m.calls)
  {
    hide Head;
    var m' := StepExec(env, m, s);
    assert m'.stack == m.stack + [Last(m'.stack)];
  }

  /** Entering a __try puts its frame on top of the stack, in state 0. */
  lemma InstallKeeps(env: Env, m: Mach, s: Stmt)
    requires env.Valid() && s.Try? && m.ctl == Exec(s) && Inv(env, m)
    ensures var m' := StepExec(env, m, s);
      && Inv(env, m')
      && m'.ctl == Loop && m'.AtTry() && !InFilter(m')
      && |m'.stack| == |m.stack| + 1 && Init(m'.stack) == m.stack
      && (m'.fs, m'.trace, m'.calls) == (m.fs, m.trace, m.calls)
      && var k := Last(m'.stack);
      && (k.clause, k.body, k.handler, k.at) == (s.clause, s.body, s.handler, InBody)
      && k.frame.state == 0
      && (env.variant.Win32Tib? ==>
            && k.frame.win32FS == m.fs
            && k.frame.prevWin32 == Head(m.heads, m.fs) && k.frame.prevOs2 == Head(m.heads, OS2_SEL))
  {
    hide StepExec, Shape, StatesOk;
    InstallStep(env, m, s);
    var m' := StepExec(env, m, s);
    var k := Last(m'.stack);
    assert Init(m'.stack) == m.stack && m'.stack == m.stack + [k];
    assert m'.AtTry() && !InFilter(m') && !Unlinked(m');
    assert Whole(m) == m.stack && Whole(m') == m'.stack;
    InstallShape(env, m, m', k);
    InstallStates(m, m', k);
  }

  lemma InstallShape(env: Env, m: Mach, m': Mach, k: Slot)
    requires Shape(env, m.stack) && HeadsOk(env, m.stack, m.heads) && m'.stack == m.stack + [k] && k.KTry?
    requires k.frame.Win32Frame? <==> env.variant.Win32Tib?
    requires k.frame.esp == -4 * (|m.stack| + 1) && k.frame.context.None?
    requires k.frame.Win32Frame? ==>
      k.frame.prevOs2 == Head(m.heads, OS2_SEL) && k.frame.prevWin32 == Head(m.heads, k.frame.win32FS)
    requires k.frame.Os2Frame? ==> k.frame.prev == Head(m.heads, OS2_SEL)
    ensures Shape(env, m'.stack)
  {
    hide Head;
    assert Init(m'.stack) == m.stack && Last(m'.stack) == k;
  }

  lemma InstallStates(m: Mach, m': Mach, k: Slot)
    requires StatesOk(m) && Whole(m) == m.stack && Whole(m') == m'.stack && m'.stack == m.stack + [k]
    requires k.KTry? && k.frame.state == 0 && m.ctl.Exec? && m'.ctl.Loop?
    ensures StatesOk(m')
  {
    assert forall i :: 0 <= i < |m.stack| ==> Whole(m')[i] == Whole(m)[i];
  }

  /** Writing what the loop and the handlers write in one slot. */
  lemma SlotKeeps(env: Env, a: Stack, p: Ptr, k: Slot, heads: Heads)
    requires Shape(env, a) && IsFrame(a, p) && Core(k) == Core(a[p])
    ensures Same(a, a[p := k]) && Shape(env, a[p := k]) && Fns(a[p := k]) == Fns(a)
    ensures HeadsOk(env, a, heads) ==> HeadsOk(env, a[p := k], heads)
    ensures a[p := k] == a[..p] + [k] + a[p + 1..]
  {
    SameShape(env, a, a[p := k]);
    SameTop(env, a, a[p := k], Os2Chain);
    SameTop(env, a, a[p := k], Win32Chain);
    SameFns(a, a[p := k]);
  }

  /** The evaluation of a filter, with what the handler has put aside in view. */
  lemma FilterWhole(env: Env, m: Mach)
    requires m.ctl == Loop && InFilter(m) && Last(m.stack).frame.state == 1
    ensures var m' := StepLoop(env, m);
      var p := |m.stack| - 1;
      && m'.ctl == Callback && InFilter(m') && |m'.stack| == |m.stack| && m'.heads == m.heads && m'.calls == m.calls
      && Last(m'.stack).frame.context == Last(m.stack).frame.context
      && Last(m'.stack) == Last(m.stack).(frame := Last(m'.stack).frame)
      && p < |Whole(m)| && p < |Whole(m')| && IsFrame(Whole(m), p) && Whole(m')[p].KTry?
      && Whole(m') == Whole(m)[p := Whole(m')[p]] && Core(Whole(m')[p]) == Core(Whole(m)[p])
      && Whole(m')[p].frame.state == 1
      && Core(Last(m'.stack)) == Core(Last(m.stack))
  {
    hide Depth, Remove, Head, Verdict;
    var m' := StepLoop(env, m);
    var p := |m.stack| - 1;
    var k := Last(m'.stack);
    assert Whole(m') == Whole(m)[p := k.(frame := k.frame.(context := None))];
  }

  lemma LoopInFilterKeeps(env: Env, m: Mach)
    requires env.Valid() && m.ctl == Loop && Inv(env, m) && InFilter(m)
    ensures Inv(env, StepLoop(env, m))
    ensures Whole(StepLoop(env, m)) == Whole(m)[|m.stack| - 1 := Whole(StepLoop(env, m))[|m.stack| - 1]]
  {
    hide Shape, HeadsOk, Fns, StepLoop, Whole;
    var m' := StepLoop(env, m);
    var p := |m.stack| - 1;
    FilterWhole(env, m);
    SlotKeeps(env, Whole(m), p, Whole(m')[p], m.heads);
  }

  lemma LoopRunsBlockKeeps(env: Env, m: Mach)
    requires env.Valid() && m.ctl == Loop && Inv(env, m) && !InFilter(m)
    requires Last(m.stack).frame.state in {0, 1, 2}
    ensures Inv(env, StepLoop(env, m))
  {
    var m' := StepLoop(env, m);
    var p := |m.stack| - 1;
    SlotKeeps(env, m.stack, p, Last(m'.stack), m.heads);
    assert m'.stack == m.stack[p := Last(m'.stack)];
  }

  lemma LoopRemovesKeeps(env: Env, m: Mach)
    requires env.Valid() && m.ctl == Loop && Inv(env, m) && !InFilter(m)
    requires Last(m.stack).frame.state == 3
    ensures Inv(env, StepLoop(env, m))
  {
    var m' := StepLoop(env, m);
    var p := |m.stack| - 1;
    RemoveKeeps(env, m);
    SlotKeeps(env, m.stack, p, Last(m'.stack), m.heads);
    assert Init(m'.stack) == Init(m.stack);
  }

  lemma LoopKeeps(env: Env, m: Mach)
    requires env.Valid() && m.ctl == Loop && Inv(env, m)
    ensures Inv(env, StepLoop(env, m))
  {
    if InFilter(m) {
      LoopInFilterKeeps(env, m);
    } else if Last(m.stack).frame.state == 3 {
      LoopRemovesKeeps(env, m);
    } else if Last(m.stack).frame.state < 3 {
      LoopRunsBlockKeeps(env, m);
    }
  }

  /** Removal gives both chains back the heads they had under the frame. */
  lemma RemoveKeeps(env: Env, m: Mach)
    requires env.Valid() && m.AtTry() && Shape(env, m.stack) && HeadsOk(env, m.stack, m.heads)
    ensures HeadsOk(env, Init(m.stack), Remove(m).heads)
  {
    var k := Last(m.stack);
    assert CellOk(env, m.stack);
    if !OnChain(env, k, Win32Chain) {
      assert Top(env, m.stack, Win32Chain) == Top(env, Init(m.stack), Win32Chain);
    }
  }

  lemma EnterFilterKeeps(env: Env, m: Mach, why: Dispatch, p: Ptr)
    requires env.Valid() && m.ctl == Search(why, p) && Inv(env, m) && IsFrame(m.stack, p)
    ensures var m' := EnterFilter(m, why, p);
      && Inv(env, m') && m'.ctl == Loop && InFilter(m') && |m'.stack| == p + 1
      && Last(m'.stack).frame.state == 1 && Last(m'.stack).frame.record == why.code
      && Last(m'.stack).frame.context.value.why == why
      && Same(m.stack, Whole(m')) && Whole(m') == m.stack[p := Whole(m')[p]]
      && Last(m'.stack) == m.stack[p].(frame := Last(m'.stack).frame)
      && Init(m'.stack) == m.stack[..p]
      && (m'.fs, m'.calls, m'.heads, m'.trace) == (m.fs, m.calls, m.heads, m.trace)
  {
    hide Shape, Top, Fns, HeadsOk, Same;
    FrameAt(env, m.stack, p);
    var m' := EnterFilter(m, why, p);
    var k := Last(m'.stack);
    assert m'.stack == m.stack[..p] + [k];
    assert Whole(m') == m.stack[p := k.(frame := k.frame.(context := None))];
    SlotKeeps(env, m.stack, p, Whole(m')[p], m.heads);
  }

  lemma SearchKeeps(env: Env, m: Mach, why: Dispatch, p: Ptr)
    requires env.Valid() && m.ctl == Search(why, p) && Inv(env, m)
    ensures Inv(env, StepSearch(env, m, why, p))
  {
    if IsFrame(m.stack, p) {
      if m.stack[p].frame.Win32Frame? && m.fs == OS2_SEL {
        SlotKeeps(env, m.stack, p, StepSearch(env, m, why, p).stack[p], m.heads);
      } else {
        EnterFilterKeeps(env, m, why, p);
      }
    }
  }

  lemma AcceptKeeps(env: Env, m: Mach, kind: Kind, p: Ptr)
    requires env.Valid() && Shape(env, m.stack) && HeadsOk(env, m.stack, m.heads)
    requires Fns(m.stack) <= |m.calls| && IsFrame(m.stack, p) && OnChain(env, m.stack[p], ChainOf(env, kind))
    requires forall i :: 0 <= i < |m.stack| && m.stack[i].KTry? ==> 0 <= m.stack[i].frame.state <= 2
    ensures var m' := Accept(env, m, p);
      && Inv(env, m') && m'.ctl == Loop && !InFilter(m') && m'.AtTry()
      && Same(m.stack[..p + 1], m'.stack) && m'.stack[..p] == m.stack[..p]
      && Last(m'.stack) == m.stack[p].(frame := Last(m'.stack).frame)
      && Last(m'.stack).frame.state == 2
      && (m'.fs, m'.calls, m'.trace) == (m.fs, m.calls, m.trace)
  {
    FrameAt(env, m.stack, p);
    var m' := Accept(env, m, p);
    var cut := m.stack[..p + 1];
    ShapePrefix(env, m.stack, p + 1);
    FnsPrefix(m.stack, p + 1);
    if env.variant.Win32Tib? {
      assert m.stack[..|m.stack|] == m.stack;
      UnwindReaches(env, m.stack, |m.stack|, p);
    } else {
      NoWin32Chain(env, m.stack);
      NoWin32Chain(env, cut);
    }
    assert Last(cut) == m.stack[p];
    assert Same(cut, m'.stack);
    SameKeeps(env, cut, m'.stack, m'.heads);
  }

  lemma {:induction false} NoWin32Chain(env: Env, stack: Stack)
    requires env.variant.Os2Only? && Shape(env, stack)
    ensures Top(env, stack, Win32Chain) == env.baseWin32
  {
    if stack != [] { NoWin32Chain(env, Init(stack)); }
  }

  lemma CallbackKeeps(env: Env, m: Mach)
    requires env.Valid() && m.ctl == Callback && Inv(env, m)
    ensures Inv(env, StepCallback(env, m))
  {
    hide Shape, Top, Fns, HeadsOk;
    if InFilter(m) {
      var p := |m.stack| - 1;
      var f := Last(m.stack).frame;
      if f.filterResult == EXECUTE_HANDLER {
        AcceptKeeps(env, m.(stack := Whole(m)), f.context.value.why.kind, p);
      } else {
        DeclineKeeps(env, m);
      }
    }
  }

  lemma DeclineKeeps(env: Env, m: Mach)
    requires env.Valid() && m.ctl == Callback && Inv(env, m) && InFilter(m)
    requires Last(m.stack).frame.filterResult != EXECUTE_HANDLER
    ensures Inv(env, StepCallback(env, m))
  {
    hide Shape, Top, Fns, HeadsOk;
    var p := |m.stack| - 1;
    var f := Last(m.stack).frame;
    var m' := StepCallback(env, m);
    if f.filterResult == CONTINUE_EXECUTION {
      assert m'.stack == Whole(m)[p := m'.stack[p]];
      SlotKeeps(env, Whole(m), p, m'.stack[p], m.heads);
    } else {
      assert m'.stack == Whole(m);
      FrameAt(env, m'.stack, p);
      TopIsOnChain(env, m'.stack[..p], ChainOf(env, f.context.value.why.kind));
    }
  }

  lemma RaiseKeeps(env: Env, m: Mach, kind: Kind, code: int)
    requires env.Valid() && m.ctl == Exec(Raise(kind, code)) && Inv(env, m)
    ensures var m' := StartSearch(env, m, kind, code);
      Inv(env, m') && Same(m.stack, m'.stack) &&
      m'.ctl == Search(Dispatch(kind, code, m.fs), Top(env, m.stack, ChainOf(env, kind)))
  {
    var m' := StartSearch(env, m, kind, code);
    WalkIsSame(m.stack, Head(m.heads, OS2_SEL));
    SameKeeps(env, m.stack, m'.stack, m.heads);
    SameTop(env, m.stack, m'.stack, ChainOf(env, kind));
    TopIsOnChain(env, m'.stack, ChainOf(env, kind));
  }

  lemma PushKeeps(env: Env, stack: Stack, k: Slot, heads: Heads)
    requires Shape(env, stack) && HeadsOk(env, stack, heads) && !k.KTry? && !k.KWord?
    ensures Shape(env, stack + [k]) && HeadsOk(env, stack + [k], heads)
    ensures Fns(stack + [k]) == Fns(stack) + if k.KFn? then 1 else 0
  {
    assert Init(stack + [k]) == stack;
  }

  lemma ExecKeeps(env: Env, m: Mach, s: Stmt)
    requires env.Valid() && m.ctl == Exec(s) && Inv(env, m)
    ensures Inv(env, StepExec(env, m, s))
  {
    hide Shape, Top, Fns, StartSearch, Install;
    match s
    case Seq(a, b) => PushKeeps(env, m.stack, KSeq(b), m.heads);
    case OS2Call(id, _) => PushKeeps(env, m.stack, KWrap(id, ToUShort(ToShort(m.fs)), |m.trace|), m.heads);
    case Traced(name, _) => PushKeeps(env, m.stack, KFn(name, m.fs, |m.trace|), m.heads);
    case Try(_, _, _) => InstallKeeps(env, m, s);
    case Raise(kind, code) => RaiseKeeps(env, m, kind, code);
    case _ =>
  }

  lemma BlockEndKeeps(env: Env, m: Mach)
    requires env.Valid() && (m.ctl == Return || m.ctl == Leaving) && Inv(env, m) && m.AtTry()
    ensures Inv(env, Step(env, m))
    ensures Same(m.stack, Step(env, m).stack)
  {
    var p := |m.stack| - 1;
    var m' := Step(env, m);
    SlotKeeps(env, m.stack, p, m'.stack[p], m.heads);
    assert m'.stack == m.stack[p := m'.stack[p]];
  }

  lemma ReturnKeeps(env: Env, m: Mach)
    requires env.Valid() && (m.ctl == Return || m.ctl == Leaving) && Inv(env, m)
    ensures Inv(env, Step(env, m))
  {
    if m.AtTry() {
      BlockEndKeeps(env, m);
    } else {
      PopKeeps(env, m);
    }
  }

  lemma PoppedShape(env: Env, stack: Stack, heads: Heads)
    requires Shape(env, stack) && HeadsOk(env, stack, heads) && stack != [] && !Last(stack).KTry?
    ensures Shape(env, Init(stack)) && HeadsOk(env, Init(stack), heads) && !Last(stack).KWord?
    ensures Fns(stack) == Fns(Init(stack)) + if Last(stack).KFn? then 1 else 0
  {
  }

  lemma PopKeeps(env: Env, m: Mach)
    requires env.Valid() && (m.ctl == Return || m.ctl == Leaving) && Inv(env, m) && !m.AtTry()
    ensures Inv(env, Step(env, m))
  {
    hide Shape, HeadsOk, Fns;
    if m.stack != [] { PoppedShape(env, m.stack, m.heads); }
  }

  /** Every step of every run, whatever the program and the filters do, keeps the chains,
      the links, the saved stack levels and the frame states in order. */
  lemma StepKeepsInv(env: Env, m: Mach)
    requires env.Valid() && Inv(env, m)
    ensures Inv(env, Step(env, m))
  {
    match m.ctl
    case Exec(s) => ExecKeeps(env, m, s);
    case Return => ReturnKeeps(env, m);
    case Leaving => ReturnKeeps(env, m);
    case Loop => LoopKeeps(env, m);
    case Search(why, p) => SearchKeeps(env, m, why, p);
    case Callback => CallbackKeeps(env, m);
    case Halted(_) =>
  }

  lemma {:induction false} StepsKeepInv(env: Env, n: nat, m: Mach)
    requires env.Valid() && Inv(env, m)
    ensures Inv(env, Steps(env, n, m))
  {
    if n > 0 {
      StepKeepsInv(env, m);
      StepsKeepInv(env, n - 1, Step(env, m));
    }
  }
}
