/** When runs end: every run either halts or starts handler blocks again and again. */
module Halting {
  import opened Selectors
  import opened Programs
  import opened Machine
  import opened Invariant
  import opened Levels
  import opened Correctness

  // ----- the measure -----

  /** What is left to do in a statement, its handler blocks aside. */
  function Size(s: Stmt): (n: nat)
    ensures n > 0
  {
    match s
    case Seq(a, b) => Size(a) + Size(b) + 2
    case Choice(_, a, b) => Size(a) + Size(b) + 1
    case Try(body, _, _) => Size(body) + 8
    case OS2Call(_, callee) => Size(callee) + 2
    case Traced(_, callee) => Size(callee) + 2
    case _ => 2
  }

  function SlotSize(k: Slot): nat {
    match k
    case KSeq(next) => Size(next) + 1
    case KTry(_, _, _, _, _) => 5
    case _ => 1
  }

  function StackSize(w: Stack): nat {
    if w == [] then 0 else StackSize(Init(w)) + SlotSize(Last(w))
  }

  /** What is left to do at a control point, beyond the slots. A frame's own loop uses up what
      its slot counts for. */
  function CtlSize(m: Mach): int {
    match m.ctl
    case Exec(s) => Size(s)
    case Search(_, _) => 1
    case Loop =>
      if InFilter(m) then 1
      else if !m.AtTry() then 0
      else if Last(m.stack).frame.state == 0 then Size(Last(m.stack).body) + 1
      else if Last(m.stack).frame.state == 3 then -2
      else if Last(m.stack).frame.state > 3 then -3
      else -1
    case Callback => if InFilter(m) then 1 else -2
    case _ => 0
  }

  function Left(m: Mach): int { StackSize(Whole(m)) + CtlSize(m) }

  /** Where a search is, and how far with the frame it is at. */
  function Searched(m: Mach): int {
    match m.ctl
    case Search(_, p) => if p < 0 then 2 else 3 * (p + 1) + 2
    case Loop => 3 * |m.stack| + 1
    case Callback => 3 * |m.stack|
    case _ => 0
  }

  lemma {:induction false} SizePrefix(w: Stack, k: nat)
    requires k <= |w|
    ensures StackSize(w[..k]) <= StackSize(w)
  {
    if k == |w| {
      assert w[..k] == w;
    } else {
      SizePrefix(Init(w), k);
      assert Init(w)[..k] == w[..k];
    }
  }

  lemma {:induction false} SizeSame(a: Stack, b: Stack)
    requires Same(a, b)
    ensures StackSize(a) == StackSize(b)
  {
    if a != [] {
      SameInit(a, b);
      SizeSame(Init(a), Init(b));
    }
  }

  /** A frame's slot counts at least as long as its loop goes on. */
  lemma {:induction false} FrameCounts(w: Stack, p: nat)
    requires p < |w| && w[p].KTry?
    ensures StackSize(w) >= 5
  {
    SizePrefix(w, p + 1);
    assert Last(w[..p + 1]) == w[p];
  }

  lemma LeftIsNat(env: Env, m: Mach)
    requires Inv(env, m)
    ensures Left(m) >= 0 && Searched(m) >= 0
  {
    hide Shape, HeadsOk, Fns, StatesOk;
    if m.AtTry() && (m.ctl.Loop? || m.ctl.Callback?) {
      FrameCounts(Whole(m), |m.stack| - 1);
    }
  }

  // ----- one step -----

  /** The step starts a handler block. */
  predicate StartsBlock(m: Mach, m': Mach) {
    m'.trace != [] && Init(m'.trace) == m.trace && Last(m'.trace).Handling?
  }

  predicate GoesDown(m: Mach, m': Mach) {
    Left(m') < Left(m) || (Left(m') == Left(m) && Searched(m') < Searched(m))
  }

  predicate Progress(m: Mach, m': Mach) {
    m'.ctl.Halted? || StartsBlock(m, m') || GoesDown(m, m')
  }

  lemma SizePush(w: Stack, k: Slot)
    ensures StackSize(w + [k]) == StackSize(w) + SlotSize(k)
  {
    assert Init(w + [k]) == w;
  }

  lemma ExecProgress(env: Env, m: Mach, s: Stmt)
    requires env.Valid() && Inv(env, m) && m.ctl == Exec(s)
    ensures Progress(m, Step(env, m))
  {
    hide Inv, Install, WalkOs2, Head, StackSize, StepLoop, StepReturn, StepLeave, StepSearch, StepCallback;
    var m' := Step(env, m);
    match s
    case Raise(kind, code) =>
      RaiseKeeps(env, m, kind, code);
      SizeSame(m.stack, m'.stack);
    case Try(_, _, _) =>
      InstallKeeps(env, m, s);
      assert m'.stack == m.stack + [Last(m'.stack)];
      SizePush(m.stack, Last(m'.stack));
    case Seq(_, b) => SizePush(m.stack, KSeq(b));
    case OS2Call(id, _) => SizePush(m.stack, KWrap(id, ToUShort(ToShort(m.fs)), |m.trace|));
    case Traced(name, _) => SizePush(m.stack, KFn(name, m.fs, |m.trace|));
    case _ =>
  }

  lemma ReturnProgress(env: Env, m: Mach)
    requires env.Valid() && Inv(env, m) && (m.ctl == Return || m.ctl == Leaving)
    ensures Progress(m, Step(env, m))
  {
    hide Inv, StepLoop, StepExec, StepSearch, StepCallback;
    if m.AtTry() {
      BlockEndSize(env, m);
    }
  }

  lemma BlockEndSize(env: Env, m: Mach)
    requires env.Valid() && Inv(env, m) && (m.ctl == Return || m.ctl == Leaving) && m.AtTry()
    ensures GoesDown(m, Step(env, m))
  {
    hide Shape, HeadsOk, Fns, StackSize, StepLoop, StepExec, StepSearch, StepCallback;
    var m' := Step(env, m);
    BlockEndKeeps(env, m);
    InvIsSane(env, m);
    SizeSame(m.stack, m'.stack);
    assert m.stack[|m.stack| - 1].frame.context.None?;
    assert !InFilter(m');
    assert Whole(m)[|m.stack| - 1].frame.state >= 0;
  }

  lemma LoopProgress(env: Env, m: Mach)
    requires env.Valid() && Inv(env, m) && m.ctl == Loop
    ensures Progress(m, Step(env, m))
  {
    hide Shape, HeadsOk, Fns, StatesOk, StackSize, StepExec, StepReturn, StepLeave, StepSearch, StepCallback, Progress;
    if InFilter(m) {
      FilterProgress(env, m);
    } else {
      TurnProgress(env, m);
    }
  }

  lemma FilterProgress(env: Env, m: Mach)
    requires env.Valid() && Inv(env, m) && m.ctl == Loop && InFilter(m)
    ensures Progress(m, Step(env, m))
  {
    hide Shape, HeadsOk, Fns, StackSize, StepExec, StepReturn, StepLeave, StepSearch, StepCallback, Depth;
    LoopInFilterKeeps(env, m);
    var m' := Step(env, m);
    SlotKeeps(env, Whole(m), |m.stack| - 1, Whole(m')[|m.stack| - 1], m.heads) by { FilterSlot(env, m); }
    SizeSame(Whole(m), Whole(m'));
    assert m'.ctl == Callback && InFilter(m') && |m'.stack| == |m.stack|;
  }

  lemma FilterSlot(env: Env, m: Mach)
    requires Inv(env, m) && m.ctl == Loop && InFilter(m)
    ensures var p := |m.stack| - 1;
      var w, w' := Whole(m), Whole(Step(env, m));
      IsFrame(w, p) && |w'| == |w| && Core(w'[p]) == Core(w[p])
  {
    hide Shape, HeadsOk, Fns, Depth;
    InvIsSane(env, m);
    StepKeeps(env, m);
    assert |Whole(Step(env, m))| == |Whole(m)|;
  }

  /** A turn of a frame's own loop. */
  lemma TurnProgress(env: Env, m: Mach)
    requires env.Valid() && Inv(env, m) && m.ctl == Loop && !InFilter(m)
    ensures Progress(m, Step(env, m))
  {
    hide Inv, StackSize, Step, Size;
    TurnStates(env, m);
    var m' := Step(env, m);
    if Last(m.stack).frame.state == 4 {
      TurnPops(env, m);
    } else {
      TurnShape(env, m);
      SizePush(Init(m.stack), Last(m.stack));
      SizePush(Init(m.stack), Last(m'.stack));
      assert m.stack == Init(m.stack) + [Last(m.stack)];
    }
  }

  lemma TurnPops(env: Env, m: Mach)
    requires m.ctl == Loop && m.AtTry() && !InFilter(m) && Last(m.stack).frame.state == 4
    ensures GoesDown(m, Step(env, m))
  {
    hide StackSize;
    var k := Last(m.stack);
    SizePush(Init(m.stack), k);
    assert m.stack == Init(m.stack) + [k];
  }

  /** What a turn leaves on the stack, and where it goes. */
  lemma TurnShape(env: Env, m: Mach)
    requires m.ctl == Loop && m.AtTry() && !InFilter(m) && 0 <= Last(m.stack).frame.state <= 3
    ensures var m' := Step(env, m);
      && m'.AtTry() && !InFilter(m') && m'.stack == Init(m.stack) + [Last(m'.stack)]
      && match Last(m.stack).frame.state
         case 0 => m'.ctl == Exec(Last(m.stack).body)
         case 1 => m'.ctl == Callback
         case 2 => StartsBlock(m, m')
         case _ => m'.ctl == Loop && Last(m'.stack).frame.state == 4
  {
    hide Depth, Head, Verdict;
    var m' := Step(env, m);
    assert m'.stack == Init(m.stack) + [Last(m'.stack)];
  }

  lemma TurnStates(env: Env, m: Mach)
    requires Inv(env, m) && m.ctl == Loop && !InFilter(m)
    ensures m.AtTry() && 0 <= Last(m.stack).frame.state <= 4 && Last(m.stack).frame.context.None?
  {
    hide Shape, HeadsOk, Fns;
    assert Whole(m)[|m.stack| - 1].KTry?;
  }

  lemma SearchProgress(env: Env, m: Mach, why: Dispatch, p: Ptr)
    requires env.Valid() && Inv(env, m) && m.ctl == Search(why, p)
    ensures Progress(m, Step(env, m))
  {
    hide Shape, HeadsOk, Fns, StackSize, StatesOk;
    var m' := Step(env, m);
    if IsFrame(m.stack, p) {
      if m.stack[p].frame.Win32Frame? && m.fs == OS2_SEL {
        SizeSame(m.stack, m'.stack);
      } else {
        EnterFilterKeeps(env, m, why, p);
        SizeSame(m.stack, Whole(m'));
      }
    }
  }

  lemma CallbackProgress(env: Env, m: Mach)
    requires env.Valid() && Inv(env, m) && m.ctl == Callback
    ensures Progress(m, Step(env, m))
  {
    hide Shape, HeadsOk, Fns, StackSize, StatesOk, Accept, GoesDown;
    if !InFilter(m) {
      CallbackCrashes(env, m);
    } else if Last(m.stack).frame.filterResult == EXECUTE_HANDLER {
      AcceptProgress(env, m);
    } else {
      DeclineProgress(env, m);
    }
  }

  lemma CallbackCrashes(env: Env, m: Mach)
    requires m.ctl == Callback && !InFilter(m)
    ensures Progress(m, Step(env, m)) && Step(env, m).ctl == Halted(Crashed)
  {
  }

  lemma AcceptProgress(env: Env, m: Mach)
    requires env.Valid() && Inv(env, m) && m.ctl == Callback && InFilter(m)
    requires Last(m.stack).frame.filterResult == EXECUTE_HANDLER
    ensures GoesDown(m, Step(env, m))
  {
    hide Shape, HeadsOk, Fns, StackSize, Accept;
    var p := |m.stack| - 1;
    var w := Whole(m);
    AcceptKeeps(env, m.(stack := w), Last(m.stack).frame.context.value.why.kind, p);
    var m' := Step(env, m);
    SizePrefix(w, p + 1);
    SizeSame(w[..p + 1], m'.stack);
  }

  lemma DeclineProgress(env: Env, m: Mach)
    requires env.Valid() && Inv(env, m) && m.ctl == Callback && InFilter(m)
    requires Last(m.stack).frame.filterResult != EXECUTE_HANDLER
    ensures GoesDown(m, Step(env, m))
  {
    hide Shape, HeadsOk, Fns, StackSize, StatesOk, Accept;
    var p := |m.stack| - 1;
    var f := Last(m.stack).frame;
    var w := Whole(m);
    var m' := Step(env, m);
    if f.filterResult == CONTINUE_EXECUTION {
      assert m'.stack == w[p := m'.stack[p]];
      SizeSame(w, m'.stack);
    } else {
      assert m'.stack == w;
      FrameAt(env, w, p);
      TopIsOnChain(env, w[..p], ChainOf(env, f.context.value.why.kind));
    }
  }

  /** Every step of every run comes nearer to the end, unless it starts a handler block. */
  lemma StepProgress(env: Env, m: Mach)
    requires env.Valid() && Inv(env, m)
    ensures Progress(m, Step(env, m))
  {
    hide Inv, StepExec, StepLoop, StepCallback, StepReturn, StepLeave, StepSearch;
    match m.ctl
    case Exec(s) => ExecProgress(env, m, s);
    case Return => ReturnProgress(env, m);
    case Leaving => ReturnProgress(env, m);
    case Loop => LoopProgress(env, m);
    case Search(why, p) => SearchProgress(env, m, why, p);
    case Callback => CallbackProgress(env, m);
    case Halted(_) =>
  }

  // ----- whole runs -----

  /** How many handler blocks a record has seen started. */
  function Blocks(t: Trace): nat {
    if t == [] then 0 else Blocks(Init(t)) + if Last(t).Handling? then 1 else 0
  }

  lemma StepBlocks(env: Env, m: Mach)
    ensures Blocks(m.trace) <= Blocks(Step(env, m).trace)
    ensures StartsBlock(m, Step(env, m)) ==> Blocks(Step(env, m).trace) == Blocks(m.trace) + 1
  {
    StepAppends(env, m);
    var t, t' := m.trace, Step(env, m).trace;
    if t' != t { assert Init(t') == t; }
  }

  lemma {:induction false} BlocksGrow(env: Env, n: nat, m: Mach)
    ensures Blocks(m.trace) <= Blocks(Steps(env, n, m).trace)
  {
    hide Step, Blocks;
    if n > 0 {
      StepBlocks(env, m);
      BlocksGrow(env, n - 1, Step(env, m));
    }
  }

  lemma {:induction false} HaltsOrStartsOne(env: Env, m: Mach) returns (n: nat)
    requires env.Valid() && Inv(env, m)
    ensures var m' := Steps(env, n, m); m'.ctl.Halted? || Blocks(m'.trace) > Blocks(m.trace)
    decreases Left(m) + 3, Searched(m)
  {
    hide Inv, Step, Left, Searched, Blocks, StartsBlock;
    LeftIsNat(env, m);
    var m' := Step(env, m);
    StepProgress(env, m);
    StepKeepsInv(env, m);
    StepBlocks(env, m);
    LeftIsNat(env, m');
    assert Steps(env, 1, m) == Steps(env, 0, m');
    if m'.ctl.Halted? || StartsBlock(m, m') {
      n := 1;
    } else {
      n := HaltsOrStartsOne(env, m');
      assert Steps(env, n + 1, m) == Steps(env, n, m');
      n := n + 1;
    }
  }

  /** From every reachable state, and for every number: the machine halts, or comes to have
      started that many more handler blocks. */
  lemma {:induction false} HaltsOrRestarts(env: Env, k: nat, m: Mach) returns (n: nat)
    requires env.Valid() && Inv(env, m)
    ensures var m' := Steps(env, n, m); m'.ctl.Halted? || Blocks(m'.trace) >= Blocks(m.trace) + k
  {
    hide Inv, Blocks, Step;
    if k == 0 {
      n := 0;
    } else {
      n := HaltsOrStartsOne(env, m);
      var m1 := Steps(env, n, m);
      if !m1.ctl.Halted? {
        StepsKeepInv(env, n, m);
        var j := HaltsOrRestarts(env, k - 1, m1);
        StepsAdd(env, n, j, m);
        n := n + j;
      }
    }
  }

  ghost predicate Halts(env: Env, m: Mach) { exists n: nat :: Steps(env, n, m).ctl.Halted? }

  /** Fewer than some number of handler blocks are ever started. */
  ghost predicate Bounded(env: Env, m: Mach) {
    exists b: nat :: StaysUnder(env, m, b)
  }

  ghost predicate StaysUnder(env: Env, m: Mach, b: nat) {
    forall n: nat :: Blocks(Steps(env, n, m).trace) <= b
  }

  /** A run, clean or not, halts if and only if it starts finitely many handler blocks. */
  lemma HaltsIffBounded(env: Env, m: Mach)
    requires env.Valid() && Inv(env, m)
    ensures Halts(env, m) <==> Bounded(env, m)
  {
    hide Inv, Blocks;
    if Halts(env, m) {
      var n: nat :| Steps(env, n, m).ctl.Halted?;
      var b := Blocks(Steps(env, n, m).trace);
      forall j: nat ensures Blocks(Steps(env, j, m).trace) <= b { BlocksUpTo(env, j, n, m); }
      assert StaysUnder(env, m, b);
    }
    if Bounded(env, m) {
      var b: nat :| StaysUnder(env, m, b);
      var n := HaltsOrRestarts(env, b + 1, m);
      UnderAt(env, m, b, n);
      assert Steps(env, n, m).ctl.Halted?;
    }
  }

  lemma UnderAt(env: Env, m: Mach, b: nat, n: nat)
    requires StaysUnder(env, m, b)
    ensures Blocks(Steps(env, n, m).trace) <= b
  {
  }

  lemma BlocksUpTo(env: Env, j: nat, n: nat, m: Mach)
    requires Steps(env, n, m).ctl.Halted?
    ensures Blocks(Steps(env, j, m).trace) <= Blocks(Steps(env, n, m).trace)
  {
    hide Blocks;
    if j <= n {
      StepsAdd(env, j, n - j, m);
      BlocksGrow(env, n - j, Steps(env, j, m));
    } else {
      StepsAdd(env, n, j - n, m);
      HaltedStays(env, j - n, Steps(env, n, m));
    }
  }
}
