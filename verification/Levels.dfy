/** What a run keeps of the stack it was begun on, for as long as it stays above it, and what
    it therefore gives back when it returns there: for every program and every filter, whether
    the run is clean or not. */
module Levels {
  import opened Selectors
  import opened Programs
  import opened Machine
  import opened Invariant

  // ----- one step -----

  /** Only the frame whose filter is running holds a copy of the stack, and at label 0 that
      frame is in state 1. */
  predicate Sane(m: Mach) {
    && NoContexts(Whole(m))
    && (m.ctl.Loop? && InFilter(m) ==> Last(m.stack).frame.state == 1)
  }

  predicate NoContexts(w: Stack) {
    forall i :: 0 <= i < |w| && w[i].KTry? ==> w[i].frame.context.None?
  }

  /** From `a` to `b` at most one cell is added, and every cell that both have is the same but
      for what searches and the state loop write. */
  predicate Kept(a: Stack, b: Stack) {
    |b| <= |a| + 1 && forall i :: 0 <= i < |a| && i < |b| ==> Core(a[i]) == Core(b[i])
  }

  lemma InvIsSane(env: Env, m: Mach)
    requires Inv(env, m)
    ensures Sane(m)
  {
    hide HeadsOk, Fns, StatesOk;
    var w := Whole(m);
    forall i | 0 <= i < |w| && w[i].KTry? ensures w[i].frame.context.None? {
      FrameAt(env, w, i);
    }
  }

  lemma ExecKeepsCells(env: Env, m: Mach, s: Stmt)
    requires Sane(m) && m.ctl == Exec(s)
    ensures Sane(StepExec(env, m, s)) && Kept(Whole(m), Whole(StepExec(env, m, s)))
  {
    hide Whole, InFilter, Head, WalkOs2, Install;
    var m' := StepExec(env, m, s);
    ExecWhole(env, m, s);
    if s.Try? { InstallStep(env, m, s); }
    if s.Raise? {
      WalkIsSame(m.stack, Head(m.heads, OS2_SEL));
      assert forall i :: 0 <= i < |m.stack| ==> Core(m.stack[i]) == Core(m'.stack[i]);
    }
  }

  lemma LoopInFilterKeepsCells(env: Env, m: Mach)
    requires Sane(m) && m.ctl == Loop && InFilter(m)
    ensures Sane(StepLoop(env, m)) && Kept(Whole(m), Whole(StepLoop(env, m)))
  {
    hide Depth, Head, Remove;
    var m' := StepLoop(env, m);
    var p := |m.stack| - 1;
    var k := Last(m'.stack);
    assert m'.ctl == Callback && InFilter(m');
    assert Whole(m') == Whole(m)[p := k.(frame := k.frame.(context := None))];
    assert Whole(m)[p] == Last(m.stack).(frame := Last(m.stack).frame.(context := None));
  }

  lemma LoopKeepsCells(env: Env, m: Mach)
    requires Sane(m) && m.ctl == Loop
    ensures Sane(StepLoop(env, m)) && Kept(Whole(m), Whole(StepLoop(env, m)))
  {
    hide Depth, Head;
    if InFilter(m) {
      LoopInFilterKeepsCells(env, m);
    } else if m.AtTry() {
      var p := |m.stack| - 1;
      var m' := StepLoop(env, m);
      assert m.stack[p].frame.context.None?;
      assert !InFilter(m') && Whole(m') == m'.stack;
      if |m'.stack| == |m.stack| { assert m'.stack == m.stack[p := m'.stack[p]]; }
    }
  }

  lemma SearchKeepsCells(env: Env, m: Mach, why: Dispatch, p: Ptr)
    requires Sane(m) && m.ctl == Search(why, p)
    ensures Sane(StepSearch(env, m, why, p)) && Kept(Whole(m), Whole(StepSearch(env, m, why, p)))
  {
    var m' := StepSearch(env, m, why, p);
    if m'.ctl == Loop {
      var k := Last(m'.stack);
      assert m'.stack == m.stack[..p] + [k];
      assert Whole(m') == m.stack[p := k.(frame := k.frame.(context := None))];
    }
  }

  lemma CallbackKeepsCells(env: Env, m: Mach)
    requires Sane(m) && m.ctl == Callback
    ensures Sane(StepCallback(env, m)) && Kept(Whole(m), Whole(StepCallback(env, m)))
  {
    hide RtlUnwind, Head, Accept;
    if InFilter(m) {
      var p := |m.stack| - 1;
      var f := Last(m.stack).frame;
      var w := Whole(m);
      assert w[p] == Last(m.stack).(frame := f.(context := None));
      var m' := StepCallback(env, m);
      if f.filterResult == EXECUTE_HANDLER {
        AcceptKeepsCells(env, m.(stack := w), p);
      } else if f.filterResult == CONTINUE_EXECUTION {
        assert m'.stack == w[p := m'.stack[p]];
      } else {
        assert m'.stack == w;
      }
    }
  }

  lemma AcceptKeepsCells(env: Env, m: Mach, p: Ptr)
    requires IsFrame(m.stack, p) && m.ctl == Callback
    requires NoContexts(m.stack)
    ensures Sane(Accept(env, m, p)) && Kept(m.stack, Whole(Accept(env, m, p)))
  {
    var m' := Accept(env, m, p);
    if m'.ctl == Loop {
      assert m'.stack == m.stack[..p] + [Last(m'.stack)];
    }
  }

  lemma ReturnKeepsCells(env: Env, m: Mach)
    requires Sane(m) && (m.ctl == Return || m.ctl == Leaving)
    ensures Sane(Step(env, m)) && Kept(Whole(m), Whole(Step(env, m)))
  {
    if m.AtTry() {
      var p := |m.stack| - 1;
      var m' := Step(env, m);
      assert m.stack[p].frame.context.None?;
      assert m'.stack == m.stack[p := m'.stack[p]];
      assert !InFilter(m');
    }
  }

  lemma HaltedKeepsCells(env: Env, m: Mach)
    requires Sane(m) && m.ctl.Halted?
    ensures Sane(Step(env, m)) && Kept(Whole(m), Whole(Step(env, m)))
  {
  }

  /** Every step of every run. */
  lemma StepKeeps(env: Env, m: Mach)
    requires Sane(m)
    ensures Sane(Step(env, m)) && Kept(Whole(m), Whole(Step(env, m)))
  {
    hide Sane, Kept;
    match m.ctl
    case Exec(s) => ExecKeepsCells(env, m, s);
    case Return => ReturnKeepsCells(env, m);
    case Leaving => ReturnKeepsCells(env, m);
    case Loop => LoopKeepsCells(env, m);
    case Search(why, p) => SearchKeepsCells(env, m, why, p);
    case Callback => CallbackKeepsCells(env, m);
    case Halted(_) => HaltedKeepsCells(env, m);
  }

  // ----- what the steps of loops and handlers write -----

  /** A filter has let the exception pass. */
  predicate Passes(m: Mach) {
    && m.ctl == Callback && InFilter(m)
    && Last(m.stack).frame.filterResult != EXECUTE_HANDLER && Last(m.stack).frame.filterResult != CONTINUE_EXECUTION
  }

  lemma NoContext(env: Env, m: Mach, p: Ptr)
    requires Inv(env, m) && IsFrame(Whole(m), p)
    ensures Whole(m)[p].frame.context.None?
  {
    FrameAt(env, Whole(m), p);
  }

  lemma WholeNow(m: Mach)
    requires !InFilter(m)
    ensures Whole(m) == m.stack
  {
  }

  /** One turn of the loop, outside a filter. */
  lemma TurnIs(env: Env, m: Mach)
    requires m.ctl == Loop && m.AtTry() && Last(m.stack).frame.state <= 3
    ensures var m' := StepLoop(env, m);
      var k := Last(m.stack);
      var f := k.frame;
      var d := Depth(Init(m.stack));
      var answer := Verdict(env, k.clause, f.record, m.trace);
      && m'.AtTry() && m'.stack == Init(m.stack) + [Last(m'.stack)] && m'.calls == m.calls
      && m'.trace == m.trace + [if f.state == 0 then Enter(d) else if f.state == 1 then Asked(d, f.record, answer)
                                else if f.state == 3 then Removed(d) else Handling(d)]
      && m'.ctl == (if f.state == 0 then Exec(k.body) else if f.state == 1 then Callback
                    else if f.state == 3 then Loop else Exec(k.handler))
      && Last(m'.stack) == k.(frame := Last(m'.stack).frame,
           at := if f.state == 0 then InBody else if f.state == 1 || f.state == 3 then k.at else InHandler)
      && Last(m'.stack).frame == (if f.state == 1 then f.(filterResult := answer)
                                  else if f.state == 3 then f.(state := 4) else f)
  {
    hide Depth, Head, Verdict;
  }

  lemma LoopPops(env: Env, m: Mach)
    requires m.ctl == Loop && m.AtTry() && Last(m.stack).frame.state > 3
    ensures StepLoop(env, m) == m.Pop().Go(Return)
  {
  }

  /** The handler takes the exception; what it writes into the frame. */
  lemma TakesIs(env: Env, m: Mach)
    requires env.Valid() && Inv(env, m) && m.ctl == Callback && InFilter(m)
    requires Last(m.stack).frame.filterResult == EXECUTE_HANDLER
    ensures var m' := Step(env, m);
      var p := |m.stack| - 1;
      && Inv(env, m') && m'.ctl == Loop && !InFilter(m') && m'.AtTry()
      && (m'.trace, m'.calls, m'.fs) == (m.trace, m.calls, m.fs)
      && |m'.stack| == p + 1 && m'.stack == Init(m.stack) + [Last(m'.stack)]
      && Last(m'.stack) == Last(m.stack).(frame := Last(m'.stack).frame)
      && var f, g := Last(m.stack).frame, Last(m'.stack).frame;
         && (g.filterResult, g.esp, g.record, g.state) == (f.filterResult, f.esp, f.record, 2)
         && g.Win32Frame? == f.Win32Frame?
  {
    hide Shape, HeadsOk, Fns, RtlUnwind, Head;
    var p := |m.stack| - 1;
    var back := m.(stack := Whole(m));
    assert back.stack[p] == Last(m.stack).(frame := Last(m.stack).frame.(context := None));
    AcceptKeeps(env, back, Last(m.stack).frame.context.value.why.kind, p);
    var m' := Accept(env, back, p);
    assert Step(env, m) == m';
    assert m'.stack[..p] == Init(m.stack);
    assert m'.stack == m'.stack[..p] + [Last(m'.stack)];
  }

  /** The exception is resumed, or goes on to the next frame. */
  lemma DeclineIs(env: Env, m: Mach)
    requires m.ctl == Callback && InFilter(m) && Last(m.stack).frame.filterResult != EXECUTE_HANDLER
    ensures var m' := Step(env, m);
      var p := |m.stack| - 1;
      var f := Last(m.stack).frame;
      && (m'.trace, m'.calls) == (m.trace, m.calls)
      && (Passes(m) ==> m'.ctl == Search(f.context.value.why, NextLink(f)) && m'.fs == m.fs && m'.stack == Whole(m))
      && (!Passes(m) ==>
            && m'.ctl == Return && |m'.stack| == |Whole(m)| && m'.stack == Whole(m)[p := m'.stack[p]]
            && m'.stack[p] == Last(m.stack).(frame := f.(context := None, state := 0)))
  {
  }

  lemma LoopFs(env: Env, m: Mach)
    requires m.ctl == Loop && m.AtTry()
    ensures var f := Last(m.stack).frame;
      StepLoop(env, m).fs == if f.state == 3 && f.Win32Frame? then f.win32FS else m.fs
  {
    hide Depth, Verdict, Head;
  }

  lemma FilterBounds(m: Mach)
    requires InFilter(m)
    ensures |m.stack| <= |Whole(m)|
  {
  }

  lemma StrayCrashes(env: Env, m: Mach)
    requires m.ctl == Callback && m.AtTry() && !InFilter(m)
    ensures Step(env, m) == m.Crash()
  {
  }

  lemma ResumedFs(env: Env, m: Mach)
    requires m.ctl == Callback && InFilter(m) && Last(m.stack).frame.filterResult != EXECUTE_HANDLER
    ensures !Passes(m) ==> Step(env, m).fs == Last(m.stack).frame.context.value.why.fs
  {
  }

  lemma KeepsAll(env: Env, m: Mach)
    requires env.Valid() && Inv(env, m)
    ensures Inv(env, Step(env, m)) && Kept(Whole(m), Whole(Step(env, m)))
  {
    StepKeepsInv(env, m);
    InvIsSane(env, m);
    StepKeeps(env, m);
  }

  lemma ExecWhole(env: Env, m: Mach, s: Stmt)
    requires m.ctl == Exec(s)
    ensures Whole(m) == m.stack && Whole(Step(env, m)) == Step(env, m).stack && !InFilter(Step(env, m))
  {
    hide Head, WalkOs2;
    if s.Try? { InstallStep(env, m, s); }
  }

  // ----- runs that stay above a stack level -----

  /** Throughout the first `n` steps the stack, with what a handler has put aside, has `h`
      cells or more. */
  predicate StaysAbove(env: Env, n: nat, m: Mach, h: nat) {
    forall j: nat :: j <= n ==> |Whole(Steps(env, j, m))| >= h
  }

  /** Step by step: it is so now, and stays so from the next state on. */
  lemma StaysAboveIff(env: Env, n: nat, m: Mach, h: nat)
    ensures StaysAbove(env, n, m, h) <==>
      |Whole(m)| >= h && (n > 0 ==> StaysAbove(env, n - 1, Step(env, m), h))
  {
    assert Steps(env, 0, m) == m;
    if StaysAbove(env, n, m, h) && n > 0 {
      forall j: nat | j <= n - 1 ensures |Whole(Steps(env, j, Step(env, m)))| >= h {
        assert Steps(env, j + 1, m) == Steps(env, j, Step(env, m));
      }
    }
    if |Whole(m)| >= h && (n > 0 ==> StaysAbove(env, n - 1, Step(env, m), h)) {
      forall j: nat | j <= n ensures |Whole(Steps(env, j, m))| >= h {
        if j > 0 { assert Steps(env, j, m) == Steps(env, j - 1, Step(env, m)); }
      }
    }
  }

  /** The lowest `h` cells of `a` and `b` are the same but for what searches and loops write. */
  predicate KeptBelow(a: Stack, b: Stack, h: nat) {
    h <= |a| && h <= |b| && Same(a[..h], b[..h])
  }

  lemma KeptBelowTrans(a: Stack, b: Stack, c: Stack, h: nat)
    requires KeptBelow(a, b, h) && Kept(b, c) && h <= |c|
    ensures KeptBelow(a, c, h)
  {
    forall i | 0 <= i < h ensures Core(a[..h][i]) == Core(c[..h][i]) {
      assert Core(a[..h][i]) == Core(b[..h][i]);
    }
  }

  lemma KeptBelowCell(a: Stack, b: Stack, h: nat, i: nat)
    requires KeptBelow(a, b, h) && i < h
    ensures Core(a[i]) == Core(b[i])
  {
    assert Core(a[..h][i]) == Core(b[..h][i]);
  }

  /** The one fact behind everything below: as long as a run stays above a level, it leaves
      the cells under it alone. */
  lemma {:induction false} RunKeepsBelow(env: Env, n: nat, m: Mach, h: nat)
    requires Sane(m) && StaysAbove(env, n, m, h)
    ensures Sane(Steps(env, n, m)) && KeptBelow(Whole(m), Whole(Steps(env, n, m)), h)
  {
    hide Sane, Kept, KeptBelow, Whole, Step;
    assert |Whole(Steps(env, n, m))| >= h;
    if n == 0 {
      SelfKept(Whole(m), h);
    } else {
      StaysBefore(env, n, m, h);
      RunKeepsBelow(env, n - 1, m, h);
      LastStep(env, n, m);
      StepKeeps(env, Steps(env, n - 1, m));
      KeptBelowTrans(Whole(m), Whole(Steps(env, n - 1, m)), Whole(Steps(env, n, m)), h);
    }
  }

  lemma SelfKept(a: Stack, h: nat)
    requires h <= |a|
    ensures KeptBelow(a, a, h)
  {
  }

  lemma StaysBefore(env: Env, n: nat, m: Mach, h: nat)
    requires n > 0 && StaysAbove(env, n, m, h)
    ensures StaysAbove(env, n - 1, m, h)
  {
  }

  lemma LastStep(env: Env, n: nat, m: Mach)
    requires n > 0
    ensures Steps(env, n, m) == Step(env, Steps(env, n - 1, m))
  {
    StepsAdd(env, n - 1, 1, m);
    assert Steps(env, 1, Steps(env, n - 1, m)) == Steps(env, 0, Step(env, Steps(env, n - 1, m)));
  }

  // ----- both chains -----

  /** The stack has the same cells, and both chains the same heads. */
  predicate Balanced(env: Env, m: Mach, m': Mach) {
    && Same(m.stack, m'.stack)
    && Head(m'.heads, OS2_SEL) == Head(m.heads, OS2_SEL)
    && Head(m'.heads, env.tebSel) == Head(m.heads, env.tebSel)
  }

  /** Every statement of every program that comes to its end gives both chain heads back:
      whatever frames its exceptions have skipped, and also when exceptions were raised in
      except and finally blocks and those blocks ran again. */
  lemma ChainsBalance(env: Env, n: nat, m: Mach)
    requires env.Valid() && Inv(env, m) && m.ctl.Exec? && StaysAbove(env, n, m, |m.stack|)
    requires var m' := Steps(env, n, m); m'.ctl == Return && |m'.stack| == |m.stack|
    ensures Balanced(env, m, Steps(env, n, m))
  {
    hide Shape, Fns, StatesOk, StaysAbove, Same, Steps, Sane, NoContexts;
    var m' := Steps(env, n, m);
    InvIsSane(env, m);
    RunKeepsBelow(env, n, m, |m.stack|);
    StepsKeepInv(env, n, m);
    assert m.stack[..|m.stack|] == m.stack && m'.stack[..|m.stack|] == m'.stack;
    SameTop(env, m.stack, m'.stack, Os2Chain);
    SameTop(env, m.stack, m'.stack, Win32Chain);
  }

  // ----- FS -----

  /** The next step removes the frame in cell h - 1. */
  predicate Removes(h: nat, m: Mach) {
    m.ctl == Loop && |m.stack| == h && m.AtTry() && Last(m.stack).frame.state == 3
  }

  /** FS, the head of the OS/2 chain and the head in the TIB that FS names are those of `m`. */
  predicate FsRestored(m: Mach, m': Mach) {
    m'.fs == m.fs && Head(m'.heads, OS2_SEL) == Head(m.heads, OS2_SEL) && Head(m'.heads, m.fs) == Head(m.heads, m.fs)
  }

  /** Removing the frame that `m` has installed restores what `m` had, whatever has become of
      FS, the chains and the rest of the frame in between. */
  lemma RemovalRestores(env: Env, m: Mach, b: Mach)
    requires env.variant.Win32Tib? && m.ctl.Exec? && m.ctl.s.Try?
    requires Removes(|m.stack| + 1, b) && Sane(b)
    requires KeptBelow(Whole(Step(env, m)), Whole(b), |m.stack| + 1)
    ensures FsRestored(m, Step(env, b))
  {
    hide KeptBelow, Depth;
    var h := |m.stack|;
    var m1 := Step(env, m);
    KeptBelowCell(Whole(m1), Whole(b), h + 1, h);
    assert Last(m1.stack) == m1.stack[h];
    assert Last(b.stack) == b.stack[h];
  }

  /** A step that returns to a lower stack pops a frame that has been unlinked, or a wrapper. */
  lemma ReturnsBelow(env: Env, m: Mach, h: nat)
    requires Sane(m) && |Whole(m)| > h
    requires Step(env, m).ctl == Return && |Step(env, m).stack| == h
    ensures |m.stack| == h + 1 && !InFilter(m)
    ensures Unlinked(m) || (m.ctl == Return && (Last(m.stack).KWrap? || Last(m.stack).KFn?))
  {
    hide RtlUnwind, Depth, WalkOs2, NoContexts;
    match m.ctl
    case Exec(_) => assert false;
    case Search(_, _) => assert false;
    case Callback => assert false;
    case _ =>
  }

  /** Only the removal makes a frame's state 4. */
  lemma UnlinkedIsRemoved(env: Env, m: Mach)
    requires Inv(env, m) && Unlinked(Step(env, m)) && !InFilter(Step(env, m))
    ensures Removes(|m.stack|, m) && |Step(env, m).stack| == |m.stack|
  {
    hide Shape, HeadsOk, Fns, RtlUnwind, WalkOs2, Depth, Head, StepExec, StatesOk;
    match m.ctl
    case Exec(s) =>
      ExecInState(env, m, s);
      assert false;
    case Return =>
      ReturnInState(env, m);
      assert false;
    case _ =>
  }

  lemma ExecInState(env: Env, m: Mach, s: Stmt)
    requires m.ctl == Exec(s)
    ensures !Unlinked(StepExec(env, m, s))
  {
    hide Head, WalkOs2;
    if s.Try? { InstallStep(env, m, s); }
  }

  lemma ReturnInState(env: Env, m: Mach)
    requires Inv(env, m) && m.ctl == Return
    ensures !Unlinked(StepReturn(m))
  {
    hide Shape, HeadsOk, Fns;
    if m.AtTry() { assert Whole(m)[|m.stack| - 1].frame.state <= 2; }
  }

  lemma StaysNow(env: Env, n: nat, m: Mach, h: nat)
    requires StaysAbove(env, n, m, h)
    ensures |Whole(Steps(env, n, m))| >= h
  {
  }

  /** When the frame that `m` has installed is found unlinked, it has just been removed. */
  lemma UnlinkedRestores(env: Env, n: nat, m: Mach)
    requires env.Valid() && env.variant.Win32Tib? && Inv(env, m) && m.ctl.Exec? && m.ctl.s.Try?
    requires StaysAbove(env, n, Step(env, m), |m.stack| + 1)
    requires var b := Steps(env, n, Step(env, m)); Unlinked(b) && |b.stack| == |m.stack| + 1 && !InFilter(b)
    ensures FsRestored(m, Steps(env, n, Step(env, m)))
  {
    hide Inv, Sane, StepExec, StepLoop, KeptBelow, StaysAbove, FsRestored, Removes, Whole, Unlinked;
    var h := |m.stack|;
    var m1 := Step(env, m);
    InstalledAbove(env, m);
    if n > 0 {
      LastStep(env, n, m1);
      StaysBefore(env, n, m1, h + 1);
      InvIsSane(env, m1);
      RunKeepsBelow(env, n - 1, m1, h + 1);
      StepsKeepInv(env, n - 1, m1);
      UnlinkedIsRemoved(env, Steps(env, n - 1, m1));
      RemovalRestores(env, m, Steps(env, n - 1, m1));
    }
  }

  /** A __try statement that comes to its end, in the Win32-TIB variant: both chains are as
      before, FS is what it was at entry, and so is the head cell of the TIB that FS named. */
  lemma TryRestoresFs(env: Env, n: nat, m: Mach)
    requires env.Valid() && env.variant.Win32Tib? && Inv(env, m) && m.ctl.Exec? && m.ctl.s.Try?
    requires StaysAbove(env, n, Step(env, m), |m.stack| + 1)
    requires var m' := Steps(env, n + 1, Step(env, m)); m'.ctl == Return && |m'.stack| == |m.stack|
    ensures var m' := Steps(env, n + 1, Step(env, m)); Balanced(env, m, m') && FsRestored(m, m')
  {
    hide Inv, Sane, Step, KeptBelow, Balanced, Steps, StaysAbove, Whole, Unlinked;
    var h := |m.stack|;
    var m1 := Step(env, m);
    InstalledAbove(env, m);
    LastStep(env, n + 1, m1);
    EndsAbove(env, n, m, h);
    ChainsBalance(env, n + 2, m);
    InvIsSane(env, m1);
    RunKeepsBelow(env, n, m1, h + 1);
    StaysNow(env, n, m1, h + 1);
    var b := Steps(env, n, m1);
    ReturnsBelow(env, b, h);
    TopCellKind(m1, b, h);
    UnlinkedRestores(env, n, m);
    PopKeepsFs(env, b);
  }

  lemma InstalledAbove(env: Env, m: Mach)
    requires env.Valid() && Inv(env, m) && m.ctl.Exec? && m.ctl.s.Try?
    ensures var m1 := Step(env, m);
      Inv(env, m1) && !Unlinked(m1) && |Whole(m1)| == |m.stack| + 1 && Whole(m1)[|m.stack|].KTry?
  {
    InstallKeeps(env, m, m.ctl.s);
  }

  lemma PopKeepsFs(env: Env, m: Mach)
    requires Unlinked(m)
    ensures Step(env, m).fs == m.fs && Step(env, m).heads == m.heads
  {
  }

  /** Cell `h` is still of its kind, and the wrappers are still what they were. */
  lemma TopCellKind(m: Mach, b: Mach, h: nat)
    requires KeptBelow(Whole(m), Whole(b), h + 1) && |b.stack| == h + 1 && !InFilter(b)
    ensures Whole(m)[h].KTry? <==> Last(b.stack).KTry?
    ensures !Whole(m)[h].KTry? ==> Last(b.stack) == Whole(m)[h]
  {
    KeptBelowCell(Whole(m), Whole(b), h + 1, h);
    assert Last(b.stack) == b.stack[h];
  }

  /** A run that stays above the new level, and one step to return, stays above the old one. */
  lemma EndsAbove(env: Env, n: nat, m: Mach, h: nat)
    requires m.ctl.Exec? && |m.stack| == h && StaysAbove(env, n, Step(env, m), h + 1)
    requires var m' := Steps(env, n + 1, Step(env, m)); m'.ctl == Return && |m'.stack| == h
    ensures StaysAbove(env, n + 2, m, h) && Steps(env, n + 2, m) == Steps(env, n + 1, Step(env, m))
  {
    hide Step;
    forall j: nat | j <= n + 2 ensures |Whole(Steps(env, j, m))| >= h {
      if j > 0 { assert Steps(env, j, m) == Steps(env, j - 1, Step(env, m)); }
    }
  }

  /** A wrapped OS/2 call or an instrumented function that comes to its end gives its caller
      the exact selector back, whatever the call tree below it has done to FS, and both
      chains. */
  lemma WrapperRestoresFs(env: Env, n: nat, m: Mach)
    requires env.Valid() && Inv(env, m) && m.ctl.Exec? && (m.ctl.s.OS2Call? || m.ctl.s.Traced?)
    requires StaysAbove(env, n, Step(env, m), |m.stack| + 1)
    requires var m' := Steps(env, n + 1, Step(env, m)); m'.ctl == Return && |m'.stack| == |m.stack|
    ensures var m' := Steps(env, n + 1, Step(env, m)); Balanced(env, m, m') && m'.fs == m.fs
  {
    hide Inv, Sane, StepLoop, KeptBelow, Balanced, Steps, StaysAbove;
    var h := |m.stack|;
    var m1 := Step(env, m);
    StepKeepsInv(env, m);
    InvIsSane(env, m1);
    SelectorSurvivesShort(m.fs);
    LastStep(env, n + 1, m1);
    EndsAbove(env, n, m, h);
    ChainsBalance(env, n + 2, m);
    RunKeepsBelow(env, n, m1, h + 1);
    StaysNow(env, n, m1, h + 1);
    var b := Steps(env, n, m1);
    ReturnsBelow(env, b, h);
    TopCellKind(m1, b, h);
    assert Whole(m1) == m.stack + [Whole(m1)[h]];
    WrapperPops(env, b);
  }

  lemma WrapperPops(env: Env, m: Mach)
    requires m.ctl == Return && m.stack != [] && (Last(m.stack).KWrap? || Last(m.stack).KFn?)
    requires Step(env, m).ctl == Return
    ensures Step(env, m).fs == Last(m.stack).sel
  {
  }
}
