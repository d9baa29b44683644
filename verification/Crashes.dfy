/** When runs crash: exactly if a handler block ends after its own filter has resumed an
    exception of it. */
module Crashes {
  import opened Selectors
  import opened Programs
  import opened Machine
  import opened Invariant
  import opened Levels
  import opened Lowering
  import opened Correctness
  import opened Halting
  import opened Visits

  // ----- well-formed code on the stack -----

  /** A __leave here has a __try of its own function to end. */
  predicate InTry(w: Stack) {
    w != [] && (Last(w).KTry? || (Last(w).KSeq? && InTry(Init(w))))
  }

  predicate SlotWf(k: Slot, inTry: bool) {
    match k
    case KSeq(next) => WellFormed(next, inTry)
    case KTry(_, _, body, handler, _) => WellFormed(body, true) && WellFormed(handler, true)
    case _ => true
  }

  predicate SlotsWf(w: Stack) {
    w != [] ==> SlotsWf(Init(w)) && SlotWf(Last(w), InTry(Init(w)))
  }

  predicate Wf(m: Mach) {
    && SlotsWf(Whole(m))
    && (m.ctl.Exec? ==> WellFormed(m.ctl.s, InTry(m.stack)))
    && (m.ctl == Leaving ==> InTry(m.stack))
  }

  lemma {:induction false} SlotsPrefix(w: Stack, k: nat)
    requires SlotsWf(w) && k <= |w|
    ensures SlotsWf(w[..k])
  {
    if k == |w| {
      assert w[..k] == w;
    } else {
      SlotsPrefix(Init(w), k);
      assert Init(w)[..k] == w[..k];
    }
  }

  lemma {:induction false} SlotsSame(a: Stack, b: Stack)
    requires Same(a, b)
    ensures InTry(a) == InTry(b) && SlotsWf(a) == SlotsWf(b)
  {
    if a != [] {
      SameInit(a, b);
      SlotsSame(Init(a), Init(b));
    }
  }

  /** Where a step pushes nothing, the code on the stack stays well-formed. */
  lemma SlotsKept(a: Stack, b: Stack)
    requires Kept(a, b) && |b| <= |a| && SlotsWf(a)
    ensures SlotsWf(b)
  {
    SlotsPrefix(a, |b|);
    SlotsSame(a[..|b|], b);
  }

  lemma SlotsPush(w: Stack, k: Slot)
    requires SlotsWf(w) && SlotWf(k, InTry(w))
    ensures SlotsWf(w + [k])
    ensures InTry(w + [k]) <==> k.KTry? || (k.KSeq? && InTry(w))
  {
    assert Init(w + [k]) == w;
  }

  lemma ExecWf(env: Env, m: Mach, s: Stmt)
    requires env.Valid() && Inv(env, m) && Wf(m) && m.ctl == Exec(s)
    ensures Wf(Step(env, m)) && Step(env, m).ctl != Halted(Crashed)
  {
    hide Inv, SlotsWf, InTry, Install, WalkOs2, Head, StepLoop, StepReturn, StepLeave, StepSearch, StepCallback;
    var m' := Step(env, m);
    match s
    case Raise(kind, code) =>
      RaiseKeeps(env, m, kind, code);
      SlotsSame(m.stack, m'.stack);
    case Try(_, _, _) =>
      InstallKeeps(env, m, s);
      assert m'.stack == m.stack + [Last(m'.stack)];
      SlotsPush(m.stack, Last(m'.stack));
    case Seq(_, b) => SlotsPush(m.stack, KSeq(b));
    case OS2Call(_, _) => SlotsPush(m.stack, Last(m'.stack)); assert m'.stack == m.stack + [Last(m'.stack)];
    case Traced(_, _) => SlotsPush(m.stack, Last(m'.stack)); assert m'.stack == m.stack + [Last(m'.stack)];
    case _ =>
  }

  lemma ReturnWf(env: Env, m: Mach)
    requires env.Valid() && Inv(env, m) && Wf(m) && (m.ctl == Return || m.ctl == Leaving)
    ensures Wf(Step(env, m)) && Step(env, m).ctl != Halted(Crashed)
  {
    hide HeadsOk, StatesOk, StepLoop, StepExec, StepSearch, StepCallback;
    var m' := Step(env, m);
    InvIsSane(env, m);
    StepKeeps(env, m);
    if m.AtTry() {
      assert m.stack[|m.stack| - 1].frame.context.None?;
      assert !InFilter(m');
      SlotsKept(m.stack, m'.stack);
    } else if m.stack != [] && m.ctl == Return && Last(m.stack).KFn? {
      CallsPending(env, m);
    }
  }

  lemma LoopWf(env: Env, m: Mach)
    requires env.Valid() && Inv(env, m) && Wf(m) && m.ctl == Loop
    ensures Wf(Step(env, m)) && Step(env, m).ctl != Halted(Crashed)
  {
    hide Shape, HeadsOk, Fns, StatesOk, StepExec, StepReturn, StepLeave, StepSearch, StepCallback, Depth, Head;
    InvIsSane(env, m);
    StepKeeps(env, m);
    var m' := Step(env, m);
    LoopShrinks(env, m);
    SlotsKept(Whole(m), Whole(m'));
    if m'.ctl.Exec? {
      var k := Last(m'.stack);
      assert m'.stack == Init(m'.stack) + [k];
      SlotsPush(Init(m'.stack), k);
    }
  }

  lemma LoopShrinks(env: Env, m: Mach)
    requires Inv(env, m) && m.ctl == Loop
    ensures |Whole(Step(env, m))| <= |Whole(m)|
    ensures var m' := Step(env, m);
      m'.ctl.Exec? ==>
        && Whole(m') == m'.stack && m'.AtTry()
        && (m'.ctl.s == Last(m'.stack).body || m'.ctl.s == Last(m'.stack).handler)
  {
    hide Shape, HeadsOk, Fns, StatesOk, Depth, Head;
  }

  lemma SearchWf(env: Env, m: Mach, why: Dispatch, p: Ptr)
    requires env.Valid() && Inv(env, m) && Wf(m) && m.ctl == Search(why, p)
    ensures Wf(Step(env, m)) && Step(env, m).ctl != Halted(Crashed)
  {
    hide Shape, HeadsOk, Fns, StatesOk, SlotsWf, InTry;
    InvIsSane(env, m);
    StepKeeps(env, m);
    if IsFrame(m.stack, p) && !(m.stack[p].frame.Win32Frame? && m.fs == OS2_SEL) {
      EnterFilterKeeps(env, m, why, p);
    }
    SlotsKept(Whole(m), Whole(Step(env, m)));
  }

  lemma CallbackWf(env: Env, m: Mach)
    requires env.Valid() && Inv(env, m) && Wf(m) && m.ctl == Callback
    ensures Wf(Step(env, m))
    ensures Step(env, m).ctl == Halted(Crashed) <==> !InFilter(m)
  {
    hide Shape, HeadsOk, Fns, SlotsWf, InTry, Accept;
    InvIsSane(env, m);
    StepKeeps(env, m);
    var m' := Step(env, m);
    if InFilter(m) && Last(m.stack).frame.filterResult == EXECUTE_HANDLER {
      var p := |m.stack| - 1;
      AcceptKeeps(env, m.(stack := Whole(m)), Last(m.stack).frame.context.value.why.kind, p);
    }
    SlotsKept(Whole(m), Whole(m'));
  }

  /** Well-formed code stays well-formed, and a crash only comes from a callback without a
      handler that waits for it. */
  lemma StepWf(env: Env, m: Mach)
    requires env.Valid() && Inv(env, m) && Wf(m)
    ensures Wf(Step(env, m))
    ensures Step(env, m).ctl == Halted(Crashed) ==> m.ctl == Halted(Crashed) || (m.ctl == Callback && !InFilter(m))
  {
    hide Inv, Wf, Step;
    match m.ctl
    case Exec(s) => ExecWf(env, m, s);
    case Return => ReturnWf(env, m);
    case Leaving => ReturnWf(env, m);
    case Loop => LoopWf(env, m);
    case Search(why, p) => SearchWf(env, m, why, p);
    case Callback => CallbackWf(env, m);
    case Halted(_) => HaltedStep(env, m);
  }

  lemma HaltedStep(env: Env, m: Mach)
    requires m.ctl.Halted?
    ensures Step(env, m) == m
  {
  }

  // ----- where a crash comes from -----

  /** The loop is in state 1, or about to jump back to the handler, and no handler waits. */
  predicate Stray(m: Mach) {
    (m.ctl.Loop? && m.AtTry() && !InFilter(m) && Last(m.stack).frame.state == 1) || (m.ctl == Callback && !InFilter(m))
  }

  /** A handler block ends while its frame is in state 0. */
  predicate EndsInZero(m: Mach) {
    m.ctl == Return && m.AtTry() && Last(m.stack).at.InHandler? && Last(m.stack).frame.state == 0
  }

  lemma StrayStep(env: Env, m: Mach)
    requires env.Valid() && Inv(env, m) && Stray(Step(env, m))
    ensures Stray(m) || EndsInZero(m)
  {
    hide Shape, HeadsOk, Fns, StatesOk, Depth, Head, RtlUnwind, StepExec, StepSearch, StepCallback;
    match m.ctl
    case Exec(s) => ExecNotStray(env, m, s);
    case Search(_, _) => SearchNotStray(env, m);
    case Callback => CallbackNotStray(env, m);
    case _ =>
  }

  lemma ExecNotStray(env: Env, m: Mach, s: Stmt)
    requires m.ctl == Exec(s)
    ensures !Stray(StepExec(env, m, s))
  {
    hide Head, WalkOs2;
    if s.Try? { InstallStep(env, m, s); }
  }

  lemma SearchNotStray(env: Env, m: Mach)
    requires env.Valid() && Inv(env, m) && m.ctl.Search?
    ensures !Stray(StepSearch(env, m, m.ctl.why, m.ctl.at))
  {
    hide Shape, HeadsOk, Fns, StatesOk;
    var p := m.ctl.at;
    if IsFrame(m.stack, p) && !(m.stack[p].frame.Win32Frame? && m.fs == OS2_SEL) {
      EnterFilterKeeps(env, m, m.ctl.why, p);
    }
  }

  lemma CallbackNotStray(env: Env, m: Mach)
    requires m.ctl == Callback
    ensures !Stray(StepCallback(env, m))
  {
    hide RtlUnwind, Head;
  }

  /** A frame that its own handler block's exception has put back into state 0: at the end of
      the block the loop comes to state 1, and jumps to a handler that is not there. */
  lemma ResumedHandlerBlockCrashes(env: Env, m: Mach)
    requires env.Valid() && Inv(env, m) && m.ctl == Return && m.AtTry()
    requires Last(m.stack).at.InHandler? && Last(m.stack).frame.state == 0
    ensures Steps(env, 3, m).ctl == Halted(Crashed)
  {
    BackAtLoop(env, m);
    ThreeSteps(env, m);
  }

  lemma {:induction false} StrayRun(env: Env, n: nat, m: Mach) returns (j: nat)
    requires env.Valid() && Inv(env, m) && Wf(m) && !Stray(m) && m.ctl != Halted(Crashed)
    requires var b := Steps(env, n, m); Stray(b) || b.ctl == Halted(Crashed)
    ensures j < n && EndsInZero(Steps(env, j, m))
  {
    hide Inv, Wf, Stray, EndsInZero, Step;
    if n == 0 {
      assert false;
    }
    var b := Steps(env, n - 1, m);
    LastStep(env, n, m);
    StepsKeepInv(env, n - 1, m);
    StepsWf(env, n - 1, m);
    StepWf(env, b);
    if Stray(Steps(env, n, m)) { StrayStep(env, b); } else { StrayCallback(b); }
    if EndsInZero(b) {
      j := n - 1;
    } else {
      j := StrayRun(env, n - 1, m);
    }
  }

  lemma StrayCallback(m: Mach)
    ensures m.ctl == Callback && !InFilter(m) ==> Stray(m)
  {
  }

  lemma {:induction false} StepsWf(env: Env, n: nat, m: Mach)
    requires env.Valid() && Inv(env, m) && Wf(m)
    ensures Wf(Steps(env, n, m))
  {
    hide Inv, Wf, Step;
    if n > 0 {
      StepWf(env, m);
      StepKeepsInv(env, m);
      StepsWf(env, n - 1, Step(env, m));
    }
  }

  // ----- the law of all runs -----

  /** A handler block ends, and the last visit of its loop on record is a question that its own
      filter has answered with "continue execution". */
  predicate EndsResumed(m: Mach) {
    && m.ctl == Return && m.AtTry() && Last(m.stack).at.InHandler?
    && var v := LastVisit(m.trace, Depth(Init(m.stack)));
       v.Some? && v.value.Asked? && v.value.answer == CONTINUE_EXECUTION
  }

  /** That is when its frame is in state 0. */
  lemma ZeroIsResumed(env: Env, s: Stmt, fs: Selector, calls: seq<nat>, j: nat)
    requires env.Valid()
    ensures var m := Steps(env, j, Start(env, s, fs, calls)); EndsInZero(m) <==> EndsResumed(m)
  {
    hide Steps, LastVisit, Depth;
    var m := Steps(env, j, Start(env, s, fs, calls));
    if m.ctl == Return && m.AtTry() {
      StateIsOnRecord(env, s, fs, calls, j, |m.stack| - 1);
    }
  }

  /** A well-formed program crashes if and only if at some moment a handler block ends after its
      own filter has resumed an exception that the block has raised, and has not been asked,
      nor the block been started, since. Nothing else crashes: no unwinding passes its target,
      no saved ESP is wrong, the call trace does not run out, no __leave is left without a
      loop. */
  lemma CrashLaw(env: Env, s: Stmt, fs: Selector, calls: seq<nat>)
    requires env.Valid() && WellFormed(s, false)
    ensures var m := Start(env, s, fs, calls);
      (exists n: nat :: Steps(env, n, m).ctl == Halted(Crashed)) <==> (exists j: nat :: EndsResumed(Steps(env, j, m)))
  {
    hide Inv, EndsResumed, EndsInZero, Wf, Stray;
    var m := Start(env, s, fs, calls);
    StartInv(env, s, fs, calls);
    StartWf(env, s, fs, calls);
    if n: nat :| Steps(env, n, m).ctl == Halted(Crashed) {
      var j := StrayRun(env, n, m);
      ZeroIsResumed(env, s, fs, calls, j);
      assert EndsResumed(Steps(env, j, m));
    }
    if j: nat :| EndsResumed(Steps(env, j, m)) {
      ZeroIsResumed(env, s, fs, calls, j);
      StepsKeepInv(env, j, m);
      EndsThere(Steps(env, j, m));
      ResumedHandlerBlockCrashes(env, Steps(env, j, m));
      StepsAdd(env, j, 3, m);
      assert Steps(env, j + 3, m).ctl == Halted(Crashed);
    }
  }

  lemma EndsThere(m: Mach)
    requires EndsInZero(m)
    ensures m.ctl == Return && m.AtTry() && Last(m.stack).at.InHandler? && Last(m.stack).frame.state == 0
  {
  }

  /** A run only finishes with an empty stack. */
  lemma {:induction false} FinishedIsEmpty(env: Env, n: nat, m: Mach)
    requires m.ctl != Halted(Finished)
    ensures Steps(env, n, m).ctl == Halted(Finished) ==> Steps(env, n, m).stack == []
  {
    if n > 0 {
      FinishStep(env, m);
      if Step(env, m).ctl.Halted? {
        HaltedStays(env, n - 1, Step(env, m));
      } else {
        FinishedIsEmpty(env, n - 1, Step(env, m));
      }
    }
  }

  lemma FinishStep(env: Env, m: Mach)
    requires m.ctl != Halted(Finished)
    ensures Step(env, m).ctl == Halted(Finished) ==> Step(env, m).stack == []
  {
    hide Head, Depth, RtlUnwind, WalkOs2;
  }

  /** How the run from `m`, halted at step `n`, has ended: crashed exactly if a handler block
      has ended resumed; if finished, with both chains as given; and if it has passed an
      exception on, that is on record last. */
  predicate EndsAs(env: Env, m: Mach, n: nat) {
    var b := Steps(env, n, m);
    b.ctl.Halted? ==>
      && (b.ctl.how.Crashed? <==> exists j: nat :: j < n && EndsResumed(Steps(env, j, m)))
      && (b.ctl.how.PassedOn? ==> b.trace != [] && Last(b.trace) == Escaped(b.ctl.how.code))
      && (b.ctl.how.Finished? ==>
            b.stack == [] && Head(b.heads, OS2_SEL) == env.baseOs2 && Head(b.heads, env.tebSel) == env.baseWin32)
  }

  /** The law of all runs of well-formed programs, clean or not. They start finitely many
      handler blocks and halt, or start handler blocks again and again; those that halt have
      crashed exactly if a handler block has ended resumed, and else are finished, with
      both chains as given, or have passed an exception on. */
  lemma EveryRun(env: Env, s: Stmt, fs: Selector, calls: seq<nat>)
    requires env.Valid() && WellFormed(s, false)
    ensures var m := Start(env, s, fs, calls);
      && (Halts(env, m) <==> Bounded(env, m))
      && forall n: nat :: EndsAs(env, m, n)
  {
    hide Inv, EndsAs, Halts, Bounded;
    var m := Start(env, s, fs, calls);
    StartInv(env, s, fs, calls);
    HaltsIffBounded(env, m);
    forall n: nat ensures EndsAs(env, m, n) {
      HaltedRun(env, s, fs, calls, n);
    }
  }

  lemma StartWf(env: Env, s: Stmt, fs: Selector, calls: seq<nat>)
    requires WellFormed(s, false)
    ensures Wf(Start(env, s, fs, calls)) && !Stray(Start(env, s, fs, calls))
  {
  }

  lemma HaltedRun(env: Env, s: Stmt, fs: Selector, calls: seq<nat>, n: nat)
    requires env.Valid() && WellFormed(s, false)
    ensures EndsAs(env, Start(env, s, fs, calls), n)
  {
    hide EndsInZero, EndsResumed, Wf, Stray, Shape, Fns, StatesOk, ControlOk;
    var m := Start(env, s, fs, calls);
    var b := Steps(env, n, m);
    StartInv(env, s, fs, calls);
    StartWf(env, s, fs, calls);
    StepsKeepInv(env, n, m);
    FinishedIsEmpty(env, n, m);
    PassedOnIsOnRecord(env, n, m);
    if !b.ctl.Halted? { return; }
    if b.ctl.how.Crashed? {
      var j := StrayRun(env, n, m);
      ZeroIsResumed(env, s, fs, calls, j);
    }
    if j: nat :| j < n && EndsResumed(Steps(env, j, m)) {
      ZeroIsResumed(env, s, fs, calls, j);
      ZeroCrashes(env, m, j, n);
    }
  }

  lemma ZeroCrashes(env: Env, m: Mach, j: nat, n: nat)
    requires env.Valid() && Inv(env, m) && j < n && EndsInZero(Steps(env, j, m)) && Steps(env, n, m).ctl.Halted?
    ensures Steps(env, n, m).ctl == Halted(Crashed)
  {
    hide Inv;
    StepsKeepInv(env, j, m);
    EndsThere(Steps(env, j, m));
    ResumedHandlerBlockCrashes(env, Steps(env, j, m));
    StepsAdd(env, j, 3, m);
    if n <= j + 3 {
      StepsAdd(env, n, j + 3 - n, m);
      HaltedStays(env, j + 3 - n, Steps(env, n, m));
    } else {
      StepsAdd(env, j + 3, n - (j + 3), m);
      HaltedStays(env, n - (j + 3), Steps(env, j + 3, m));
    }
  }
}
