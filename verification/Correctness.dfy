/** The main results about the lowered program, for every program, filter behaviour and
    starting point. */
module Correctness {
  import opened Selectors
  import opened Programs
  import opened Reference
  import opened Machine
  import opened Invariant
  import opened Levels
  import opened Lowering

  // ----- the machine means what the program means -----

  /** What one step may add to the record: nothing, or one event; and a native callee is
      only ever started with FS on the OS/2 selector. */
  predicate Appends(t: Trace, t': Trace) {
    || t' == t
    || (|t'| == |t| + 1 && t <= t' && (t'[|t|].Native? ==> t'[|t|].fs == 0x150b))
  }

  lemma ExecAppends(env: Env, m: Mach, s: Stmt)
    ensures Appends(m.trace, StepExec(env, m, s).trace)
  {
    hide WalkOs2;
  }

  lemma LoopAppends(env: Env, m: Mach)
    ensures Appends(m.trace, StepLoop(env, m).trace)
  {
  }

  lemma CallbackAppends(env: Env, m: Mach)
    ensures Appends(m.trace, StepCallback(env, m).trace)
  {
    hide RtlUnwind;
  }

  lemma StepAppends(env: Env, m: Mach)
    ensures Appends(m.trace, Step(env, m).trace)
  {
    hide StepExec, StepLoop, StepCallback;
    match m.ctl
    case Exec(s) => ExecAppends(env, m, s);
    case Loop => LoopAppends(env, m);
    case Callback => CallbackAppends(env, m);
    case _ =>
  }

  lemma {:induction false} TraceGrows(env: Env, a: nat, b: nat, m: Mach)
    requires a <= b
    ensures Steps(env, a, m).trace <= Steps(env, b, m).trace
    decreases b - a
  {
    if a < b {
      StepsAdd(env, a, 1, m);
      StepAppends(env, Steps(env, a, m));
      assert Steps(env, 1, Steps(env, a, m)) == Steps(env, 0, Step(env, Steps(env, a, m)));
      TraceGrows(env, a + 1, b, m);
    }
  }

  /** The machine comes to where the structured run ends, with the same record, if and only
      if that run is clean: no exception leaves an except or finally block through the
      __try it belongs to, and no __leave ends anything but the body of a __try/__finally.
      When it is not clean, the record parts from the structured one for good. */
  lemma LoweringPreservesMeaning(env: Env, s: Stmt, inTry: bool, m: Mach)
    requires env.Valid() && Inv(env, m) && m.ctl == Exec(s) && WellFormed(s, inTry)
    ensures var r := RunFrom(env, s, m);
      && (r.st.clean <==> exists n: nat :: Lands(env, m.stack, r, Steps(env, n, m)))
      && (r.st.clean <==> exists n: nat :: r.st.trace <= Steps(env, n, m).trace)
  {
    var r := RunFrom(env, s, m);
    var k := Simulate(env, s, inTry, m);
    if r.st.clean {
      assert Lands(env, m.stack, r, Steps(env, k, m));
      assert r.st.trace <= Steps(env, k, m).trace;
    } else {
      forall n: nat ensures !(r.st.trace <= Steps(env, n, m).trace) {
        if n <= k { TraceGrows(env, n, k, m); } else { TraceGrows(env, k, n, m); }
      }
    }
  }

  // ----- what a completed statement leaves behind -----

  /** A statement begun at `m` has ended normally at `m'`: same stack but for fields of
      running frames that no longer matter, and both chains as they were. */
  predicate Completed(env: Env, m: Mach, m': Mach) {
    && m'.ctl == Return
    && Alike(m.stack, m'.stack)
    && Balanced(env, m, m')
  }

  lemma AlikeBalances(env: Env, m: Mach, m': Mach)
    requires env.Valid() && Inv(env, m) && Inv(env, m') && Alike(m.stack, m'.stack)
    requires m.ctl.Exec? && m'.ctl == Return
    ensures Completed(env, m, m')
  {
    InvShape(env, m);
    InvShape(env, m');
    SameTop(env, m.stack, m'.stack, Os2Chain);
    SameTop(env, m.stack, m'.stack, Win32Chain);
  }

  /** A clean statement whose structured run ends normally comes to its end on the machine,
      with both chain heads given back. That it gives them back whenever it comes to its end,
      clean or not, is Levels.ChainsBalance. */
  lemma StatementCompletes(env: Env, s: Stmt, inTry: bool, m: Mach) returns (n: nat)
    requires env.Valid() && Inv(env, m) && m.ctl == Exec(s) && WellFormed(s, inTry)
    requires RunFrom(env, s, m).st.clean && RunFrom(env, s, m).out.Normal?
    ensures Completed(env, m, Steps(env, n, m))
    ensures StOf(Steps(env, n, m)) == RunFrom(env, s, m).st
  {
    n := Simulate(env, s, inTry, m);
    StepsKeepInv(env, n, m);
    AlikeBalances(env, m, Steps(env, n, m));
  }

  /** A clean __try statement whose structured run ends normally comes to its end, in the
      Win32-TIB variant with FS as at entry, also when an exception has cut off a wrapped OS/2
      call or other code that had changed it, and with the head cell of the TIB that FS named
      as at entry, whichever that was. Levels.TryRestoresFs is the law for all runs. */
  lemma TryCompletes(env: Env, s: Stmt, m: Mach) returns (n: nat)
    requires env.Valid() && Inv(env, m) && m.ctl == Exec(s) && s.Try? && WellFormed(s, false)
    requires env.variant.Win32Tib?
    requires RunFrom(env, s, m).st.clean && RunFrom(env, s, m).out.Normal?
    ensures var m' := Steps(env, n, m);
      Completed(env, m, m') && m'.fs == m.fs && Head(m'.heads, m.fs) == Head(m.heads, m.fs)
  {
    n := SimTry(env, s, m);
    StepsKeepInv(env, n, m);
    AlikeBalances(env, m, Steps(env, n, m));
    RunTryFs(env, s, Guards(env, m.stack), StOf(m));
  }

  lemma RunTryFs(env: Env, s: Stmt, gs: seq<Guard>, st: St)
    requires s.Try? && env.variant.Win32Tib?
    ensures var r := Run(env, s, gs, st); r.out.Normal? || r.out.Left? ==> r.st.fs == st.fs
  {
    var g := Guard(s.clause, LiveAt(env, st.fs), false);
    RunCaught(env, s.body, gs + [g], st.Emit(Enter(|gs|)));
    var rb := Run(env, s.body, gs + [g], st.Emit(Enter(|gs|)));
    if rb.out.Caught? && rb.out.depth == |gs| { assert rb.out.depth < |gs + [g]|; }
  }

  // ----- whole programs -----

  /** A thread about to run `s`, with its two TIBs' chains as the thread was given them. */
  function Start(env: Env, s: Stmt, fs: Selector, calls: seq<nat>): Mach {
    Mach(Exec(s), [], map[OS2_SEL := env.baseOs2, env.tebSel := env.baseWin32], fs, calls, [])
  }

  lemma StartInv(env: Env, s: Stmt, fs: Selector, calls: seq<nat>)
    requires env.Valid()
    ensures Inv(env, Start(env, s, fs, calls))
  {
  }

  /** An exception that is passed on to the given chain is on record last, with its code. */
  predicate PassedOnRecorded(m: Mach) {
    m.ctl.Halted? && m.ctl.how.PassedOn? ==> m.trace != [] && Last(m.trace) == Escaped(m.ctl.how.code)
  }

  lemma StepPassesOn(env: Env, m: Mach)
    requires PassedOnRecorded(m)
    ensures PassedOnRecorded(Step(env, m))
  {
    hide WalkOs2, RtlUnwind, Head, Depth, Install, Verdict;
  }

  lemma {:induction false} PassedOnIsOnRecord(env: Env, n: nat, m: Mach)
    requires PassedOnRecorded(m)
    ensures PassedOnRecorded(Steps(env, n, m))
  {
    hide PassedOnRecorded, Step;
    if n > 0 {
      StepPassesOn(env, m);
      PassedOnIsOnRecord(env, n - 1, Step(env, m));
    }
  }

  /** Every clean program comes to a halt: finished with an empty stack and both chains as
      given, or with its exception passed on to the chain it was given. */
  lemma ProgramHalts(env: Env, s: Stmt, fs: Selector, calls: seq<nat>) returns (n: nat)
    requires env.Valid() && WellFormed(s, false)
    requires Run(env, s, [], St([], fs, calls, true)).st.clean
    ensures var r := Run(env, s, [], St([], fs, calls, true));
      var m := Steps(env, n, Start(env, s, fs, calls));
      && (r.out.Normal? || r.out.Gone?)
      && (m.trace, m.calls) == (r.st.trace, r.st.calls)
      && (r.out.Gone? ==> m.trace != [] && Last(m.trace).Escaped? && m.ctl == Halted(PassedOn(Last(m.trace).code)))
      && (r.out.Normal? ==>
            && m.ctl == Halted(Finished) && m.stack == [] && m.fs == r.st.fs
            && Head(m.heads, OS2_SEL) == env.baseOs2 && Head(m.heads, env.tebSel) == env.baseWin32)
  {
    var m0 := Start(env, s, fs, calls);
    StartInv(env, s, fs, calls);
    n := Simulate(env, s, false, m0);
    NoLeft(env, s, [], StOf(m0));
    RunCaught(env, s, [], StOf(m0));
    PassedOnIsOnRecord(env, n, m0);
    var m := Steps(env, n, m0);
    if RunFrom(env, s, m0).out.Normal? {
      StepsKeepInv(env, n, m0);
      AlikeBalances(env, m0, m);
      StepsAdd(env, n, 1, m0);
      ThreeSteps(env, m);
      n := n + 1;
    }
  }

  // ----- the chains at every reachable state -----

  /** The frames met by following a chain's links from `p`, and where the links lead out of
      the stack. Links only lead outward, so no frame is met twice. */
  function Walk(stack: Stack, p: Ptr, c: Chain): (seq<Ptr>, Ptr)
    decreases p
  {
    if !IsFrame(stack, p) then ([], p) else
    var next := Link(stack[p].frame, c);
    if next < p then
      var w := Walk(stack, next, c);
      ([p] + w.0, w.1)
    else ([p], next)
  }

  /** The cells of the frames installed in a chain, innermost first. */
  function Frames(env: Env, stack: Stack, c: Chain): seq<Ptr> {
    if stack == [] then []
    else (if OnChain(env, Last(stack), c) then [|stack| - 1] else []) + Frames(env, Init(stack), c)
  }

  lemma {:induction false} WalkIsFrames(env: Env, stack: Stack, q: nat, c: Chain)
    requires env.Valid() && Shape(env, stack) && q <= |stack|
    ensures Walk(stack, Top(env, stack[..q], c), c) == (Frames(env, stack[..q], c), Base(env, c))
  {
    if q == 0 {
      assert stack[..0] == [];
    } else {
      GuardsSplit(env, stack, q);
      assert Init(stack[..q]) == stack[..q - 1] && Last(stack[..q]) == stack[q - 1];
      WalkIsFrames(env, stack, q - 1, c);
      if OnChain(env, stack[q - 1], c) {
        FrameAt(env, stack, q - 1);
        TopIsOnChain(env, stack[..q - 1], c);
      } else {
        assert Frames(env, stack[..q], c) == Frames(env, stack[..q - 1], c);
      }
    }
  }

  /** At every reachable state of every program, clean or not, following either chain from
      its head cell meets exactly the installed frames, innermost first, and then the chain
      the thread was given. */
  lemma ChainsAreTheFrames(env: Env, s: Stmt, fs: Selector, calls: seq<nat>, n: nat, c: Chain)
    requires env.Valid()
    ensures var m := Steps(env, n, Start(env, s, fs, calls));
      Walk(Installed(m), Head(m.heads, ChainSel(env, c)), c) == (Frames(env, Installed(m), c), Base(env, c))
  {
    StartInv(env, s, fs, calls);
    StepsKeepInv(env, n, Start(env, s, fs, calls));
    var m := Steps(env, n, Start(env, s, fs, calls));
    var w := Installed(m);
    assert w[..|w|] == w;
    WalkIsFrames(env, w, |w|, c);
  }

  /** Whenever control is at label 0, in either variant and at any nesting, ESP is what it
      was on first arrival: the frame's own level, which is what its ESP slot holds. */
  lemma LoopIsAtSavedEsp(env: Env, s: Stmt, fs: Selector, calls: seq<nat>, n: nat)
    requires env.Valid()
    ensures var m := Steps(env, n, Start(env, s, fs, calls));
      m.ctl.Loop? || m.ctl.Callback? ==> m.AtTry() && Last(m.stack).frame.esp == Esp(m.stack)
  {
    StartInv(env, s, fs, calls);
    StepsKeepInv(env, n, Start(env, s, fs, calls));
    var m := Steps(env, n, Start(env, s, fs, calls));
    if m.ctl.Loop? || m.ctl.Callback? {
      FrameAt(env, Whole(m), |m.stack| - 1);
    }
  }
}
