/** Other places where the code does something else than the structured text suggests, on the
    machine. */
module Findings {
  import opened Selectors
  import opened Programs
  import opened Reference
  import opened Machine
  import opened Invariant
  import opened Lowering
  import opened Correctness
  import opened Blocks

  // ----- FS on the OS/2 selector -----

  /** Win32-TIB variant: at every moment of every run, a frame that was installed while FS was
      not the thread's Win32 selector is no search's next frame, and no filter runs for it. */
  lemma DeadTryTakesNothing(env: Env, n: nat, m: Mach)
    requires env.Valid() && env.variant.Win32Tib? && Inv(env, m)
    ensures var m' := Steps(env, n, m);
      && (m'.ctl.Search? && IsFrame(m'.stack, m'.ctl.at) ==>
            m'.stack[m'.ctl.at].frame.Win32Frame? && m'.stack[m'.ctl.at].frame.win32FS == env.tebSel)
      && (InFilter(m') ==> Last(m'.stack).frame.Win32Frame? && Last(m'.stack).frame.win32FS == env.tebSel)
  {
    StepsKeepInv(env, n, m);
  }

  /** So the loop of such a __try is never visited in state 1, and its handler block only runs
      if it is a finally block whose body ends or is left: every exception goes past it. */
  lemma DeadBlockIsSkipped(env: Env, s: Stmt, m: Mach) returns (n: nat)
    requires env.Valid() && env.variant.Win32Tib? && m.fs != env.tebSel
    requires Inv(env, m) && m.ctl == Exec(s) && s.Try? && WellFormed(s, false) && RunFrom(env, s, m).st.clean
    ensures var m' := Steps(env, n, m);
      var d := Depth(m.stack);
      var body := BodyOf(env, s, Guards(env, m.stack), StOf(m)).out;
      && Lands(env, m.stack, RunFrom(env, s, m), m')
      && (body.Caught? || body.Gone? ==>
            RunFrom(env, s, m).out == body && States(m'.trace, d) == States(m.trace, d) + [0])
  {
    hide Inv, Lands, States, Run;
    var k;
    n, k := MachineStateDiscipline(env, s, m);
    assert Ones(0) == [];
  }

  /** The same with nothing around it: a fault in the body goes past the finally block. */
  lemma DeadFinallyRun(env: Env, code: int, handler: Stmt, st: St)
    requires env.variant.Win32Tib? && st.fs != env.tebSel
    ensures Run(env, Try(Raise(Hardware, code), Finally, handler), [], st)
      == Res(Gone, st.Emit(Enter(0)).Emit(Escaped(code)))
  {
    var g := Guard(Finally, false, false);
    assert [] + [g] == [g] && [g][..0] == [];
    assert Run(env, Raise(Hardware, code), [g], st.Emit(Enter(0))) == Ask(env, Hardware, code, [], st.Emit(Enter(0)));
  }

  /** A finally block inside a wrapped OS/2 call is skipped by a fault in its body. */
  lemma DeadFinallyIsSkipped(env: Env, code: int, handler: Stmt, calls: seq<nat>) returns (n: nat)
    requires env.Valid() && env.variant.Win32Tib? && WellFormed(handler, true)
    ensures var s := OS2Call(0, Try(Raise(Hardware, code), Finally, handler));
      var m := Steps(env, n, Start(env, s, env.tebSel, calls));
      m.ctl.Halted? && m.ctl.how.PassedOn? && m.trace == [Native(0, 0x150b), Enter(0), Escaped(code)]
  {
    hide Steps;
    var s := OS2Call(0, Try(Raise(Hardware, code), Finally, handler));
    DeadFinallyRun(env, code, handler, St([], OS2_SEL, calls, true).Emit(Native(0, OS2_SEL)));
    n := ProgramHalts(env, s, env.tebSel, calls);
  }

  /** RaiseException called with FS on the OS/2 selector asks no filter and returns, if any
      __try of the thread is on the Win32 chain: the machine's own account. */
  lemma RaiseOnOs2SelectorIsSwallowed(env: Env, m: Mach, code: int)
    requires env.Valid() && env.variant.Win32Tib? && Inv(env, m)
    requires m.ctl == Exec(Raise(Software, code)) && m.fs == 0x150b
    requires AnyHears(env, Software, Guards(env, m.stack))
    ensures var m' := Steps(env, 2, m);
      m'.ctl == Return && Alike(m.stack, m'.stack) && StOf(m') == StOf(m)
  {
    hide Inv;
    RaiseStarts(env, m, Software, code);
    var m1 := Step(env, m);
    ThreeSteps(env, m);
    InvShape(env, m1);
    SwallowStep(env, m1, Dispatch(Software, code, m.fs), m1.ctl.at);
    AlikeTrans(m.stack, m1.stack, Step(env, m1).stack);
  }

  // ----- the call trace -----

  /** A call that returns over one that was cut off: the record is not tidy, and the entry that
      stays is that of the call that has returned. */
  lemma TraceKeepsTheWrongName(env: Env, outer: nat, inner: nat, code: int, filter: nat) returns (n: nat)
    requires env.Valid()
    requires env.answer(filter, code, [FnEnter(outer), Enter(0), FnEnter(inner)]) == EXECUTE_HANDLER
    ensures var s := Traced(outer, Try(Traced(inner, Raise(Hardware, code)), Except(filter), Skip));
      var m := Steps(env, n, Start(env, s, env.tebSel, []));
      && m.ctl == Halted(Finished) && m.calls == [outer]
      && m.trace == [FnEnter(outer), Enter(0), FnEnter(inner), Asked(0, code, EXECUTE_HANDLER), Handling(0), Removed(0),
                     FnLeave(outer, 0)]
  {
    hide Steps;
    var s := Traced(outer, Try(Traced(inner, Raise(Hardware, code)), Except(filter), Skip));
    WrongNameRun(env, outer, inner, code, filter);
    assert WellFormed(s.callee, false) by { assert WellFormed(s.callee.body, true); }
    n := ProgramHalts(env, s, env.tebSel, []);
  }

  lemma WrongNameRun(env: Env, outer: nat, inner: nat, code: int, filter: nat)
    requires env.Valid()
    requires env.answer(filter, code, [FnEnter(outer), Enter(0), FnEnter(inner)]) == EXECUTE_HANDLER
    ensures var s := Traced(outer, Try(Traced(inner, Raise(Hardware, code)), Except(filter), Skip));
      var r := Run(env, s, [], St([], env.tebSel, [], true));
      && r.out.Normal? && r.st.clean && r.st.calls == [outer]
      && r.st.trace ==
           [FnEnter(outer), Enter(0), FnEnter(inner), Asked(0, code, EXECUTE_HANDLER), Handling(0), Removed(0),
                        FnLeave(outer, 0)]
  {
    var st0 := St([], env.tebSel, [outer], true).Emit(FnEnter(outer));
    assert [] + [outer] == [outer];
    var t := Try(Traced(inner, Raise(Hardware, code)), Except(filter), Skip);
    var g := Guard(Except(filter), true, false);
    var st1 := st0.Emit(Enter(0));
    var st2 := st1.(calls := [outer] + [inner]).Emit(FnEnter(inner));
    assert st2.trace == [FnEnter(outer), Enter(0), FnEnter(inner)];
    assert [] + [g] == [g];
    var rb := Run(env, Raise(Hardware, code), [g], st2);
    assert rb == Ask(env, Hardware, code, [g], st2);
    assert rb.out == Caught(0) && rb.st.calls == [outer, inner];
    assert Run(env, Traced(inner, Raise(Hardware, code)), [g], st1) == rb;
    assert Run(env, t, [], st0) == RunHandler(env, t, [], env.tebSel, rb.st);
    var h := Run(env, Skip, [] + [Guard(Except(filter), true, true)], rb.st.Emit(Handling(0)));
    assert h.out.Normal? && h.st.calls == [outer, inner];
    assert Init([outer, inner]) == [outer];
  }

  // ----- writes of the environment -----

  /** Overwriting the Win32 fs:0 cell does no harm until something is raised: then, if what
      was written is not a frame of the program, no filter is asked any more. */
  lemma ClobberedCellLosesTheGuards(env: Env, m: Mach, kind: Kind, code: int)
    requires env.Valid() && env.variant.Win32Tib? && m.ctl == Exec(Raise(kind, code))
    requires !IsFrame(m.stack, Head(m.heads, env.tebSel))
    ensures var m' := Steps(env, 2, m);
      m'.ctl == Halted(PassedOn(code)) && m'.trace == m.trace + [Escaped(code)]
  {
    ThreeSteps(env, m);
    var m1 := Step(env, m);
    WalkIsSame(m.stack, Head(m.heads, OS2_SEL));
    var p := Head(m.heads, env.tebSel);
    if 0 <= p < |m.stack| { assert Core(m.stack[p]) == Core(m1.stack[p]); }
  }
}
