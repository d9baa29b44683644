/** Small programs from their start to their end, with everything written out. */
module Samples {
  import opened Selectors
  import opened Programs
  import opened Reference
  import opened Machine
  import opened Correctness
  import opened Variants

  /** The thread is at its end, with an empty stack, both chains as given, and this record. */
  predicate Ended(env: Env, m: Mach, t: Trace) {
    && m.ctl == Halted(Finished) && m.stack == [] && m.trace == t
    && Head(m.heads, 0x150b) == env.baseOs2 && Head(m.heads, env.tebSel) == env.baseWin32
  }

  /** __leave in the body of a __try/__finally: the block runs, and once. */
  lemma LeaveRunsFinally(env: Env, id: nat, fs: Selector, calls: seq<nat>) returns (n: nat)
    requires env.tebSel != 0x150b && env.baseOs2 < 0 && env.baseWin32 < 0
    ensures var m := Steps(env, n, Start(env, Try(Leave, Finally, Do(id)), fs, calls));
      Ended(env, m, [Enter(0), Handling(0), Did(id), Removed(0)]) && m.fs == fs && m.calls == calls
  {
    hide Steps;
    var s := Try(Leave, Finally, Do(id));
    var st := St([], fs, calls, true);
    n := ProgramHalts(env, s, fs, calls) by { LeaveRun(env, s, st); }
    LeaveRun(env, s, st);
  }

  lemma LeaveRun(env: Env, s: Stmt, st: St)
    requires s.Try? && s.body.Leave? && s.clause.Finally? && s.handler.Do? && st == St([], st.fs, st.calls, true)
    ensures WellFormed(s, false)
    ensures Run(env, s, [], st) ==
      Res(Normal, st.(trace := [Enter(0), Handling(0), Did(s.handler.id), Removed(0)]))
  {
    assert BodyOf(env, s, [], st) == Res(Left, st.(trace := [Enter(0)]));
    assert RunHandler(env, s, [], st.fs, st.(trace := [Enter(0)])) ==
      Res(Normal, st.(trace := [Enter(0), Handling(0), Did(s.handler.id), Removed(0)]));
  }

  function Guarded(a: nat, code: int, filter: nat, b: nat): Stmt {
    Try(Seq(Do(a), Raise(Hardware, code)), Except(filter), Do(b))
  }

  /** A fault in the body of a __try/__except, and the three things its filter can answer. */
  lemma FilterDecides(env: Env, a: nat, code: int, filter: nat, b: nat, calls: seq<nat>) returns (n: nat)
    requires env.tebSel != 0x150b && env.baseOs2 < 0 && env.baseWin32 < 0
    ensures var m := Steps(env, n, Start(env, Guarded(a, code, filter, b), env.tebSel, calls));
      var answer := env.answer(filter, code, [Enter(0), Did(a)]);
      match answer
      case 1 => Ended(env, m, [Enter(0), Did(a), Asked(0, code, 1), Handling(0), Did(b), Removed(0)])
      case -1 => Ended(env, m, [Enter(0), Did(a), Asked(0, code, -1), Removed(0)]) && m.fs == env.tebSel
      case _ =>
        m.ctl == Halted(PassedOn(code)) && m.trace == [Enter(0), Did(a), Asked(0, code, answer), Escaped(code)]
  {
    hide Steps;
    var s := Guarded(a, code, filter, b);
    GuardedRun(env, a, code, filter, b, calls);
    n := ProgramHalts(env, s, env.tebSel, calls);
  }

  lemma GuardedRun(env: Env, a: nat, code: int, filter: nat, b: nat, calls: seq<nat>)
    ensures var st := St([], env.tebSel, calls, true);
      var answer := env.answer(filter, code, [Enter(0), Did(a)]);
      var s := Guarded(a, code, filter, b);
      && WellFormed(s, false)
      && Run(env, s, [], st) ==
           match answer
           case 1 => Res(Normal, st.(trace := [Enter(0), Did(a), Asked(0, code, 1), Handling(0), Did(b), Removed(0)],
                                     fs := if env.variant.Win32Tib? then env.tebSel else 0x150b))
           case -1 => Res(Normal, st.(trace := [Enter(0), Did(a), Asked(0, code, -1), Removed(0)]))
           case _ => Res(Gone, st.(trace := [Enter(0), Did(a), Asked(0, code, answer), Escaped(code)]))
  {
    hide RunHandler, Ask, BodyOf;
    var st := St([], env.tebSel, calls, true);
    var s := Guarded(a, code, filter, b);
    assert WellFormed(s.body, true);
    GuardedBody(env, a, code, filter, b, st);
    TryEnds(env, s, [], st);
    var asked := st.(trace := [Enter(0), Did(a), Asked(0, code, 1)]);
    BlockRuns(env, s, asked.(fs := if env.variant.Win32Tib? then env.tebSel else 0x150b));
  }

  lemma GuardedBody(env: Env, a: nat, code: int, filter: nat, b: nat, st: St)
    requires st.trace == [] && st.fs == env.tebSel
    ensures var answer := env.answer(filter, code, [Enter(0), Did(a)]);
      var asked := st.(trace := [Enter(0), Did(a), Asked(0, code, answer)]);
      BodyOf(env, Guarded(a, code, filter, b), [], st) ==
        match answer
        case 1 => Res(Caught(0), asked.(fs := if env.variant.Win32Tib? then env.tebSel else 0x150b))
        case -1 => Res(Normal, asked)
        case _ => Res(Gone, asked.Emit(Escaped(code)))
  {
    var g := Guard(Except(filter), true, false);
    var did := st.(trace := [Enter(0), Did(a)]);
    var asked := did.Emit(Asked(0, code, env.answer(filter, code, did.trace)));
    assert [] + [g] == [g] && [g][..0] == [];
    assert st.Emit(Enter(0)).Emit(Did(a)) == did;
    assert Run(env, Do(a), [g], st.Emit(Enter(0))) == Res(Normal, did);
    assert Run(env, Raise(Hardware, code), [g], did) == Ask(env, Hardware, code, [g], did);
    assert Ask(env, Hardware, code, [], asked) == Res(Gone, asked.Emit(Escaped(code)));
  }

  lemma BlockRuns(env: Env, s: Stmt, st: St)
    requires s.Try? && s.handler.Do?
    ensures RunHandler(env, s, [], env.tebSel, st) ==
      Res(Normal, Close(env, 0, env.tebSel, st.Emit(Handling(0)).Emit(Did(s.handler.id))))
  {
  }

  /** A wrapped OS/2 call: the callee runs with FS 0x150b, the caller's selector comes back. */
  lemma CallRunsOnOs2(env: Env, id: nat, a: nat, fs: Selector, calls: seq<nat>) returns (n: nat)
    requires env.tebSel != 0x150b && env.baseOs2 < 0 && env.baseWin32 < 0
    ensures var m := Steps(env, n, Start(env, OS2Call(id, Do(a)), fs, calls));
      Ended(env, m, [Native(id, 0x150b), Did(a), NativeLeave(id, 0)]) && m.fs == fs
  {
    hide Steps;
    var s := OS2Call(id, Do(a));
    var st := St([], fs, calls, true);
    var native := St([Native(id, 0x150b)], 0x150b, calls, true);
    assert st.(fs := 0x150b).Emit(Native(id, 0x150b)) == native;
    assert Run(env, Do(a), [], native) == Res(Normal, native.Emit(Did(a)));
    assert Run(env, s, [], st) == Res(Normal, st.(trace := [Native(id, 0x150b), Did(a), NativeLeave(id, 0)]));
    assert WellFormed(s, false);
    n := ProgramHalts(env, s, fs, calls);
  }

  /** The inner filter lets a fault pass, the outer __finally claims it: the inner frame is asked
      first, and only the outer block runs. */
  lemma OuterFinallyClaims(env: Env, code: int, filter: nat, b: nat, calls: seq<nat>) returns (n: nat)
    requires env.tebSel != 0x150b && env.baseOs2 < 0 && env.baseWin32 < 0
    requires env.answer(filter, code, [Enter(0), Enter(1)]) == 0
    ensures var s := Try(Try(Raise(Hardware, code), Except(filter), Skip), Finally, Do(b));
      var m := Steps(env, n, Start(env, s, env.tebSel, calls));
      Ended(env, m, [Enter(0), Enter(1), Asked(1, code, 0), Asked(0, code, 1), Handling(0), Did(b), Removed(0)])
  {
    hide Steps;
    var s := Try(Try(Raise(Hardware, code), Except(filter), Skip), Finally, Do(b));
    NestedRun(env, s, code, filter, b, calls);
    n := ProgramHalts(env, s, env.tebSel, calls);
  }

  lemma NestedRun(env: Env, s: Stmt, code: int, filter: nat, b: nat, calls: seq<nat>)
    requires s == Try(Try(Raise(Hardware, code), Except(filter), Skip), Finally, Do(b))
    requires env.answer(filter, code, [Enter(0), Enter(1)]) == 0
    ensures WellFormed(s, false)
    ensures var r := Run(env, s, [], St([], env.tebSel, calls, true));
      && r.out.Normal? && r.st.clean
      && r.st.trace == [Enter(0), Enter(1), Asked(1, code, 0), Asked(0, code, 1), Handling(0), Did(b), Removed(0)]
  {
    var st := St([], env.tebSel, calls, true);
    var g, h := Guard(Finally, true, false), Guard(Except(filter), true, false);
    assert [] + [g] == [g] && [g] + [h] == [g, h] && [g, h][..1] == [g];
    var entered := st.(trace := [Enter(0), Enter(1)]);
    var taken := entered.(trace := [Enter(0), Enter(1), Asked(1, code, 0), Asked(0, code, 1)],
      fs := if env.variant.Win32Tib? then env.tebSel else 0x150b);
    assert entered.Emit(Asked(1, code, 0)).Emit(Asked(0, code, 1)).trace == taken.trace;
    assert Ask(env, Hardware, code, [g], entered.Emit(Asked(1, code, 0))) == Res(Caught(0), taken);
    assert st.Emit(Enter(0)).Emit(Enter(1)) == entered;
    assert BodyOf(env, s.body, [g], st.Emit(Enter(0))) == Res(Caught(0), taken);
    assert Run(env, s.body, [g], st.Emit(Enter(0))) == Res(Caught(0), taken);
    assert BodyOf(env, s, [], st) == Res(Caught(0), taken);
    BlockRuns(env, s, taken);
    TryEnds(env, s, [], st);
    assert WellFormed(s.body, true);
  }
}
