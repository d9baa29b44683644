/** Programs on which the two macro sets of include/excpt.h agree step by step, whatever their
    blocks raise: a condition on the text. */
module Plain {
  import opened Selectors
  import opened Programs
  import opened Reference
  import opened Machine
  import opened Invariant
  import opened Levels
  import opened Correctness
  import opened Lockstep

  /** Exceptions are the kernel's, code loads FS only inside wrapped OS/2 calls, and there no
      __try is entered. */
  predicate IsPlain(s: Stmt, inCall: bool) {
    match s
    case Raise(kind, _) => kind.Hardware?
    case Seq(a, b) => IsPlain(a, inCall) && IsPlain(b, inCall)
    case Choice(_, a, b) => IsPlain(a, inCall) && IsPlain(b, inCall)
    case Try(body, _, handler) => !inCall && IsPlain(body, false) && IsPlain(handler, false)
    case LoadFS(_) => inCall
    case OS2Call(_, callee) => IsPlain(callee, true)
    case Traced(_, callee) => IsPlain(callee, inCall)
    case _ => true
  }

  /** A wrapped OS/2 call is pending. */
  predicate InCall(w: Stack) {
    exists i :: 0 <= i < |w| && w[i].KWrap?
  }

  /** Outside wrapped calls FS is the thread's Win32 selector. */
  predicate FsOk(env: Env, fs: Selector, w: Stack) { InCall(w) || fs == env.tebSel }

  predicate PlainCell(env: Env, k: Slot, below: Stack) {
    match k
    case KSeq(next) => IsPlain(next, InCall(below))
    case KTry(f, _, body, handler, _) =>
      !InCall(below) && IsPlain(body, false) && IsPlain(handler, false) && (f.Win32Frame? ==> f.win32FS == env.tebSel)
    case KWrap(_, sel, _) => FsOk(env, sel, below)
    case KFn(_, sel, _) => FsOk(env, sel, below)
    case KWord(_) => true
  }

  predicate PlainStack(env: Env, w: Stack) {
    forall i :: 0 <= i < |w| ==> PlainCell(env, w[i], w[..i])
  }

  predicate PlainWhy(env: Env, m: Mach, why: Dispatch) {
    why.kind.Hardware? && m.fs == env.tebSel && FsOk(env, why.fs, Whole(m))
  }

  predicate PlainCtl(env: Env, m: Mach) {
    match m.ctl
    case Exec(s) => IsPlain(s, InCall(m.stack)) && FsOk(env, m.fs, m.stack)
    case Return => FsOk(env, m.fs, m.stack)
    case Leaving => FsOk(env, m.fs, m.stack)
    case Search(why, _) => PlainWhy(env, m, why)
    case Halted(_) => true
    case _ =>
      if InFilter(m) then PlainWhy(env, m, Last(m.stack).frame.context.value.why) else m.fs == env.tebSel
  }

  predicate Settled(env: Env, m: Mach) {
    Inv(env, m) && PlainStack(env, Whole(m)) && PlainCtl(env, m)
  }

  // ----- what every step keeps -----

  lemma CallsAlike(a: Stack, b: Stack, i: nat)
    requires i <= |a| && i <= |b| && forall j :: 0 <= j < i ==> Core(a[j]) == Core(b[j])
    ensures InCall(a[..i]) <==> InCall(b[..i])
  {
    assert forall j :: 0 <= j < i ==> (a[..i][j].KWrap? <==> b[..i][j].KWrap?);
    if InCall(a[..i]) {
      var j :| 0 <= j < i && a[..i][j].KWrap?;
      assert b[..i][j].KWrap?;
    }
    if InCall(b[..i]) {
      var j :| 0 <= j < i && b[..i][j].KWrap?;
      assert a[..i][j].KWrap?;
    }
  }

  lemma CellAlike(env: Env, a: Stack, b: Stack, i: nat)
    requires i < |a| && i < |b| && forall j :: 0 <= j <= i ==> Core(a[j]) == Core(b[j])
    requires PlainCell(env, a[i], a[..i])
    ensures PlainCell(env, b[i], b[..i])
  {
    CallsAlike(a, b, i);
    assert Core(a[i]) == Core(b[i]);
  }

  /** Only a cell that is pushed needs looking at. */
  lemma KeptIsPlain(env: Env, a: Stack, b: Stack)
    requires Kept(a, b) && PlainStack(env, a)
    requires |b| > |a| ==> PlainCell(env, Last(b), b[..|a|])
    ensures PlainStack(env, b)
    ensures forall i :: 0 <= i <= |a| && i <= |b| ==> (InCall(a[..i]) <==> InCall(b[..i]))
  {
    forall i | 0 <= i < |b| ensures PlainCell(env, b[i], b[..i]) {
      if i < |a| {
        assert PlainCell(env, a[i], a[..i]);
        CellAlike(env, a, b, i);
      }
    }
    forall i | 0 <= i <= |a| && i <= |b| ensures InCall(a[..i]) <==> InCall(b[..i]) {
      CallsAlike(a, b, i);
    }
  }

  lemma CallsPush(w: Stack, k: Slot)
    ensures InCall(w + [k]) <==> InCall(w) || k.KWrap?
  {
    assert (w + [k])[|w|] == k;
    assert forall i :: 0 <= i < |w| ==> (w + [k])[i] == w[i];
  }

  lemma CallsPop(w: Stack)
    requires w != []
    ensures InCall(w) <==> InCall(Init(w)) || Last(w).KWrap?
  {
    assert Init(w) + [Last(w)] == w;
    CallsPush(Init(w), Last(w));
  }

  lemma PlainRaises(env: Env, m: Mach, kind: Kind, code: int)
    requires env.Valid() && env.variant.Win32Tib? && Settled(env, m) && m.ctl == Exec(Raise(kind, code))
    ensures Settled(env, Step(env, m))
  {
    hide Inv, PlainStack, InCall, WalkOs2, Head, Kept, Whole;
    var m' := Step(env, m);
    KeepsAll(env, m);
    ExecWhole(env, m, m.ctl.s);
    RaiseKeeps(env, m, kind, code);
    KeptIsPlain(env, m.stack, m'.stack);
    assert m.stack[..|m.stack|] == m.stack && m'.stack[..|m.stack|] == m'.stack;
  }

  lemma PlainExec(env: Env, m: Mach, s: Stmt)
    requires env.Valid() && env.variant.Win32Tib? && Settled(env, m) && m.ctl == Exec(s) && !s.Raise?
    ensures Settled(env, Step(env, m))
  {
    hide Inv, PlainStack, InCall, Install, StartSearch, Head, Kept, PlainCell, Whole, InFilter;
    var m' := Step(env, m);
    KeepsAll(env, m);
    ExecWhole(env, m, s);
    if s.Try? { InstallStep(env, m, s); }
    if m'.stack != m.stack {
      var k := Last(m'.stack);
      assert m'.stack == m.stack + [k] && m'.stack[..|m.stack|] == m.stack;
      CallsPush(m.stack, k);
      SelectorSurvivesShort(m.fs);
      PushedCell(env, m, s, k);
    }
    KeptIsPlain(env, m.stack, m'.stack);
  }

  lemma PushedCell(env: Env, m: Mach, s: Stmt, k: Slot)
    requires env.Valid() && env.variant.Win32Tib? && PlainCtl(env, m) && m.ctl == Exec(s)
    requires match s
      case Seq(_, b) => k == KSeq(b)
      case OS2Call(id, _) => k == KWrap(id, m.fs, |m.trace|)
      case Traced(name, _) => k == KFn(name, m.fs, |m.trace|)
      case Try(body, _, handler) =>
        k.KTry? && k.body == body && k.handler == handler && (k.frame.Win32Frame? ==> k.frame.win32FS == m.fs)
      case _ => false
    ensures PlainCell(env, k, m.stack)
  {
    hide InCall;
  }

  lemma PlainReturn(env: Env, m: Mach)
    requires env.Valid() && env.variant.Win32Tib? && Settled(env, m) && (m.ctl == Return || m.ctl == Leaving)
    ensures Settled(env, Step(env, m))
  {
    hide Inv, PlainStack, InCall, Kept;
    KeepsAll(env, m);
    if m.AtTry() { NoContext(env, m, |m.stack| - 1); }
    KeptIsPlain(env, Whole(m), Whole(Step(env, m)));
    if m.stack != [] {
      TopCell(env, m.stack);
      CallsPop(m.stack);
    }
  }

  lemma TopCell(env: Env, w: Stack)
    requires PlainStack(env, w) && w != []
    ensures PlainCell(env, Last(w), Init(w))
  {
    assert PlainCell(env, w[|w| - 1], w[..|w| - 1]);
  }

  lemma LoopCell(env: Env, m: Mach)
    requires PlainStack(env, Whole(m)) && m.AtTry()
    ensures PlainCell(env, Last(m.stack), Init(m.stack))
  {
    var p := |m.stack| - 1;
    assert PlainCell(env, Whole(m)[p], Whole(m)[..p]);
    assert Whole(m)[..p] == Init(m.stack);
  }

  lemma PlainLoop(env: Env, m: Mach)
    requires env.Valid() && env.variant.Win32Tib? && Settled(env, m) && m.ctl == Loop && !InFilter(m)
    ensures Settled(env, Step(env, m))
  {
    hide Shape, HeadsOk, StatesOk, Fns, PlainStack, InCall, Kept, StepLoop, Depth, Verdict, IsPlain;
    KeepsAll(env, m);
    var m' := Step(env, m);
    LoopCell(env, m);
    if Last(m.stack).frame.state <= 3 {
      LoopFs(env, m);
      TurnIs(env, m);
      KeptIsPlain(env, Whole(m), Whole(m'));
      CallsPop(m'.stack);
      assert Init(m'.stack) == Init(m.stack);
    } else {
      LoopPops(env, m);
      KeptIsPlain(env, Whole(m), Whole(m'));
    }
  }

  lemma PlainFilter(env: Env, m: Mach)
    requires env.Valid() && env.variant.Win32Tib? && Settled(env, m) && m.ctl == Loop && InFilter(m)
    ensures Settled(env, Step(env, m))
  {
    hide Shape, HeadsOk, StatesOk, Fns, PlainStack, InCall, Kept, StepLoop, Depth, Verdict, IsPlain;
    KeepsAll(env, m);
    var m' := Step(env, m);
    LoopFs(env, m);
    FilterWhole(env, m);
    KeptIsPlain(env, Whole(m), Whole(m'));
    assert Whole(m)[..|Whole(m)|] == Whole(m) && Whole(m')[..|Whole(m)|] == Whole(m');
  }

  lemma PlainSearch(env: Env, m: Mach, why: Dispatch, p: Ptr)
    requires env.Valid() && env.variant.Win32Tib? && Settled(env, m) && m.ctl == Search(why, p)
    ensures Settled(env, Step(env, m))
  {
    hide Shape, HeadsOk, StatesOk, Fns, PlainStack, InCall, Kept, EnterFilter;
    KeepsAll(env, m);
    var m' := Step(env, m);
    if IsFrame(m.stack, p) { EnterFilterKeeps(env, m, why, p); }
    KeptIsPlain(env, Whole(m), Whole(m'));
    if IsFrame(m.stack, p) {
      assert m.stack[..|m.stack|] == m.stack && Whole(m')[..|m.stack|] == Whole(m');
    }
  }

  lemma PlainCallback(env: Env, m: Mach)
    requires env.Valid() && env.variant.Win32Tib? && Settled(env, m) && m.ctl == Callback
    ensures Settled(env, Step(env, m))
  {
    hide Shape, HeadsOk, StatesOk, Fns, PlainStack, InCall, Kept, StepCallback, Whole;
    KeepsAll(env, m);
    var m' := Step(env, m);
    if !InFilter(m) {
      StrayCrashes(env, m);
      WholeNow(m);
      WholeNow(m');
      KeptIsPlain(env, Whole(m), Whole(m'));
    } else if Last(m.stack).frame.filterResult == EXECUTE_HANDLER {
      TakesIs(env, m);
      WholeNow(m');
      FilterBounds(m);
      KeptIsPlain(env, Whole(m), Whole(m'));
    } else {
      DeclineIs(env, m);
      ResumedFs(env, m);
      WholeNow(m');
      KeptIsPlain(env, Whole(m), Whole(m'));
      assert Whole(m)[..|Whole(m)|] == Whole(m) && Whole(m')[..|Whole(m)|] == Whole(m');
    }
  }

  lemma PlainStep(env: Env, m: Mach)
    requires env.Valid() && env.variant.Win32Tib? && Settled(env, m)
    ensures Settled(env, Step(env, m))
  {
    hide Settled;
    match m.ctl
    case Exec(Raise(kind, code)) => PlainRaises(env, m, kind, code);
    case Exec(s) => PlainExec(env, m, s);
    case Return => PlainReturn(env, m);
    case Leaving => PlainReturn(env, m);
    case Loop => if InFilter(m) { PlainFilter(env, m); } else { PlainLoop(env, m); }
    case Search(why, p) => PlainSearch(env, m, why, p);
    case Callback => PlainCallback(env, m);
    case Halted(_) =>
  }

  lemma {:induction false} PlainSteps(env: Env, n: nat, m: Mach)
    requires env.Valid() && env.variant.Win32Tib? && Settled(env, m)
    ensures Settled(env, Steps(env, n, m))
  {
    hide Settled, Step;
    if n > 0 {
      PlainStep(env, m);
      PlainSteps(env, n - 1, Step(env, m));
    }
  }

  // ----- all frames are live -----

  predicate AllLive(env: Env, w: Stack) {
    forall i :: 0 <= i < |w| && w[i].KTry? ==> OnChain(env, w[i], Win32Chain)
  }

  lemma {:induction false} LiveTops(env: Env, w: Stack)
    requires env.Valid() && AllLive(env, w)
    ensures var p, q := Top(env, w, Win32Chain), Top(env, w, Os2Chain); p == q || (p < 0 && q < 0)
  {
    if w != [] && !OnChain(env, Last(w), Os2Chain) { LiveTops(env, Init(w)); }
  }

  /** Where all frames were installed with FS on the Win32 selector, and no RaiseException is
      being called, the chains are not apart. */
  lemma LiveIsAligned(env: Env, m: Mach)
    requires env.Valid() && env.variant.Win32Tib? && Inv(env, m) && AllLive(env, Installed(m))
    requires m.ctl.Exec? && m.ctl.s.Raise? ==> m.ctl.s.kind.Hardware?
    ensures AlignedAt(env, m)
  {
    hide Shape, StatesOk, Fns;
    match m.ctl
    case Exec(_) => LiveTops(env, m.stack);
    case Callback =>
      if Passes(m) {
        var w, p := Whole(m), |m.stack| - 1;
        FrameAt(env, w, p);
        assert OnChain(env, w[p], Win32Chain) && OnChain(env, w[p], Os2Chain);
        LiveTops(env, w[..p]);
      }
    case _ =>
  }

  lemma SettledIsAligned(env: Env, m: Mach)
    requires env.Valid() && env.variant.Win32Tib? && Settled(env, m)
    ensures AlignedAt(env, m)
  {
    hide Shape, StatesOk, Fns, HeadsOk, InCall, IsPlain;
    var w := Installed(m);
    forall i | 0 <= i < |w| && w[i].KTry? ensures OnChain(env, w[i], Win32Chain) {
      assert PlainCell(env, Whole(m)[i], Whole(m)[..i]);
      FrameAt(env, Whole(m), i);
    }
    if m.ctl.Exec? && m.ctl.s.Raise? { PlainRaise(m.ctl.s, InCall(m.stack)); }
    LiveIsAligned(env, m);
  }

  lemma PlainRaise(s: Stmt, inCall: bool)
    requires IsPlain(s, inCall) && s.Raise?
    ensures s.kind.Hardware?
  {
  }

  /** Plain programs, clean or not: the variants go together for ever. In the Win32-TIB variant
      the thread begins on its Win32 selector; in the other, on any. */
  lemma PlainGoInStep(env: Env, s: Stmt, fs': Selector, calls: seq<nat>, n: nat)
    requires env.Valid() && env.variant.Win32Tib? && IsPlain(s, false)
    ensures AlwaysAligned(env, Start(env, s, env.tebSel, calls))
    ensures
      InStep(Steps(env, n, Start(env, s, env.tebSel, calls)), Steps(Other(env), n, Start(Other(env), s, fs', calls)))
  {
    hide Steps, AlignedAt, Settled, Inv;
    var m := Start(env, s, env.tebSel, calls);
    PlainStart(env, s, calls);
    forall j: nat ensures AlignedAt(env, Steps(env, j, m)) {
      PlainSteps(env, j, m);
      SettledIsAligned(env, Steps(env, j, m));
    }
    VariantsGoInStep(env, s, env.tebSel, fs', calls, n);
  }

  lemma PlainStart(env: Env, s: Stmt, calls: seq<nat>)
    requires env.Valid() && IsPlain(s, false)
    ensures Settled(env, Start(env, s, env.tebSel, calls))
  {
    StartInv(env, s, env.tebSel, calls);
  }

  /** Among them is a finally block that faults and so is run for ever: not clean, and the same
      record in both variants at every step. */
  lemma FaultingFinallyInStep(env: Env, code: int, fs': Selector, calls: seq<nat>, n: nat)
    requires env.Valid() && env.variant.Win32Tib?
    ensures var s := Try(Skip, Finally, Raise(Hardware, code));
      && !Run(env, s, [], St([], env.tebSel, calls, true)).st.clean
      && Steps(env, n, Start(env, s, env.tebSel, calls)).trace ==
         Steps(Other(env), n, Start(Other(env), s, fs', calls)).trace
  {
    hide Steps, Run;
    PlainGoInStep(env, Try(Skip, Finally, Raise(Hardware, code)), fs', calls, n);
    FaultingFinallyIsUnclean(env, code, calls);
  }

  lemma FaultingFinallyIsUnclean(env: Env, code: int, calls: seq<nat>)
    requires env.variant.Win32Tib?
    ensures !Run(env, Try(Skip, Finally, Raise(Hardware, code)), [], St([], env.tebSel, calls, true)).st.clean
  {
    var s := Try(Skip, Finally, Raise(Hardware, code));
    var st := St([], env.tebSel, calls, true);
    var entered := St([Enter(0)], env.tebSel, calls, true);
    var h := St([Enter(0), Handling(0)], env.tebSel, calls, true);
    var g := Guard(Finally, true, true);
    assert st.Emit(Enter(0)) == entered && entered.Emit(Handling(0)) == h && [] + [g] == [g];
    assert BodyOf(env, s, [], st) == Res(Normal, entered);
    assert Run(env, s, [], st) == RunHandler(env, s, [], env.tebSel, entered);
    assert Run(env, Raise(Hardware, code), [g], h) == Ask(env, Hardware, code, [g], h);
    assert [g][..0] == [];
    assert !Ask(env, Hardware, code, [g], h).st.clean;
  }
}
