/** FS at the end of programs. */
module FinalFs {
  import opened Selectors
  import opened Programs
  import opened Machine
  import opened Invariant
  import opened Levels
  import opened Correctness
  import opened FsRecord
  import opened Crashes

  /** Code that loads FS only stands inside __try statements and calls. */
  predicate KeepsFs(s: Stmt) {
    match s
    case LoadFS(_) => false
    case Seq(a, b) => KeepsFs(a) && KeepsFs(b)
    case Choice(_, a, b) => KeepsFs(a) && KeepsFs(b)
    case _ => true
  }

  /** How many cells lie under the outermost __try statement, wrapper or instrumented function. */
  function Bottom(w: Stack): (o: nat)
    ensures o <= |w| && (forall i :: 0 <= i < o ==> w[i].KSeq?) && (o < |w| ==> !w[o].KSeq?)
  {
    if w == [] || !w[0].KSeq? then 0 else 1 + Bottom(w[1..])
  }

  /** FS in code that stands in none of them. */
  predicate OutsideFs(m: Mach, fs: Selector) {
    match m.ctl
    case Exec(s) => KeepsFs(s) && m.fs == fs
    case Search(_, _) => true
    case Halted(how) => how.Finished? ==> m.fs == fs
    case _ => m.fs == fs
  }

  /** The outermost of them has saved `fs`, or FS is that. */
  predicate KeptFs(env: Env, m: Mach, fs: Selector) {
    var w := Whole(m);
    var o := Bottom(w);
    && Inv(env, m)
    && (forall i :: 0 <= i < o ==> KeepsFs(w[i].next))
    && (if o < |w| then Saves(w[o], fs) else OutsideFs(m, fs))
    && (Unlinked(m) && !InFilter(m) ==> Saves(Last(m.stack), m.fs))
  }

  lemma {:induction false} BottomIs(w: Stack, o: nat)
    requires o <= |w| && (forall i :: 0 <= i < o ==> w[i].KSeq?) && (o < |w| ==> !w[o].KSeq?)
    ensures Bottom(w) == o
  {
  }

  /** A removed frame has put FS back. */
  lemma RemovedFs(env: Env, m: Mach)
    requires env.Valid() && env.variant.Win32Tib? && Inv(env, m)
    ensures var m' := Step(env, m); Unlinked(m') && !InFilter(m') ==> Saves(Last(m'.stack), m'.fs)
  {
    hide Inv, Unlinked, StepLoop, StepExec, StepReturn, StepLeave, StepSearch, StepCallback;
    var m' := Step(env, m);
    if Unlinked(m') && !InFilter(m') {
      UnlinkedIsRemoved(env, m);
      TurnIs(env, m);
      LoopFs(env, m);
    }
  }

  /** As long as the outermost one is there. */
  lemma InsideFs(env: Env, m: Mach, fs: Selector)
    requires env.Valid() && env.variant.Win32Tib? && KeptFs(env, m, fs)
    requires Bottom(Whole(m)) < |Whole(m)| && Bottom(Whole(m)) < |Whole(Step(env, m))|
    ensures KeptFs(env, Step(env, m), fs)
  {
    hide Inv, Step, Whole, Unlinked, Bottom;
    KeepsAll(env, m);
    RemovedFs(env, m);
    var a, b := Whole(m), Whole(Step(env, m));
    var o := Bottom(a);
    assert forall i :: 0 <= i <= o ==> Core(a[i]) == Core(b[i]);
    assert forall i :: 0 <= i < o ==> a[i] == b[i];
    BottomIs(b, o);
  }

  /** The step that takes it off. */
  lemma LeavingFs(env: Env, m: Mach, fs: Selector)
    requires env.Valid() && env.variant.Win32Tib? && KeptFs(env, m, fs)
    requires Bottom(Whole(m)) < |Whole(m)| && Bottom(Whole(m)) >= |Whole(Step(env, m))|
    ensures KeptFs(env, Step(env, m), fs)
  {
    hide Inv, Bottom, StepExec, StepLoop, StepCallback, StepSearch, Whole;
    KeepsAll(env, m);
    RemovedFs(env, m);
    TakesOff(env, m);
    WholeNow(m);
    if m.AtTry() { FrameKind(env, m); }
    var m' := Step(env, m);
    WholeNow(m');
    if m.ctl.Loop? { LoopPops(env, m); }
    assert m'.stack == Init(m.stack);
    BottomIs(m'.stack, |m'.stack|);
  }

  lemma FrameKind(env: Env, m: Mach)
    requires Inv(env, m) && env.variant.Win32Tib? && m.AtTry()
    ensures Last(m.stack).frame.Win32Frame?
  {
    FrameAt(env, Whole(m), |m.stack| - 1);
  }

  lemma TakesOff(env: Env, m: Mach)
    requires env.Valid() && Inv(env, m)
    requires Bottom(Whole(m)) < |Whole(m)| && Bottom(Whole(m)) >= |Whole(Step(env, m))|
    ensures !InFilter(m) && Step(env, m).ctl == Return && Step(env, m).stack == Init(m.stack)
    ensures m.stack != [] && Bottom(Whole(m)) == |m.stack| - 1
    ensures Unlinked(m) || (m.ctl == Return && (Last(m.stack).KWrap? || Last(m.stack).KFn?))
  {
    hide Shape, HeadsOk, Fns, StatesOk, Bottom, StepExec, StepLoop, StepCallback, StepSearch, Core;
    var w, m' := Whole(m), Step(env, m);
    match m.ctl {
      case Exec(_) => NothingGoes(env, m);
      case Loop =>
        if InFilter(m) { FilterWhole(env, m); }
        else if Last(m.stack).frame.state <= 3 { TurnIs(env, m); }
        else { LoopPops(env, m); }
      case Search(_, _) => NothingGoes(env, m);
      case Callback =>
        if !InFilter(m) { StrayCrashes(env, m); }
        else if Last(m.stack).frame.filterResult == EXECUTE_HANDLER { TakesIs(env, m); }
        else { DeclineIs(env, m); }
      case _ =>
        if m.AtTry() { BlockEndKeeps(env, m); FrameAt(env, m.stack, |m.stack| - 1); }
    }
  }

  lemma NothingGoes(env: Env, m: Mach)
    requires env.Valid() && Inv(env, m) && (m.ctl.Exec? || m.ctl.Search?)
    ensures |Whole(Step(env, m))| >= |Whole(m)|
  {
    hide Shape, HeadsOk, Fns, StatesOk, EnterFilter, Install, WalkOs2;
    match m.ctl
    case Exec(s) =>
      if s.Raise? { RaiseKeeps(env, m, s.kind, s.code); }
      if s.Try? { InstallStep(env, m, s); }
    case Search(why, p) => if IsFrame(m.stack, p) { EnterFilterKeeps(env, m, why, p); }
  }

  /** Code that stands in none of them. */
  lemma OutsideStep(env: Env, m: Mach, fs: Selector)
    requires env.Valid() && env.variant.Win32Tib? && KeptFs(env, m, fs) && Bottom(Whole(m)) == |Whole(m)|
    ensures KeptFs(env, Step(env, m), fs)
  {
    hide Shape, HeadsOk, Fns, StatesOk, Bottom, StepExec;
    KeepsAll(env, m);
    var m' := Step(env, m);
    assert !InFilter(m) && !m.AtTry();
    match m.ctl {
      case Exec(s) => OutsideExec(env, m, s, fs);
      case Return => BottomIs(m'.stack, |m'.stack|);
      case Leaving => BottomIs(m'.stack, |m'.stack|);
      case Search(_, _) =>
      case Halted(_) =>
    }
  }

  lemma OutsideExec(env: Env, m: Mach, s: Stmt, fs: Selector)
    requires env.Valid() && env.variant.Win32Tib? && KeptFs(env, m, fs)
    requires m.ctl == Exec(s) && Bottom(m.stack) == |m.stack|
    ensures KeptFs(env, Step(env, m), fs)
  {
    hide Inv, Bottom, Install, WalkOs2, Head, InFilter, Whole, Kept;
    KeepsAll(env, m);
    RemovedFs(env, m);
    var m' := Step(env, m);
    ExecWhole(env, m, s);
    SelectorSurvivesShort(m.fs);
    if s.Raise? {
      RaiseKeeps(env, m, s.kind, s.code);
      assert forall i :: 0 <= i < |m.stack| ==> Core(m.stack[i]) == Core(m'.stack[i]);
      assert forall i :: 0 <= i < |m.stack| ==> m.stack[i] == m'.stack[i];
    }
    if s.Try? { InstallStep(env, m, s); }
    BottomIs(m'.stack, if |m'.stack| > |m.stack| && !s.Seq? then |m.stack| else |m'.stack|);
  }

  lemma {:induction false} StepsKeptFs(env: Env, n: nat, m: Mach, fs: Selector)
    requires env.Valid() && env.variant.Win32Tib? && KeptFs(env, m, fs)
    ensures KeptFs(env, Steps(env, n, m), fs)
  {
    hide KeptFs, Step, Bottom;
    if n > 0 {
      if Bottom(Whole(m)) == |Whole(m)| { OutsideStep(env, m, fs); }
      else if Bottom(Whole(m)) < |Whole(Step(env, m))| { InsideFs(env, m, fs); }
      else { LeavingFs(env, m, fs); }
      StepsKeptFs(env, n - 1, Step(env, m), fs);
    }
  }

  lemma StartKeptFs(env: Env, s: Stmt, fs: Selector, calls: seq<nat>)
    requires env.Valid() && KeepsFs(s)
    ensures KeptFs(env, Start(env, s, fs, calls), fs)
  {
    StartInv(env, s, fs, calls);
  }

  /** FS at the end of any program that finishes, clean or not. It is what the record says, so
      what it was at the start exactly if no change of FS stands, or the last that does left it
      at that; and in the Win32-TIB variant what it was at the start also if code that loads FS
      only stands inside __try statements and calls. */
  lemma FinishesWithFs(env: Env, s: Stmt, fs: Selector, calls: seq<nat>, n: nat)
    requires env.Valid() && Steps(env, n, Start(env, s, fs, calls)).ctl == Halted(Finished)
    ensures var m0 := Start(env, s, fs, calls);
      var m := Steps(env, n, m0);
      && (env.variant.Win32Tib? && KeepsFs(s) ==> m.fs == fs)
      && (env.variant.Os2Only? || KnownFor(env, n, m0) ==>
            && m.fs == FsAfter(env, m.trace, fs)
            && (m.fs == fs <==> forall i :: LastStands(env, m.trace, i) ==> FsOf(env, m.trace[i]) == fs))
  {
    hide Steps, Stands, KnownFor, KeepsFs;
    var m0 := Start(env, s, fs, calls);
    if env.variant.Win32Tib? && KeepsFs(s) {
      StartKeptFs(env, s, fs, calls);
      StepsKeptFs(env, n, m0, fs);
      FinishedIsEmpty(env, n, m0);
    }
    if env.variant.Os2Only? || KnownFor(env, n, m0) {
      FsIsOnRecord(env, s, fs, calls, n);
      StandingFs(env, Steps(env, n, m0).trace, fs);
    }
  }
}
