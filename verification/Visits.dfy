/** What the record tells of the state of a frame whose except or finally block is running: its
    last visit has left it there. */
module Visits {
  import opened Selectors
  import opened Programs
  import opened Machine
  import opened Invariant
  import opened Levels
  import opened Correctness
  import opened Blocks
  import opened FinallyRuns

  /** The last visit of the loop at depth `d`. */
  function LastVisit(t: Trace, d: nat): Option<Event> {
    if t == [] then None
    else if Visit(Last(t), d) != [] then Some(Last(t))
    else LastVisit(Init(t), d)
  }

  /** State 0 when its filter has resumed an exception of the block, 1 when it has let one pass,
      2 when the block has just been started. */
  predicate StateTells(state: int, v: Option<Event>) {
    && v.Some?
    && state == match v.value
       case Asked(_, _, answer) => if answer == CONTINUE_EXECUTION then 0 else 1
       case _ => 2
  }

  /** The frame in cell `h`, while control is not at its own loop; and the answer its handler
      is about to act on. */
  predicate CellTells(m: Mach, h: nat) {
    var w := Whole(m);
    h < |w| && w[h].KTry? && m.ctl != Halted(Crashed) ==>
      var v := LastVisit(m.trace, Depth(w[..h]));
      && (w[h].at.InHandler? && PhaseOf(m, h).Inside? ==> StateTells(w[h].frame.state, v))
      && (PhaseOf(m, h).Answered? ==>
            v.Some? && v.value.Asked? && v.value.answer == w[h].frame.filterResult && w[h].frame.state == 1)
  }

  predicate RecordTells(m: Mach) {
    forall h: nat :: h < |Whole(m)| ==> CellTells(m, h)
  }

  // ----- one step -----

  lemma SameVisit(t: Trace, t': Trace, d: nat)
    requires Appends(t, t') && States(t', d) == States(t, d)
    ensures LastVisit(t', d) == LastVisit(t, d)
  {
    if t' != t {
      assert t' == t + [Last(t')];
      StatesAppend(t, Last(t'), d);
      assert Init(t') == t;
    }
  }

  lemma NewVisit(t: Trace, e: Event, d: nat)
    requires Visit(e, d) != []
    ensures LastVisit(t + [e], d) == Some(e)
  {
  }

  lemma ElsewhereTells(env: Env, m: Mach, h: nat)
    requires Sane(m) && CellTells(m, h) && m.ctl != Halted(Crashed) && PhaseOf(m, h).Inside?
    requires h < |Whole(m)| && h < |Whole(Step(env, m))| && Whole(m)[h].KTry?
    requires Elsewhere(m, Step(env, m), h, Depth(Whole(m)[..h]))
    ensures CellTells(Step(env, m), h)
  {
    hide Step, Whole, PhaseOf, States, Depth, Kept, Sane, Comes, LastVisit, StateTells;
    StepAppends(env, m);
    StepKeeps(env, m);
    DepthKept(Whole(m), Whole(Step(env, m)), h);
    SameVisit(m.trace, Step(env, m).trace, Depth(Whole(m)[..h]));
  }

  /** The frame's own loop. */
  lemma OwnLoopTells(env: Env, m: Mach, h: nat)
    requires Inv(env, m) && m.ctl == Loop && |m.stack| == h + 1
    ensures CellTells(Step(env, m), h)
  {
    hide Shape, HeadsOk, Fns, Depth, StepLoop, LastVisit, Verdict;
    var m' := Step(env, m);
    var d := Depth(Init(m.stack));
    BelowWhole(m);
    if InFilter(m) {
      LoopInFilterKeepsRest(env, m);
      FilterWhole(env, m);
      NewVisit(m.trace, Last(m'.trace), d);
      assert Whole(m')[..h] == Init(m.stack);
    } else if Last(m.stack).frame.state <= 3 {
      TurnIs(env, m);
      NewVisit(m.trace, Last(m'.trace), d);
      assert m'.stack[..h] == Init(m.stack) && m'.stack[h] == Last(m'.stack);
    } else {
      LoopPops(env, m);
    }
  }

  /** The handler acts on the answer. */
  lemma OwnCallbackTells(env: Env, m: Mach, h: nat)
    requires env.Valid() && Inv(env, m) && m.ctl == Callback && |m.stack| == h + 1 && CellTells(m, h)
    ensures CellTells(Step(env, m), h)
  {
    hide Shape, HeadsOk, Fns, Depth, StepCallback, LastVisit;
    var m' := Step(env, m);
    BelowWhole(m);
    if !InFilter(m) {
      StrayCrashes(env, m);
    } else if Last(m.stack).frame.filterResult == EXECUTE_HANDLER {
      TakesIs(env, m);
      assert m'.stack[h] == Last(m'.stack);
    } else {
      DeclineIs(env, m);
      AnsweredCell(m, h);
      assert m'.stack[..h] == Whole(m)[..h];
    }
  }

  lemma AnsweredCell(m: Mach, h: nat)
    requires m.ctl == Callback && InFilter(m) && |m.stack| == h + 1
    ensures h < |Whole(m)| && Whole(m)[h].KTry? && PhaseOf(m, h).Answered?
    ensures Whole(m)[h] == Last(m.stack).(frame := Last(m.stack).frame.(context := None))
  {
  }

  /** A cell that the step has pushed. */
  lemma NewCellTells(env: Env, m: Mach, h: nat)
    requires env.Valid() && Inv(env, m) && |Whole(m)| <= h < |Whole(Step(env, m))|
    ensures CellTells(Step(env, m), h)
  {
    hide Inv, Depth, LastVisit, StepLoop, StepCallback, StepSearch, Whole, Head, Install, PhaseOf;
    NothingElsePushes(env, m);
    ExecWhole(env, m, m.ctl.s);
    PhaseInside(Step(env, m), h);
    if m.ctl.s.Try? { InstallStep(env, m, m.ctl.s); }
    if m.ctl.s.Raise? { WalkIsSame(m.stack, Head(m.heads, OS2_SEL)); }
  }

  lemma PhaseInside(m: Mach, h: nat)
    ensures PhaseOf(m, h).Answered? ==> m.ctl == Callback
  {
  }

  lemma NothingElsePushes(env: Env, m: Mach)
    requires env.Valid() && Inv(env, m) && |Whole(Step(env, m))| > |Whole(m)|
    ensures m.ctl.Exec?
  {
    hide Shape, HeadsOk, Fns, StatesOk, StepLoop, StepCallback, StepSearch, Depth;
    match m.ctl {
      case Exec(_) =>
      case Loop =>
        if InFilter(m) { FilterWhole(env, m); }
        else if Last(m.stack).frame.state <= 3 { TurnIs(env, m); }
        else { LoopPops(env, m); }
      case Search(why, p) => SearchPushesNothing(env, m, why, p);
      case Callback =>
        if !InFilter(m) { StrayCrashes(env, m); }
        else if Last(m.stack).frame.filterResult == EXECUTE_HANDLER { TakesIs(env, m); }
        else { DeclineIs(env, m); }
      case _ => if m.AtTry() { FrameAt(env, m.stack, |m.stack| - 1); }
    }
  }

  lemma SearchPushesNothing(env: Env, m: Mach, why: Dispatch, p: Ptr)
    requires env.Valid() && Inv(env, m) && m.ctl == Search(why, p)
    ensures |Whole(Step(env, m))| == |Whole(m)|
  {
    hide Shape, HeadsOk, Fns, StatesOk, EnterFilter;
    if IsFrame(m.stack, p) { EnterFilterKeeps(env, m, why, p); }
  }

  /** The handler of the frame is called, or its body or block has ended: control is at its
      loop, of which nothing is claimed. */
  lemma OwnLoopNext(env: Env, m: Mach, h: nat)
    requires env.Valid() && Inv(env, m)
    requires if m.ctl.Search? then Comes(m, h) != []
             else (m.ctl == Return || m.ctl == Leaving) && |m.stack| == h + 1 && m.AtTry()
    ensures CellTells(Step(env, m), h)
  {
    hide Shape, HeadsOk, Fns, StatesOk, EnterFilter, Depth, LastVisit;
    if m.ctl.Search? { EnterFilterKeeps(env, m, m.ctl.why, h); }
  }

  lemma CellStep(env: Env, m: Mach, h: nat)
    requires env.Valid() && Inv(env, m) && Sane(m) && CellTells(m, h)
    requires h < |Whole(m)| && h < |Whole(Step(env, m))|
    ensures CellTells(Step(env, m), h)
  {
    hide Inv, Sane, CellTells, Elsewhere, Step, Depth, Comes;
    var d := Depth(Whole(m)[..h]);
    if !Whole(m)[h].KTry? {
      NoTryTells(env, m, h);
    } else {
      match m.ctl
      case Exec(s) =>
        ExecElsewhere(env, m, s, h, d);
        ElsewhereTells(env, m, h);
      case Loop =>
        if |m.stack| == h + 1 { OwnLoopTells(env, m, h); }
        else {
          LoopElsewhere(env, m, h, d);
          ElsewhereTells(env, m, h);
        }
      case Search(_, _) =>
        if Comes(m, h) != [] { OwnLoopNext(env, m, h); }
        else {
          SearchElsewhere(env, m, h, d);
          ElsewhereTells(env, m, h);
        }
      case Callback =>
        if |m.stack| == h + 1 { OwnCallbackTells(env, m, h); }
        else {
          CallbackElsewhere(env, m, h, d);
          ElsewhereTells(env, m, h);
        }
      case Halted(_) => HaltedTells(env, m, h);
      case _ =>
        if |m.stack| == h + 1 { OwnLoopNext(env, m, h); }
        else {
          ReturnElsewhere(env, m, h, d);
          ElsewhereTells(env, m, h);
        }
    }
  }

  lemma NoTryTells(env: Env, m: Mach, h: nat)
    requires Sane(m) && h < |Whole(m)| && h < |Whole(Step(env, m))| && !Whole(m)[h].KTry?
    ensures CellTells(Step(env, m), h)
  {
    hide Sane, Step, Whole, Depth, LastVisit;
    StepKeeps(env, m);
    assert Core(Whole(m)[h]) == Core(Whole(Step(env, m))[h]);
  }

  lemma HaltedTells(env: Env, m: Mach, h: nat)
    requires m.ctl.Halted? && CellTells(m, h)
    ensures CellTells(Step(env, m), h)
  {
  }

  lemma {:induction false} StepsTell(env: Env, n: nat, m: Mach)
    requires env.Valid() && Inv(env, m) && RecordTells(m)
    ensures RecordTells(Steps(env, n, m))
  {
    hide Inv, CellTells, Step, Whole;
    if n > 0 {
      var m' := Step(env, m);
      InvIsSane(env, m);
      StepKeepsInv(env, m);
      forall h: nat | h < |Whole(m')| ensures CellTells(m', h) {
        if h < |Whole(m)| { CellStep(env, m, h); } else { NewCellTells(env, m, h); }
      }
      StepsTell(env, n - 1, m');
    }
  }

  lemma StartTells(env: Env, s: Stmt, fs: Selector, calls: seq<nat>)
    ensures RecordTells(Start(env, s, fs, calls))
  {
  }

  /** At any moment of any run, a frame whose except or finally block is running: its state is
      what its last visit on record has left it in. */
  lemma StateIsOnRecord(env: Env, s: Stmt, fs: Selector, calls: seq<nat>, n: nat, h: nat)
    requires env.Valid()
    ensures var m := Steps(env, n, Start(env, s, fs, calls));
      && (m.ctl != Halted(Crashed) && h < |Whole(m)| && IsFrame(Whole(m), h) && Whole(m)[h].at.InHandler?
          && PhaseOf(m, h).Inside? ==>
            StateTells(Whole(m)[h].frame.state, LastVisit(m.trace, Depth(Whole(m)[..h]))))
  {
    hide Steps, LastVisit, Depth, Whole, StateTells, PhaseOf;
    StartInv(env, s, fs, calls);
    StartTells(env, s, fs, calls);
    var m := Steps(env, n, Start(env, s, fs, calls));
    StepsTell(env, n, Start(env, s, fs, calls));
    if h < |Whole(m)| { assert CellTells(m, h); }
  }
}
