/** What the state loop of any __try visits, on the machine, in every run that comes to its end,
    and so how often its handler block runs. */
module BlockRuns {
  import opened Programs
  import opened Machine
  import opened Invariant
  import opened Levels
  import opened Blocks
  import opened FinallyRuns

  /** What takes a frame's loop out of its block: its filter takes an exception, or lets one go
      on (resumed or further out), or the block is due without a question: after a __leave, at
      the end of the body of a __finally, or at the end of the block itself in state 1. */
  datatype Cause = Took | LetGo | Direct

  /** The cause in the next step, if there is one. */
  function Causes(m: Mach, h: nat): seq<Cause> {
    if |m.stack| != h + 1 || !m.AtTry() then [] else
    var k := Last(m.stack);
    match m.ctl
    case Callback => if !InFilter(m) then [] else if k.frame.filterResult == EXECUTE_HANDLER then [Took] else [LetGo]
    case Leaving => [Direct]
    case Return => if (if k.at.InBody? then k.clause.Finally? else k.frame.state == 1) then [Direct] else []
    case _ => []
  }

  /** All the causes in the first `n` steps. */
  function AllCauses(env: Env, n: nat, m: Mach, h: nat): seq<Cause> {
    if n == 0 then [] else AllCauses(env, n - 1, m, h) + Causes(Steps(env, n - 1, m), h)
  }

  /** The visits that go with a cause, and with several. */
  function VisitsOf(c: Cause): seq<int> {
    match c
    case Took => [1, 2]
    case LetGo => [1]
    case Direct => [2]
  }

  function Visits(cs: seq<Cause>): seq<int> {
    if cs == [] then [] else Visits(Init(cs)) + VisitsOf(Last(cs))
  }

  /** How many of the causes run the handler block. */
  function Runs(cs: seq<Cause>): nat {
    if cs == [] then 0 else Runs(Init(cs)) + if Last(cs).LetGo? then 0 else 1
  }

  // ----- where the loop of the frame stands -----

  /** What the loop has recorded when `cs` have been the causes. */
  function RecordedBy(ph: Phase, cs: seq<Cause>): seq<int> {
    match ph
    case Entering => []
    case Answered => [0] + Visits(cs) + [1]
    case Due => [0] + Visits(if cs == [] then [] else Init(cs)) + if cs != [] && Last(cs).Took? then [1] else []
    case Closed => [0] + Visits(cs) + [3]
    case _ => [0] + Visits(cs)
  }

  predicate CausesOk(ph: Phase, cs: seq<Cause>) {
    && (ph.Due? ==> cs != [] && !Last(cs).LetGo?)
    && (ph.Entering? ==> cs == [])
  }

  /** Control is on its way to a crash, or has crashed. */
  predicate Lost(m: Mach, h: nat) {
    PhaseOf(m, h).Astray? || m.ctl == Halted(Crashed)
  }

  /** The record is as the causes so far demand. */
  predicate Follows(m: Mach, h: nat, d: nat, base: seq<int>, cs: seq<Cause>) {
    && h < |Whole(m)| && Whole(m)[h].KTry? && Depth(Whole(m)[..h]) == d
    && (Lost(m, h) ||
          (CausesOk(PhaseOf(m, h), cs) && States(m.trace, d) == base + RecordedBy(PhaseOf(m, h), cs)))
  }

  // ----- one step -----

  lemma VisitsMore(cs: seq<Cause>, c: Cause)
    ensures Visits(cs + [c]) == Visits(cs) + VisitsOf(c)
    ensures cs + [c] != [] && Last(cs + [c]) == c && Init(cs + [c]) == cs
  {
    assert Init(cs + [c]) == cs;
  }

  /** How the record and the causes go together from one phase to the next. */
  predicate Fits(ph: Phase, ph': Phase, visit: seq<int>, c: seq<Cause>) {
    match ph
    case Entering => ph'.Inside? && visit == [0] && c == []
    case Inside =>
      if c == [] then visit == [] && (ph'.Inside? || ph'.Asking? || ph'.Closing?)
      else c == [Direct] && visit == [] && ph'.Due?
    case Asking => ph'.Answered? && visit == [1] && c == []
    case Answered => visit == [] && if c == [Took] then ph'.Due? else c == [LetGo] && ph'.Inside?
    case Due => ph'.Inside? && visit == [2] && c == []
    case Closing => ph'.Closed? && visit == [3] && c == []
    case _ => false
  }

  lemma FitsRecord(ph: Phase, ph': Phase, visit: seq<int>, c: seq<Cause>, base: seq<int>, cs: seq<Cause>)
    requires Fits(ph, ph', visit, c) && CausesOk(ph, cs)
    ensures CausesOk(ph', cs + c) && base + RecordedBy(ph, cs) + visit == base + RecordedBy(ph', cs + c)
  {
    hide Visits;
    assert cs + [] == cs;
    if c != [] { VisitsMore(cs, c[0]); assert cs + c == cs + [c[0]]; }
    if ph.Entering? { assert Visits([]) == [] by { VisitsNone(); } }
    if ph.Due? {
      VisitsMore(Init(cs), Last(cs));
      assert Init(cs) + [Last(cs)] == cs;
      assert [1] + [2] == [1, 2];
    }
  }

  lemma VisitsNone()
    ensures Visits([]) == []
  {
  }

  ghost predicate StepFits(m: Mach, m': Mach, h: nat, d: nat) {
    || Lost(m', h)
    || exists visit :: Fits(PhaseOf(m, h), PhaseOf(m', h), visit, Causes(m, h)) &&
         States(m'.trace, d) == States(m.trace, d) + visit
  }

  lemma FitsFollows(m: Mach, m': Mach, h: nat, d: nat, base: seq<int>, cs: seq<Cause>)
    requires Follows(m, h, d, base, cs) && !Lost(m, h) && StepFits(m, m', h, d)
    requires Kept(Whole(m), Whole(m')) && h < |Whole(m')|
    ensures Follows(m', h, d, base, cs + Causes(m, h))
  {
    hide Whole, PhaseOf, States, Causes, Kept, RecordedBy, Depth;
    DepthKept(Whole(m), Whole(m'), h);
    KeptTry(Whole(m), Whole(m'), h);
    if !Lost(m', h) {
      var visit :| Fits(PhaseOf(m, h), PhaseOf(m', h), visit, Causes(m, h)) &&
        States(m'.trace, d) == States(m.trace, d) + visit;
      FitsRecord(PhaseOf(m, h), PhaseOf(m', h), visit, Causes(m, h), base, cs);
    }
  }

  lemma ElsewhereFits(m: Mach, m': Mach, h: nat, d: nat)
    requires Elsewhere(m, m', h, d) && PhaseOf(m, h).Inside? && Causes(m, h) == []
    ensures StepFits(m, m', h, d)
  {
    hide States;
    assert Fits(PhaseOf(m, h), PhaseOf(m', h), [], Causes(m, h));
    assert States(m'.trace, d) == States(m.trace, d) + [];
  }

  lemma LoopFits(env: Env, m: Mach, h: nat, d: nat)
    requires m.ctl == Loop && |m.stack| == h + 1 && m.AtTry() && Depth(m.stack[..h]) == d && h < |Whole(Step(env, m))|
    requires Last(m.stack).frame.state in {0, 1, 2, 3, 4} && (InFilter(m) ==> Last(m.stack).frame.state == 1)
    ensures StepFits(m, Step(env, m), h, d)
  {
    hide States, Depth, Step;
    assert Init(m.stack) == m.stack[..h];
    var m' := Step(env, m);
    if InFilter(m) {
      LoopInFilterKeepsRest(env, m);
      StatesAppend(m.trace, Last(m'.trace), d);
      assert Fits(PhaseOf(m, h), PhaseOf(m', h), [1], Causes(m, h));
    } else if Last(m.stack).frame.state in {0, 2, 3} {
      OwnTurn(env, m, h);
      StatesAppend(m.trace, Last(m'.trace), d);
      assert Fits(PhaseOf(m, h), PhaseOf(m', h), Visit(Last(m'.trace), d), Causes(m, h));
    } else {
      StrayTurn(env, m, h);
    }
  }

  /** State 1 at the loop without a handler that waits. */
  lemma StrayTurn(env: Env, m: Mach, h: nat)
    requires m.ctl == Loop && |m.stack| == h + 1 && m.AtTry() && !InFilter(m) && h < |Whole(Step(env, m))|
    requires Last(m.stack).frame.state == 1 || Last(m.stack).frame.state == 4
    ensures Lost(Step(env, m), h)
  {
    hide Depth, Head;
  }

  lemma BackFits(env: Env, m: Mach, h: nat, d: nat)
    requires Sane(m) && (m.ctl == Return || m.ctl == Leaving) && |m.stack| == h + 1 && m.AtTry()
    requires 0 <= Last(m.stack).frame.state <= 2
    ensures StepFits(m, Step(env, m), h, d)
  {
    hide States;
    var m' := Step(env, m);
    assert m.stack[h].frame.context.None?;
    assert !InFilter(m') && |m'.stack| == h + 1;
    if !Lost(m', h) {
      assert Fits(PhaseOf(m, h), PhaseOf(m', h), [], Causes(m, h));
      assert States(m'.trace, d) == States(m.trace, d) + [];
    }
  }

  lemma CallbackFits(env: Env, m: Mach, h: nat, d: nat)
    requires env.Valid() && Inv(env, m) && m.ctl == Callback && |m.stack| == h + 1 && InFilter(m)
    ensures StepFits(m, Step(env, m), h, d)
  {
    hide States, Shape, HeadsOk, Fns, StatesOk, Accept, ControlOk, Depth;
    var m' := Step(env, m);
    if Last(m.stack).frame.filterResult == EXECUTE_HANDLER {
      OwnAccept(env, m, h);
    }
    assert Fits(PhaseOf(m, h), PhaseOf(m', h), [], Causes(m, h));
    assert States(m'.trace, d) == States(m.trace, d) + [];
  }

  lemma SearchFits(env: Env, m: Mach, h: nat, d: nat)
    requires env.Valid() && Inv(env, m) && m.ctl.Search? && Comes(m, h) == [true]
    ensures StepFits(m, Step(env, m), h, d)
  {
    hide States, Shape, HeadsOk, Fns, StatesOk, Depth, Same;
    EnterFilterKeeps(env, m, m.ctl.why, h);
    var m' := Step(env, m);
    assert Fits(PhaseOf(m, h), PhaseOf(m', h), [], Causes(m, h));
    assert States(m'.trace, d) == States(m.trace, d) + [];
  }

  /** Control that is lost stays lost. */
  lemma LostStep(env: Env, m: Mach, h: nat)
    requires Inv(env, m) && Lost(m, h) && h < |Whole(Step(env, m))|
    ensures Lost(Step(env, m), h) && Causes(m, h) == []
  {
    hide Shape, HeadsOk, Fns, Depth, Head;
    if m.ctl == Loop { assert Whole(m)[|m.stack| - 1].KTry?; }
  }

  lemma StepFollows(env: Env, m: Mach, h: nat, d: nat, base: seq<int>, cs: seq<Cause>)
    requires env.Valid() && Inv(env, m) && Sane(m) && Follows(m, h, d, base, cs) && h < |Whole(Step(env, m))|
    ensures Follows(Step(env, m), h, d, base, cs + Causes(m, h))
  {
    hide Inv, Sane, States, Step, Depth, Kept, StepFits, RecordedBy;
    StepKeeps(env, m);
    var m' := Step(env, m);
    if Lost(m, h) {
      LostStep(env, m, h);
      DepthKept(Whole(m), Whole(m'), h);
      KeptTry(Whole(m), Whole(m'), h);
    } else {
      StepIsFit(env, m, h, d);
      FitsFollows(m, m', h, d, base, cs);
    }
  }

  lemma StepIsFit(env: Env, m: Mach, h: nat, d: nat)
    requires env.Valid() && Inv(env, m) && Sane(m) && !Lost(m, h) && h < |Whole(m)| && h < |Whole(Step(env, m))|
    requires Whole(m)[h].KTry? && Depth(Whole(m)[..h]) == d
    ensures StepFits(m, Step(env, m), h, d)
  {
    hide Inv, Sane, States, Elsewhere, Step, Depth, StepFits;
    var m' := Step(env, m);
    match m.ctl
    case Exec(s) =>
      ExecElsewhere(env, m, s, h, d);
      ElsewhereFits(m, m', h, d);
    case Loop => LoopStepFits(env, m, h, d);
    case Callback =>
      if |m.stack| == h + 1 { CallbackHere(env, m, h); CallbackFits(env, m, h, d); }
      else {
        CallbackElsewhere(env, m, h, d);
        ElsewhereFits(m, m', h, d);
      }
    case Search(_, _) =>
      if Comes(m, h) == [true] { SearchFits(env, m, h, d); }
      else {
        SearchElsewhere(env, m, h, d);
        ElsewhereFits(m, m', h, d);
      }
    case Halted(_) =>
      HaltedElsewhere(env, m, h, d);
      ElsewhereFits(m, m', h, d);
    case _ =>
      if |m.stack| == h + 1 {
        FrameStates(env, m);
        BackFits(env, m, h, d);
      } else {
        ReturnElsewhere(env, m, h, d);
        ElsewhereFits(m, m', h, d);
      }
  }

  lemma CallbackHere(env: Env, m: Mach, h: nat)
    requires Inv(env, m) && m.ctl == Callback && |m.stack| == h + 1 && !Lost(m, h)
    ensures InFilter(m)
  {
    hide Shape, HeadsOk, Fns, StatesOk;
  }

  lemma HaltedElsewhere(env: Env, m: Mach, h: nat, d: nat)
    requires m.ctl.Halted? && h < |Whole(m)| && Whole(m)[h].KTry?
    ensures Elsewhere(m, Step(env, m), h, d)
  {
  }

  lemma FrameStates(env: Env, m: Mach)
    requires Inv(env, m) && (m.ctl == Return || m.ctl == Leaving) && m.stack != []
    ensures m.AtTry() ==> 0 <= Last(m.stack).frame.state <= 2
  {
    hide Shape, HeadsOk, Fns;
    assert Whole(m) == m.stack;
    if m.AtTry() { assert Whole(m)[|m.stack| - 1].KTry?; }
  }

  lemma LoopStates(env: Env, m: Mach)
    requires Inv(env, m) && m.ctl == Loop
    ensures Last(m.stack).frame.state in {0, 1, 2, 3, 4} && (InFilter(m) ==> Last(m.stack).frame.state == 1)
  {
    hide Shape, HeadsOk, Fns;
    if !InFilter(m) { assert Whole(m)[|m.stack| - 1].KTry?; }
  }

  lemma LoopStepFits(env: Env, m: Mach, h: nat, d: nat)
    requires env.Valid() && Inv(env, m) && Sane(m) && h < |Whole(m)| && h < |Whole(Step(env, m))|
    requires m.ctl == Loop && Whole(m)[h].KTry? && Depth(Whole(m)[..h]) == d
    ensures StepFits(m, Step(env, m), h, d)
  {
    hide Shape, HeadsOk, Fns, StatesOk, Sane, States, Elsewhere, Step, Depth, StepFits;
    BelowWhole(m);
    if |m.stack| == h + 1 {
      assert m.stack[..h] == Whole(m)[..h];
      LoopStates(env, m);
      LoopFits(env, m, h, d);
    } else {
      LoopElsewhere(env, m, h, d);
      ElsewhereFits(m, Step(env, m), h, d);
    }
  }

  // ----- whole runs -----

  lemma {:induction false} RunFollows(env: Env, n: nat, m: Mach, h: nat, d: nat, base: seq<int>)
    requires env.Valid() && Inv(env, m) && StaysAbove(env, n, m, h + 1) && Follows(m, h, d, base, [])
    ensures Follows(Steps(env, n, m), h, d, base, AllCauses(env, n, m, h))
  {
    hide Inv, Step, Whole, Causes, Follows;
    if n > 0 {
      var b := Steps(env, n - 1, m);
      StaysBefore(env, n, m, h + 1);
      RunFollows(env, n - 1, m, h, d, base);
      StepsKeepInv(env, n - 1, m);
      InvIsSane(env, b);
      LastStep(env, n, m);
      StaysNow(env, n, m, h + 1);
      StepFollows(env, b, h, d, base, AllCauses(env, n - 1, m, h));
    }
  }

  /** A __try of either kind that comes to its end, in any run, clean or not: its loop has been
      visited in state 0, then as the causes say (1 and 2 where its filter has taken an
      exception, 1 where it has not, 2 where the block was due without a question), then in
      state 3; and its handler block has been started as often as it was taken or due. So an
      except block has run once exactly if, of its own filter's acceptances, the __leaves that
      have come to its loop, and the ends of the block in state 1, there was one in all. */
  lemma BlockWord(env: Env, n: nat, m: Mach)
    requires env.Valid() && Inv(env, m) && m.ctl.Exec? && m.ctl.s.Try?
    requires StaysAbove(env, n, Step(env, m), |m.stack| + 1)
    requires var m' := Steps(env, n + 1, Step(env, m)); m'.ctl == Return && |m'.stack| == |m.stack|
    ensures var m' := Steps(env, n + 1, Step(env, m));
      var d := Depth(m.stack);
      var cs := AllCauses(env, n, Step(env, m), |m.stack|);
      && States(m'.trace, d) == States(m.trace, d) + ([0] + Visits(cs) + [3])
      && Starts(m'.trace, d) == Starts(m.trace, d) + Runs(cs)
  {
    hide Inv, Starts, States, Depth, Whole, Sane, StaysAbove, AllCauses, Visits, Runs, Step, Follows;
    var h, d := |m.stack|, Depth(m.stack);
    var m1 := Step(env, m);
    EntryFollows(env, m);
    RunFollows(env, n, m1, h, d, States(m.trace, d));
    var b := Steps(env, n, m1);
    StepsKeepInv(env, n, m1);
    InvIsSane(env, b);
    LastStep(env, n + 1, m1);
    EndFollows(env, b, h, d, States(m.trace, d), AllCauses(env, n, m1, h));
    StartsOf(m.trace, Steps(env, n + 1, m1).trace, d, AllCauses(env, n, m1, h));
  }

  lemma EntryFollows(env: Env, m: Mach)
    requires env.Valid() && Inv(env, m) && m.ctl.Exec? && m.ctl.s.Try?
    ensures var d := Depth(m.stack);
      Inv(env, Step(env, m)) && Follows(Step(env, m), |m.stack|, d, States(m.trace, d), [])
  {
    hide Inv, Depth, States;
    InstallKeeps(env, m, m.ctl.s);
    var m1 := Step(env, m);
    assert Whole(m1)[..|m.stack|] == m.stack;
    assert States(m.trace, Depth(m.stack)) + [] == States(m.trace, Depth(m.stack));
  }

  lemma EndFollows(env: Env, b: Mach, h: nat, d: nat, base: seq<int>, cs: seq<Cause>)
    requires Inv(env, b) && Sane(b) && Follows(b, h, d, base, cs)
    requires Step(env, b).ctl == Return && |Step(env, b).stack| == h
    ensures States(Step(env, b).trace, d) == base + ([0] + Visits(cs) + [3])
  {
    hide Depth, States, Visits, Shape, HeadsOk, Fns;
    ReturnsBelow(env, b, h);
    assert b.stack[h] == Last(b.stack) && Whole(b) == b.stack;
    if Unlinked(b) { LoopStates(env, b); }
  }

  lemma {:induction false} VisitStarts(cs: seq<Cause>)
    ensures Twos(Visits(cs)) == Runs(cs)
  {
    if cs != [] {
      VisitStarts(Init(cs));
      TwosAdd(Visits(Init(cs)), VisitsOf(Last(cs)));
      assert Init([1, 2]) == [1] && Init([1]) == [] && Init([2]) == [];
      assert Twos([1]) == 0;
    }
  }

  lemma StartsOf(t: Trace, t': Trace, d: nat, cs: seq<Cause>)
    requires States(t', d) == States(t, d) + ([0] + Visits(cs) + [3])
    ensures Starts(t', d) == Starts(t, d) + Runs(cs)
  {
    hide Visits, Runs, States, Starts;
    StartsAreTwos(t, d);
    StartsAreTwos(t', d);
    TwosAdd(States(t, d), [0] + Visits(cs) + [3]);
    TwosAdd([0] + Visits(cs), [3]);
    TwosAdd([0], Visits(cs));
    VisitStarts(cs);
    assert Init([0]) == [] && Init([3]) == [];
  }
}
