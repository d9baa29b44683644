/** The call wrappers: FS around OS/2 calls and instrumented functions, the call trace, and
    exceptions that resume. */
module Calls {
  import opened Selectors
  import opened Programs
  import opened Reference
  import opened Machine
  import opened Invariant
  import opened Lowering
  import opened Correctness
  import opened Laws
  import opened Levels
  import opened Scratch

  // ----- FS -----

  predicate NativeOnOs2(t: Trace) {
    forall i :: 0 <= i < |t| && t[i].Native? ==> t[i].fs == 0x150b
  }

  /** In every run, clean or not, every native callee starts with FS on the OS/2 selector. */
  lemma {:induction false} NativeCalleesOnOs2(env: Env, n: nat, m: Mach)
    requires NativeOnOs2(m.trace)
    ensures NativeOnOs2(Steps(env, n, m).trace)
  {
    hide Step;
    if n > 0 {
      StepAppends(env, m);
      NativeCalleesOnOs2(env, n - 1, Step(env, m));
    }
  }

  /** A clean wrapper call whose structured run ends normally returns, with the caller's exact
      selector (Levels.WrapperRestoresFs is the law for all runs). */
  lemma WrapperCompletes(env: Env, s: Stmt, m: Mach) returns (n: nat)
    requires env.Valid() && Inv(env, m) && m.ctl == Exec(s) && (s.OS2Call? || s.Traced?) && WellFormed(s, false)
    requires RunFrom(env, s, m).st.clean && RunFrom(env, s, m).out.Normal?
    ensures var m' := Steps(env, n, m); Completed(env, m, m') && m'.fs == m.fs
  {
    n := StatementCompletes(env, s, false, m);
    assert StOf(Steps(env, n, m)).fs == m.fs;
  }

  // ----- resumption -----

  /** An exception that some filter answers with "continue execution" leaves the stack, both
      chains, FS and the call trace as they were; only the questions are on record. */
  lemma ResumptionIsTransparent(env: Env, m: Mach, kind: Kind, code: int) returns (n: nat)
    requires env.Valid() && Inv(env, m) && m.ctl == Exec(Raise(kind, code))
    requires var r := RunFrom(env, Raise(kind, code), m); r.st.clean && r.out.Normal?
    ensures var m' := Steps(env, n, m);
      && Completed(env, m, m') && m'.fs == m.fs && m'.calls == m.calls
      && m.trace <= m'.trace
      && forall i :: |m.trace| <= i < |m'.trace| ==> m'.trace[i].Asked?
  {
    var r;
    n, r := ResumedAt(env, m, kind, code);
  }

  lemma {:induction false} AskResumed(env: Env, kind: Kind, code: int, gs: seq<Guard>, st: St)
    ensures var r := Ask(env, kind, code, gs, st);
      r.out.Normal? ==>
        && (r.st.fs, r.st.calls) == (st.fs, st.calls)
        && st.trace <= r.st.trace
        && forall i :: |st.trace| <= i < |r.st.trace| ==> r.st.trace[i].Asked?
    decreases |gs|
  {
    if gs != [] {
      var d := |gs| - 1;
      AskResumed(env, kind, code, gs[..d], st);
      AskResumed(env, kind, code, gs[..d], st.(clean := false));
      AskResumed(env, kind, code, gs[..d], st.Emit(Asked(d, code, Verdict(env, gs[d].clause, code, st.trace))));
    }
  }

  /** The same of every raise, also one that meets frames whose handler blocks are running
      (which keep what the question has written, see Findings): stack level, both chains, FS
      and the call trace are as they were. */
  lemma ResumptionBalances(env: Env, m: Mach, kind: Kind, code: int) returns (n: nat)
    requires env.Valid() && Inv(env, m) && m.ctl == Exec(Raise(kind, code))
    requires !Swallowed(env, kind, Guards(env, m.stack), m.fs)
    requires Ask(env, kind, code, Unmarked(Guards(env, m.stack)), StOf(m)).out.Normal?
    ensures var m' := Steps(env, n, m);
      && m'.ctl == Return && Balanced(env, m, m') && m'.fs == m.fs && m'.calls == m.calls
      && m.trace <= m'.trace
      && forall i :: |m.trace| <= i < |m'.trace| ==> m'.trace[i].Asked?
  {
    hide Shape, Fns, Same, StatesOk, ControlOk;
    var j;
    n, j := MachineFilterSelection(env, m, kind, code);
    var m' := Steps(env, n, m);
    AskResumed(env, kind, code, Unmarked(Guards(env, m.stack)), StOf(m));
    StepsKeepInv(env, n, m);
    SameTop(env, m.stack, m'.stack, Os2Chain);
    SameTop(env, m.stack, m'.stack, Win32Chain);
  }

  /** So what follows a resumed exception runs, step for step and whatever it does, as it would
      from the state before with the questions on record: same control, FS, chain heads, call
      trace and record, and the same stack but for what the search has left in frames. */
  lemma RunAfterResumption(env: Env, m: Mach, kind: Kind, code: int, rest: Stmt) returns (n: nat)
    requires env.Valid() && Inv(env, m) && m.ctl == Exec(Seq(Raise(kind, code), rest))
    requires var r := RunFrom(env, Raise(kind, code), m); r.st.clean && r.out.Normal?
    ensures var t := Steps(env, n, m).trace;
      && m.trace <= t && (forall i :: |m.trace| <= i < |t| ==> t[i].Asked?)
      && forall j: nat :: Twin(Steps(env, n + j, m), Steps(env, j, m.(ctl := Exec(rest), trace := t)), true)
  {
    hide Inv, Alike, Same, Guards, Ask, Twin;
    n := AtRest(env, m, kind, code, rest);
    var b := Steps(env, n, m);
    var q := m.(ctl := Exec(rest), trace := b.trace);
    InvIsSane(env, m);
    AlikeIsTwin(m, b, q);
    forall j: nat ensures Twin(Steps(env, n + j, m), Steps(env, j, q), true) {
      StepsAdd(env, n, j, m);
      TwinRun(env, b, q, j);
    }
  }

  /** At `b`, on a stack like the one at `m`, with everything else as at `q`. */
  lemma AlikeIsTwin(m: Mach, b: Mach, q: Mach)
    requires Alike(m.stack, b.stack) && m.ctl.Exec? && Sane(m) && q == m.(ctl := b.ctl, trace := b.trace)
    requires b.ctl.Exec? && (b.heads, b.fs, b.calls) == (m.heads, m.fs, m.calls)
    ensures Twin(b, q, true)
  {
    forall i | 0 <= i < |b.stack| ensures TwinSlot(b.stack[i], m.stack[i], true) {
      AlikeSlot(m.stack[i], b.stack[i]);
    }
  }

  lemma AlikeSlot(x: Slot, y: Slot)
    requires Core(x) == Core(y) && (x.KTry? ==> y.KTry? && AlikeTry(x, y) && x.frame.context.None?)
    ensures TwinSlot(y, x, true)
  {
    if x.KTry? {
      assert Bare(y.frame, y.at, true) == Bare(x.frame, y.at, true);
      assert TwinFrame(y.frame, x.frame, y.at, true);
    }
  }

  lemma {:induction false} TwinRun(env: Env, a: Mach, b: Mach, n: nat)
    requires Twin(a, b, true)
    ensures Twin(Steps(env, n, a), Steps(env, n, b), true)
    decreases n
  {
    hide Twin, Step;
    if n > 0 {
      TwinStep(env, a, b, true);
      TwinRun(env, Step(env, a), Step(env, b), n - 1);
    }
  }

  /** The machine comes to what follows. */
  lemma AtRest(env: Env, m: Mach, kind: Kind, code: int, rest: Stmt) returns (n: nat)
    requires env.Valid() && Inv(env, m) && m.ctl == Exec(Seq(Raise(kind, code), rest))
    requires var r := RunFrom(env, Raise(kind, code), m); r.st.clean && r.out.Normal?
    ensures var m' := Steps(env, n, m);
      && m'.ctl == Exec(rest) && Alike(m.stack, m'.stack) && (m'.heads, m'.fs, m'.calls) == (m.heads, m.fs, m.calls)
      && m.trace <= m'.trace && (forall i :: |m.trace| <= i < |m'.trace| ==> m'.trace[i].Asked?)
  {
    hide Inv, Alike, Same, Guards, Ask;
    var k := KSeq(rest);
    var m1 := Step(env, m);
    ThreeSteps(env, m);
    StepKeepsInv(env, m);
    PushView(env, m.stack, k);
    var n1, r1 := ResumedAt(env, m1, kind, code);
    var m2 := Steps(env, n1, m1);
    PopAlike(m.stack, k, m2.stack);
    ThreeSteps(env, m2);
    StepsAdd(env, 1, n1, m);
    n := 1 + n1;
    StepsAdd(env, n, 1, m);
    n := n + 1;
  }

  lemma ResumedAt(env: Env, m: Mach, kind: Kind, code: int) returns (n: nat, r: Res)
    requires env.Valid() && Inv(env, m) && m.ctl == Exec(Raise(kind, code))
    requires var r := RunFrom(env, Raise(kind, code), m); r.st.clean && r.out.Normal?
    ensures r == RunFrom(env, Raise(kind, code), m)
    ensures var m' := Steps(env, n, m);
      && Completed(env, m, m') && m'.heads == m.heads && StOf(m') == r.st && r.st == StOf(m).(trace := r.st.trace)
      && m.trace <= m'.trace
      && forall i :: |m.trace| <= i < |m'.trace| ==> m'.trace[i].Asked?
  {
    hide Inv, Alike, Same, Guards;
    r := RunFrom(env, Raise(kind, code), m);
    n := SimRaise(env, Raise(kind, code), m);
    StepsKeepInv(env, n, m);
    AlikeBalances(env, m, Steps(env, n, m));
    if !Swallowed(env, kind, Guards(env, m.stack), m.fs) {
      AskResumed(env, kind, code, Guards(env, m.stack), StOf(m));
    }
  }

  // ----- resumption among frames whose handler blocks run -----

  /** What being asked, as `asked` has it on record, leaves in the frame of depth `d`: state 0
      if its answer has resumed the exception, state 1 if that has gone on, and its code. */
  function MarkedFrame(f: Frame, d: nat, asked: Trace): Frame {
    if asked == [] then f
    else if Last(asked).Asked? && Last(asked).depth == d then
      f.(record := Last(asked).code, state := if Last(asked).answer == CONTINUE_EXECUTION then 0 else 1)
    else MarkedFrame(f, d, Init(asked))
  }

  function Marked(stack: Stack, asked: Trace): (r: Stack)
    ensures |r| == |stack|
  {
    if stack == [] then []
    else
      var k := Last(stack);
      Marked(Init(stack), asked) +
        [if k.KTry? then k.(frame := MarkedFrame(k.frame, Depth(Init(stack)), asked)) else k]
  }

  /** Slot `b` is slot `a`, of depth `d`, so marked, where that matters. */
  predicate MarkedSlot(a: Slot, b: Slot, d: nat, asked: Trace) {
    && Core(a) == Core(b)
    && (a.KTry? ==>
          && b.KTry? && a.at == b.at
          && (a.at.InHandler? ==>
                var f := MarkedFrame(a.frame, d, asked);
                b.frame.state == f.state && b.frame.record == f.record))
  }

  predicate MarkedBelow(a: Stack, b: Stack, q: nat, asked: Trace) {
    && |a| == |b| && q <= |a|
    && forall i :: 0 <= i < q ==> MarkedSlot(a[i], b[i], Depth(a[..i]), asked)
  }

  predicate AskedBelow(asked: Trace, d: nat) {
    forall i :: 0 <= i < |asked| ==> asked[i].Asked? && asked[i].depth < d
  }

  lemma {:induction false} NotMarked(f: Frame, d: nat, asked: Trace)
    requires AskedBelow(asked, d)
    ensures MarkedFrame(f, d, asked) == f
  {
    if asked != [] {
      assert Last(asked) == asked[|asked| - 1];
      NotMarked(f, d, Init(asked));
    }
  }

  /** A question to another frame first. */
  lemma {:induction false} MarkedAfter(f: Frame, d: nat, e: Event, rest: Trace)
    requires e.Asked?
    ensures e.depth != d ==> MarkedFrame(f, d, [e] + rest) == MarkedFrame(f, d, rest)
    ensures e.depth == d && AskedBelow(rest, d) ==> MarkedFrame(f, d, [e] + rest) == MarkedFrame(f, d, [e])
  {
    if rest == [] {
      assert [e] + rest == [e] && Init([e]) == [];
    } else {
      assert Init([e] + rest) == [e] + Init(rest) && Last([e] + rest) == Last(rest);
      assert Last(rest) == rest[|rest| - 1];
      MarkedAfter(f, d, e, Init(rest));
    }
  }

  lemma MarkedOnce(f: Frame, d: nat, e: Event)
    requires e.Asked?
    ensures MarkedFrame(f, d, [e]) ==
      if e.depth == d then f.(record := e.code, state := if e.answer == CONTINUE_EXECUTION then 0 else 1) else f
  {
    assert Init([e]) == [];
  }

  /** The search from `m`, down from level `q`, has been resumed at `m'`. */
  predicate ResumedFrom(env: Env, m: Mach, why: Dispatch, q: nat, m': Mach)
    requires q <= |m.stack|
  {
    var r := AskAll(env, m, why, q);
    && r.out.Normal? && m.trace <= r.st.trace
    && m'.ctl == Return && m'.trace == r.st.trace && (m'.heads, m'.calls, m'.fs) == (m.heads, m.calls, why.fs)
    && AskedBelow(r.st.trace[|m.trace|..], Depth(m.stack[..q]))
    && SameAbove(m'.stack, m.stack, q) && MarkedBelow(m.stack, m'.stack, q, r.st.trace[|m.trace|..])
  }

  /** What the walk leaves behind in the frames it has asked. */
  lemma {:induction false} WalkMarks(env: Env, m: Mach, why: Dispatch, q: nat) returns (n: nat)
    requires env.Valid() && Inv(env, m) && q <= |m.stack|
    requires m.ctl == Search(why, Top(env, m.stack[..q], ChainOf(env, why.kind))) && m.fs == SearchFs(env, why)
    requires env.variant.Win32Tib? && m.fs == OS2_SEL ==> !IsFrame(m.stack, m.ctl.at)
    requires AskAll(env, m, why, q).out.Normal?
    ensures ResumedFrom(env, m, why, q, Steps(env, n, m))
    decreases q
  {
    hide Inv, ResumedFrom, AskAll, Steps;
    var p := q - 1;
    if q == 0 {
      NobodyLeft(env, m, why);
    } else {
      InvShape(env, m);
      GuardsSplit(env, m.stack, q);
      if !OnChain(env, m.stack[p], ChainOf(env, why.kind)) {
        AskAllSkips(env, m, why, q);
        n := WalkMarks(env, m, why, p);
        SkippedMark(env, m, why, p, Steps(env, n, m));
      } else {
        FrameAt(env, m.stack, p);
        AskAllHere(env, m, why, p);
        if Answer(env, m, why, p) == CONTINUE_EXECUTION {
          n := 3;
          ResumerMark(env, m, why, p);
        } else {
          PassedThree(env, m, why, p);
          var m3 := Steps(env, 3, m);
          StepsKeepInv(env, 3, m);
          var k := WalkMarks(env, m3, why, p);
          n := 3 + k;
          StepsAdd(env, 3, k, m);
          PassedMark(env, m, why, p, Steps(env, n, m));
        }
      }
    }
  }

  /** A slot that is not on the chain. */
  lemma SkippedMark(env: Env, m: Mach, why: Dispatch, p: nat, m': Mach)
    requires p < |m.stack| && ResumedFrom(env, m, why, p, m') && AskAll(env, m, why, p + 1) == AskAll(env, m, why, p)
    ensures ResumedFrom(env, m, why, p + 1, m')
  {
    hide AskAll;
    var asked := m'.trace[|m.trace|..];
    SameAboveLess(m'.stack, m.stack, p, p + 1);
    DepthPrefix(m.stack[..p + 1], p);
    assert m.stack[..p + 1][..p] == m.stack[..p];
    if m.stack[p].KTry? { NotMarked(m.stack[p].frame, Depth(m.stack[..p]), asked); }
  }

  /** The frame that resumes. */
  lemma ResumerMark(env: Env, m: Mach, why: Dispatch, p: Ptr)
    requires env.Valid() && Inv(env, m) && Asks(env, m, why, p)
    requires OnChain(env, m.stack[p], ChainOf(env, why.kind)) && Answer(env, m, why, p) == CONTINUE_EXECUTION
    ensures ResumedFrom(env, m, why, p + 1, Steps(env, 3, m))
  {
    hide Inv, AskAll, Steps, MarkedFrame, Depth, OnChain, Shape, HeadsOk, Verdict;
    InvShape(env, m);
    AnswerFrame(env, m, why, p);
    AskAllHere(env, m, why, p);
    FrameAt(env, m.stack, p);
    var m' := Steps(env, 3, m);
    var d := Depth(m.stack[..p]);
    var e := AskedEvent(env, m, why, p);
    DepthPrefix(m.stack[..p + 1], p);
    assert m.stack[..p + 1][..p] == m.stack[..p];
    assert m'.trace[|m.trace|..] == [e];
    MarkedOnce(m.stack[p].frame, d, e);
    forall i | 0 <= i < p ensures MarkedSlot(m.stack[i], m'.stack[i], Depth(m.stack[..i]), [e]) {
      OtherDepth(m.stack, i, p);
      if m.stack[i].KTry? { MarkedOnce(m.stack[i].frame, Depth(m.stack[..i]), e); }
    }
  }

  lemma OtherDepth(stack: Stack, i: nat, p: nat)
    requires i < p < |stack|
    ensures stack[i].KTry? ==> Depth(stack[..i]) < Depth(stack[..p])
  {
    DepthPrefix(stack[..p], i);
    assert stack[..p][..i] == stack[..i];
  }

  /** A frame that has let the exception pass. */
  lemma PassedMark(env: Env, m: Mach, why: Dispatch, p: Ptr, m': Mach)
    requires env.Valid() && Inv(env, m) && Asks(env, m, why, p)
    requires OnChain(env, m.stack[p], ChainOf(env, why.kind))
    requires Answer(env, m, why, p) != EXECUTE_HANDLER && Answer(env, m, why, p) != CONTINUE_EXECUTION
    requires |Steps(env, 3, m).stack| == |m.stack| && ResumedFrom(env, Steps(env, 3, m), why, p, m')
    ensures ResumedFrom(env, m, why, p + 1, m')
  {
    hide Inv, AskAll, Steps, MarkedFrame, Depth, OnChain, Shape, HeadsOk, Verdict, Top;
    var m3 := Steps(env, 3, m);
    InvShape(env, m);
    FrameAt(env, m.stack, p);
    PassedThree(env, m, why, p);
    AnswerFrame(env, m, why, p);
    var e := AskedEvent(env, m, why, p);
    var asked, rest := m'.trace[|m.trace|..], m'.trace[|m3.trace|..];
    assert m3.trace == m.trace + [e] && asked == [e] + rest;
    assert m3.stack[..p] == m.stack[..p];
    DepthPrefix(m.stack[..p + 1], p);
    assert m.stack[..p + 1][..p] == m.stack[..p];
    var d := Depth(m.stack[..p]);
    SameAboveBoth(m'.stack, m3.stack, m.stack, p);
    MarkedAfter(m.stack[p].frame, d, e, rest);
    MarkedOnce(m.stack[p].frame, d, e);
    assert AskedBelow(rest, d);
    forall i | 0 <= i < p ensures MarkedSlot(m.stack[i], m'.stack[i], Depth(m.stack[..i]), asked) {
      assert m3.stack[i] == m.stack[i] && m3.stack[..i] == m.stack[..i];
      assert MarkedSlot(m3.stack[i], m'.stack[i], Depth(m3.stack[..i]), rest);
      OtherDepth(m.stack, i, p);
      if m.stack[i].KTry? { MarkedAfter(m.stack[i].frame, Depth(m.stack[..i]), e, rest); }
    }
  }

  /** A raise is resumed: by a filter, or because it is swallowed. */
  predicate IsResumed(env: Env, kind: Kind, code: int, m: Mach) {
    || Swallowed(env, kind, Guards(env, m.stack), m.fs)
    || Ask(env, kind, code, Unmarked(Guards(env, m.stack)), StOf(m)).out.Normal?
  }

  /** At `m'` the raise has returned, having asked what is on record. */
  predicate BackMarked(m: Mach, m': Mach) {
    && m'.ctl == Return && (m'.heads, m'.calls, m'.fs) == (m.heads, m.calls, m.fs) && m.trace <= m'.trace
    && AskedBelow(m'.trace[|m.trace|..], Depth(m.stack))
    && MarkedBelow(m.stack, m'.stack, |m.stack|, m'.trace[|m.trace|..])
  }

  lemma RaiseMarks(env: Env, m: Mach, kind: Kind, code: int) returns (n: nat)
    requires env.Valid() && Inv(env, m) && m.ctl == Exec(Raise(kind, code)) && IsResumed(env, kind, code, m)
    ensures BackMarked(m, Steps(env, n, m))
  {
    hide Inv, Alike, Steps, BackMarked, Ask;
    var why := Dispatch(kind, code, m.fs);
    var m1 := Step(env, m);
    RaiseStarts(env, m, kind, code);
    ThreeSteps(env, m);
    InvShape(env, m1);
    if Swallowed(env, kind, Guards(env, m.stack), m.fs) {
      n := 2;
      SwallowStep(env, m1, why, m1.ctl.at);
      AlikeTrans(m.stack, m1.stack, Step(env, m1).stack);
      AlikeIsBack(m, Step(env, m1));
    } else {
      assert m1.stack[..|m1.stack|] == m1.stack;
      var k := WalkMarks(env, m1, why, |m1.stack|);
      n := 1 + k;
      StepsAdd(env, 1, k, m);
      AlikeDepth(m.stack, m1.stack);
      AlikeMarked(m.stack, m1.stack, Steps(env, n, m).stack, Steps(env, n, m).trace[|m.trace|..]);
      ResumedIsBack(env, m, m1, why, Steps(env, n, m));
    }
  }

  lemma AlikeIsBack(m: Mach, m': Mach)
    requires m'.ctl == Return && Alike(m.stack, m'.stack) && StOf(m') == StOf(m) && m'.heads == m.heads
    ensures BackMarked(m, m')
  {
    assert m'.trace[|m.trace|..] == [];
  }

  lemma ResumedIsBack(env: Env, m: Mach, m1: Mach, why: Dispatch, m': Mach)
    requires (m1.heads, m1.calls, m1.trace, why.fs) == (m.heads, m.calls, m.trace, m.fs)
    requires Depth(m.stack) == Depth(m1.stack) && ResumedFrom(env, m1, why, |m1.stack|, m')
    requires MarkedBelow(m1.stack, m'.stack, |m1.stack|, m'.trace[|m.trace|..]) ==>
      MarkedBelow(m.stack, m'.stack, |m.stack|, m'.trace[|m.trace|..])
    ensures BackMarked(m, m')
  {
    hide MarkedBelow, AskAll;
    assert m1.stack[..|m1.stack|] == m1.stack;
  }

  lemma AlikeMarked(a: Stack, b: Stack, c: Stack, asked: Trace)
    requires Alike(a, b)
    ensures MarkedBelow(b, c, |b|, asked) ==> MarkedBelow(a, c, |a|, asked)
  {
    hide Depth, MarkedFrame;
    if MarkedBelow(b, c, |b|, asked) {
      forall i | 0 <= i < |a| ensures MarkedSlot(a[i], c[i], Depth(a[..i]), asked) {
        AlikePrefix(a, b, i);
        AlikeDepth(a[..i], b[..i]);
        assert Core(a[i]) == Core(b[i]) && MarkedSlot(b[i], c[i], Depth(b[..i]), asked);
        if a[i].KTry? && a[i].at.InHandler? { SameMarks(a[i].frame, b[i].frame, Depth(a[..i]), asked); }
      }
    }
  }

  lemma {:induction false} SameMarks(f: Frame, g: Frame, d: nat, asked: Trace)
    requires f.state == g.state && f.record == g.record
    ensures MarkedFrame(f, d, asked).state == MarkedFrame(g, d, asked).state
    ensures MarkedFrame(f, d, asked).record == MarkedFrame(g, d, asked).record
  {
    if asked != [] { SameMarks(f, g, d, Init(asked)); }
  }

  /** The same of every raise that is resumed, whichever handler blocks run above and below: what
      follows goes, step for step, as from the state before with the questions on record, and
      with their marks in the frames asked whose handler blocks run: state 0 in the one that
      has resumed, state 1 in the others, and the code. */
  lemma RunAfterAnyResumption(env: Env, m: Mach, kind: Kind, code: int, rest: Stmt) returns (n: nat)
    requires env.Valid() && Inv(env, m) && m.ctl == Exec(Seq(Raise(kind, code), rest))
    requires Swallowed(env, kind, Guards(env, m.stack), m.fs) ||
      Ask(env, kind, code, Unmarked(Guards(env, m.stack)), StOf(m)).out.Normal?
    ensures var t := Steps(env, n, m).trace;
      && m.trace <= t && AskedBelow(t[|m.trace|..], Depth(m.stack))
      && forall j: nat :: Twin(Steps(env, n + j, m),
           Steps(env, j, m.(ctl := Exec(rest), trace := t, stack := Marked(m.stack, t[|m.trace|..]))), true)
  {
    hide Inv, Twin, Marked, MarkedBelow;
    n := AtMarkedRest(env, m, kind, code, rest);
    var b := Steps(env, n, m);
    var asked := b.trace[|m.trace|..];
    var q := m.(ctl := Exec(rest), trace := b.trace, stack := Marked(m.stack, asked));
    InvIsSane(env, m);
    MarkedIsTwin(m, b, q, asked);
    forall j: nat ensures Twin(Steps(env, n + j, m), Steps(env, j, q), true) {
      StepsAdd(env, n, j, m);
      TwinRun(env, b, q, j);
    }
  }

  lemma AtMarkedRest(env: Env, m: Mach, kind: Kind, code: int, rest: Stmt) returns (n: nat)
    requires env.Valid() && Inv(env, m) && m.ctl == Exec(Seq(Raise(kind, code), rest)) && IsResumed(env, kind, code, m)
    ensures var m' := Steps(env, n, m);
      && m'.ctl == Exec(rest) && (m'.heads, m'.fs, m'.calls) == (m.heads, m.fs, m.calls) && m.trace <= m'.trace
      && AskedBelow(m'.trace[|m.trace|..], Depth(m.stack))
      && MarkedBelow(m.stack, m'.stack, |m.stack|, m'.trace[|m.trace|..])
  {
    hide Inv, Guards, Ask, MarkedSlot, Depth, Unmarked;
    var k := KSeq(rest);
    var m1 := Step(env, m);
    ThreeSteps(env, m);
    StepKeepsInv(env, m);
    PushView(env, m.stack, k);
    PushDepth(m.stack, k);
    assert m1.stack == m.stack + [k];
    var n1 := RaiseMarks(env, m1, kind, code);
    var m2 := Steps(env, n1, m1);
    PopMarked(m.stack, k, m2.stack, m2.trace[|m.trace|..]);
    ThreeSteps(env, m2);
    StepsAdd(env, 1, n1, m);
    n := 1 + n1;
    StepsAdd(env, n, 1, m);
    n := n + 1;
  }

  lemma PushDepth(stack: Stack, k: Slot)
    requires !k.KTry?
    ensures Depth(stack + [k]) == Depth(stack)
  {
    assert Init(stack + [k]) == stack;
  }

  lemma PopMarked(stack: Stack, k: Slot, t: Stack, asked: Trace)
    requires MarkedBelow(stack + [k], t, |stack| + 1, asked) && k.KSeq?
    ensures Last(t) == k && MarkedBelow(stack, Init(t), |stack|, asked)
  {
    hide Depth, MarkedFrame;
    assert MarkedSlot((stack + [k])[|stack|], t[|stack|], Depth((stack + [k])[..|stack|]), asked);
    forall i | 0 <= i < |stack| ensures MarkedSlot(stack[i], Init(t)[i], Depth(stack[..i]), asked) {
      assert (stack + [k])[..i] == stack[..i];
      assert MarkedSlot((stack + [k])[i], t[i], Depth((stack + [k])[..i]), asked);
    }
  }

  lemma {:induction false} MarkedIs(stack: Stack, asked: Trace, i: nat)
    requires i < |stack|
    ensures var k := stack[i];
      Marked(stack, asked)[i] ==
        if k.KTry? then k.(frame := MarkedFrame(k.frame, Depth(stack[..i]), asked)) else k
  {
    if i < |stack| - 1 {
      MarkedIs(Init(stack), asked, i);
      assert Init(stack)[..i] == stack[..i];
    } else {
      assert Init(stack) == stack[..i];
    }
  }

  lemma MarkedIsTwin(m: Mach, b: Mach, q: Mach, asked: Trace)
    requires MarkedBelow(m.stack, b.stack, |m.stack|, asked) && m.ctl.Exec? && Sane(m)
    requires q == m.(ctl := b.ctl, trace := b.trace, stack := Marked(m.stack, asked))
    requires b.ctl.Exec? && (b.heads, b.fs, b.calls) == (m.heads, m.fs, m.calls)
    ensures Twin(b, q, true)
  {
    hide Depth, MarkedFrame, Marked, TwinSlot;
    forall i | 0 <= i < |b.stack| ensures TwinSlot(b.stack[i], q.stack[i], true) {
      MarkedIs(m.stack, asked, i);
      assert MarkedSlot(m.stack[i], b.stack[i], Depth(m.stack[..i]), asked);
      if m.stack[i].KTry? { MarkedFields(m.stack[i].frame, Depth(m.stack[..i]), asked); }
      MarkedTwin(m.stack[i], b.stack[i], q.stack[i], Depth(m.stack[..i]), asked);
    }
  }

  /** A mark is in record and state alone. */
  lemma {:induction false} MarkedFields(f: Frame, d: nat, asked: Trace)
    ensures var g := MarkedFrame(f, d, asked); g == f.(record := g.record, state := g.state)
  {
    if asked != [] { MarkedFields(f, d, Init(asked)); }
  }

  lemma MarkedTwin(x: Slot, y: Slot, z: Slot, d: nat, asked: Trace)
    requires MarkedSlot(x, y, d, asked) && (x.KTry? ==> x.frame.context.None?)
    requires x.KTry? ==> var g := MarkedFrame(x.frame, d, asked); g == x.frame.(record := g.record, state := g.state)
    requires z == if x.KTry? then x.(frame := MarkedFrame(x.frame, d, asked)) else x
    ensures TwinSlot(y, z, true)
  {
    hide MarkedFrame;
    if x.KTry? {
      assert Bare(y.frame, y.at, true) == Bare(z.frame, y.at, true);
      assert TwinFrame(y.frame, z.frame, y.at, true);
    }
  }
}
