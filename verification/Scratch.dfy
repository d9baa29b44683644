/** What the fields of a frame that the machine does not look at can do to a run: nothing.
    pPrev of a Win32-TIB frame is scratch at all times; filterResult and record are between two
    exceptions, and the state is while the frame's body runs. */
module Scratch {
  import opened Selectors
  import opened Programs
  import opened Machine
  import opened Interference

  /** The same machine state but for pPrev slots and, if `idle`, for what the last exceptions
      have left in frames. */
  predicate Twin(a: Mach, b: Mach, idle: bool) {
    && TwinBut(a, b, idle)
    && (a.AtTry() && (a.ctl.Loop? || a.ctl.Callback?) ==>
          TopAgrees(Last(a.stack).frame, Last(b.stack).frame, a.ctl == Callback))
  }

  /** All of it that does not depend on where control is. */
  predicate TwinBut(a: Mach, b: Mach, idle: bool) {
    && (a.ctl, a.heads, a.fs, a.calls, a.trace) == (b.ctl, b.heads, b.fs, b.calls, b.trace)
    && TwinStack(a.stack, b.stack, idle)
  }

  /** At its own loop a frame's state matters, and what its filter is to be told. */
  predicate TopAgrees(f: Frame, g: Frame, answered: bool) {
    && f.state == g.state
    && (f.state <= 1 || answered ==> f.record == g.record)
    && (answered ==> f.filterResult == g.filterResult)
  }

  predicate TwinStack(a: Stack, b: Stack, idle: bool) {
    |a| == |b| && forall i :: 0 <= i < |a| ==> TwinSlot(a[i], b[i], idle)
  }

  predicate TwinSlot(a: Slot, b: Slot, idle: bool)
    decreases a
  {
    if a.KTry? && b.KTry? then
      && (a.clause, a.body, a.handler, a.at) == (b.clause, b.body, b.handler, b.at)
      && TwinFrame(a.frame, b.frame, a.at, idle)
    else a == b
  }

  predicate TwinFrame(f: Frame, g: Frame, at: Block, idle: bool)
    decreases f
  {
    && Bare(f, at, idle) == Bare(g, at, idle)
    && (at.InHandler? && f.state <= 1 ==> f.record == g.record)
    && TwinContext(f.context, g.context, idle)
  }

  function Bare(f: Frame, at: Block, idle: bool): Frame {
    var p := f.(context := None, prev := if f.Win32Frame? then 0 else f.prev);
    if idle then p.(filterResult := 0, record := 0, state := if at.InBody? then 0 else f.state) else p
  }

  /** Also in what a handler has put aside. */
  predicate TwinContext(c: Option<Context>, d: Option<Context>, idle: bool)
    decreases c
  {
    if c.Some? && d.Some? then
      && c.value.why == d.value.why && |c.value.cells| == |d.value.cells|
      && forall i :: 0 <= i < |c.value.cells| ==> TwinSlot(c.value.cells[i], d.value.cells[i], idle)
    else c == d
  }

  // ----- one step -----

  lemma TwinCell(a: Stack, b: Stack, p: Ptr, idle: bool)
    requires TwinStack(a, b, idle)
    ensures IsFrame(a, p) <==> IsFrame(b, p)
    ensures IsFrame(a, p) ==> TwinFrame(a[p].frame, b[p].frame, a[p].at, idle)
  {
    if 0 <= p < |a| { assert TwinSlot(a[p], b[p], idle); }
  }

  lemma TwinSet(a: Stack, b: Stack, p: Ptr, f: Frame, g: Frame, idle: bool)
    requires TwinStack(a, b, idle) && IsFrame(a, p) && IsFrame(b, p) && TwinFrame(f, g, a[p].at, idle)
    ensures TwinStack(SetFrame(a, p, f), SetFrame(b, p, g), idle)
  {
    assert TwinSlot(a[p], b[p], idle);
  }

  lemma TwinTop(a: Mach, b: Mach, idle: bool)
    requires Twin(a, b, idle) && a.stack != []
    ensures b.stack != [] && TwinSlot(Last(a.stack), Last(b.stack), idle)
    ensures TwinStack(Init(a.stack), Init(b.stack), idle)
    ensures Depth(Init(a.stack)) == Depth(Init(b.stack))
    ensures a.AtTry() <==> b.AtTry()
    ensures a.AtTry() ==> TwinFrame(Last(a.stack).frame, Last(b.stack).frame, Last(a.stack).at, idle)
  {
    assert TwinSlot(a.stack[|a.stack| - 1], b.stack[|a.stack| - 1], idle);
    TwinDepth(Init(a.stack), Init(b.stack), idle);
  }

  lemma {:induction false} TwinDepth(a: Stack, b: Stack, idle: bool)
    requires TwinStack(a, b, idle)
    ensures Depth(a) == Depth(b)
  {
    if a != [] {
      TwinDepth(Init(a), Init(b), idle);
      assert TwinSlot(a[|a| - 1], b[|a| - 1], idle);
    }
  }

  lemma {:induction false} TwinWalk(a: Stack, b: Stack, p: Ptr, idle: bool)
    requires TwinStack(a, b, idle)
    ensures TwinStack(WalkOs2(a, p), WalkOs2(b, p), idle)
    decreases p
  {
    TwinCell(a, b, p, idle);
    if IsFrame(a, p) && a[p].frame.Win32Frame? {
      var f, g := a[p].frame, b[p].frame;
      TwinSet(a, b, p, f.(prev := f.prevOs2), g.(prev := g.prevOs2), idle);
      if f.prevOs2 < p {
        TwinWalk(SetFrame(a, p, f.(prev := f.prevOs2)), SetFrame(b, p, g.(prev := g.prevOs2)), f.prevOs2, idle);
      }
    }
  }

  lemma {:induction false} TwinUnwind(a: Stack, b: Stack, h: Ptr, target: Ptr, idle: bool)
    requires TwinStack(a, b, idle)
    ensures RtlUnwind(a, h, target) == RtlUnwind(b, h, target)
    decreases h
  {
    TwinCell(a, b, h, idle);
    if h > target && IsFrame(a, h) && NextLink(a[h].frame) < h {
      TwinUnwind(a, b, NextLink(a[h].frame), target, idle);
    }
  }

  lemma TwinPush(a: Stack, b: Stack, k: Slot, idle: bool)
    requires TwinStack(a, b, idle)
    ensures TwinStack(a + [k], b + [k], idle)
  {
    assert TwinSlot(k, k, idle) by { SelfTwin(k, idle); }
  }

  lemma {:induction false} SelfTwin(k: Slot, idle: bool)
    ensures TwinSlot(k, k, idle)
    decreases k
  {
    if k.KTry? && k.frame.context.Some? {
      var cells := k.frame.context.value.cells;
      forall i | 0 <= i < |cells| ensures TwinSlot(cells[i], cells[i], idle) { SelfTwin(cells[i], idle); }
    }
  }

  lemma TwinExec(env: Env, a: Mach, b: Mach, s: Stmt, idle: bool)
    requires Twin(a, b, idle) && a.ctl == Exec(s)
    ensures Twin(StepExec(env, a, s), StepExec(env, b, s), idle)
  {
    hide TwinSlot, TwinFrame, Head;
    match s
    case Raise(_, _) => TwinWalk(a.stack, b.stack, Head(a.heads, OS2_SEL), idle);
    case Seq(_, next) => TwinPush(a.stack, b.stack, KSeq(next), idle);
    case OS2Call(id, _) => TwinPush(a.stack, b.stack, KWrap(id, ToUShort(ToShort(a.fs)), |a.trace|), idle);
    case Traced(name, _) => TwinPush(a.stack, b.stack, KFn(name, a.fs, |a.trace|), idle);
    case Try(body, clause, handler) => TwinInstall(env, a, b, s, idle);
    case _ =>
  }

  lemma TwinInstall(env: Env, a: Mach, b: Mach, s: Stmt, idle: bool)
    requires Twin(a, b, idle) && a.ctl == Exec(s) && s.Try?
    ensures Twin(StepExec(env, a, s), StepExec(env, b, s), idle)
  {
    var k := Last(StepExec(env, a, s).stack);
    assert StepExec(env, a, s).stack == a.stack + [k];
    assert StepExec(env, b, s).stack == b.stack + [Last(StepExec(env, b, s).stack)];
    assert Last(StepExec(env, b, s).stack) == k;
    TwinPush(a.stack, b.stack, k, idle);
  }

  lemma TwinBlockEnd(env: Env, a: Mach, b: Mach, idle: bool)
    requires Twin(a, b, idle) && (a.ctl == Return || a.ctl == Leaving)
    ensures Twin(Step(env, a), Step(env, b), idle)
  {
    if a.stack != [] { TwinTop(a, b, idle); }
    if a.AtTry() {
      TwinFrameEnd(env, a, b, idle);
    } else {
      TwinPops(env, a, b, idle);
    }
  }

  lemma TwinPops(env: Env, a: Mach, b: Mach, idle: bool)
    requires Twin(a, b, idle) && (a.ctl == Return || a.ctl == Leaving) && !a.AtTry()
    ensures Twin(Step(env, a), Step(env, b), idle)
  {
    hide Depth, StepExec, StepLoop, StepSearch, StepCallback;
    if a.stack != [] {
      TwinTop(a, b, idle);
      assert Last(a.stack) == Last(b.stack);
    }
  }

  lemma TwinFrameEnd(env: Env, a: Mach, b: Mach, idle: bool)
    requires Twin(a, b, idle) && (a.ctl == Return || a.ctl == Leaving) && a.AtTry()
    ensures Twin(Step(env, a), Step(env, b), idle)
  {
    TwinTop(a, b, idle);
    hide Depth, StepExec, StepLoop, StepSearch, StepCallback, TwinStack, TwinFrame;
    var f, g, at := Last(a.stack).frame, Last(b.stack).frame, Last(a.stack).at;
    TwinParts(Last(a.stack), Last(b.stack), idle);
    TwinSize(a.stack, b.stack, idle);
    var state := if a.ctl == Leaving then 2 else if at.InBody? then AfterBody(Last(a.stack).clause) else f.state + 1;
    TwinState(f, g, at, state, idle);
    TwinSet(a.stack, b.stack, |a.stack| - 1, f.(state := state), g.(state := state), idle);
  }

  lemma TwinState(f: Frame, g: Frame, at: Block, state: int, idle: bool)
    requires TwinFrame(f, g, at, idle) && (state > 1 || (at.InHandler? && state == f.state + 1))
    ensures TwinFrame(f.(state := state), g.(state := state), at, idle)
  {
  }

  lemma TwinParts(x: Slot, y: Slot, idle: bool)
    requires TwinSlot(x, y, idle) && x.KTry? && y.KTry?
    ensures (x.clause, x.body, x.handler, x.at) == (y.clause, y.body, y.handler, y.at)
    ensures Bare(x.frame, x.at, idle) == Bare(y.frame, x.at, idle)
    ensures x.at.InHandler? && x.frame.state <= 1 ==> x.frame.record == y.frame.record
    ensures TwinContext(x.frame.context, y.frame.context, idle)
  {
    assert TwinFrame(x.frame, y.frame, x.at, idle);
  }

  lemma BareAt(f: Frame, g: Frame, x: Block, y: Block, idle: bool)
    requires Bare(f, x, idle) == Bare(g, x, idle) && f.state == g.state
    ensures Bare(f, y, idle) == Bare(g, y, idle)
  {
    assert f.Win32Frame? <==> g.Win32Frame? by {
      assert f.Win32Frame? <==> Bare(f, x, idle).Win32Frame?;
      assert g.Win32Frame? <==> Bare(g, x, idle).Win32Frame?;
    }
  }

  /** A block of the frame on top starts. */
  lemma TwinStarts(a: Stack, b: Stack, at: Block, idle: bool)
    requires TwinStack(a, b, idle) && a != [] && Last(a).KTry? && Last(b).KTry?
    requires TopAgrees(Last(a).frame, Last(b).frame, false)
    ensures TwinStack(Init(a) + [Last(a).(at := at)], Init(b) + [Last(b).(at := at)], idle)
  {
    assert TwinSlot(a[|a| - 1], b[|a| - 1], idle);
    TwinParts(Last(a), Last(b), idle);
    BareAt(Last(a).frame, Last(b).frame, Last(a).at, at, idle);
    assert TwinSlot(Last(a).(at := at), Last(b).(at := at), idle);
  }

  lemma TwinLoop(env: Env, a: Mach, b: Mach, idle: bool)
    requires Twin(a, b, idle) && a.ctl == Loop
    ensures Twin(Step(env, a), Step(env, b), idle)
  {
    if a.stack != [] { TwinTop(a, b, idle); }
    if a.AtTry() {
      hide Depth, Head, TwinStack, TwinFrame, Remove;
      var f, g := Last(a.stack).frame, Last(b.stack).frame;
      TwinParts(Last(a.stack), Last(b.stack), idle);
      TwinSize(a.stack, b.stack, idle);
      if f.state == 1 {
        TwinAsks(env, a, b, idle);
      } else if f.state == 3 {
        TwinRemove(a, b, idle);
        TwinWrite(a.stack, b.stack, f.(state := 4), g.(state := 4), idle);
      } else if f.state <= 3 {
        TwinStarts(a.stack, b.stack, if f.state == 0 then InBody else InHandler, idle);
      }
    }
  }

  lemma TwinAsks(env: Env, a: Mach, b: Mach, idle: bool)
    requires Twin(a, b, idle) && a.ctl == Loop && a.AtTry() && Last(a.stack).frame.state == 1
    ensures Twin(Step(env, a), Step(env, b), idle)
  {
    TwinTop(a, b, idle);
    hide Depth, TwinStack, TwinFrame;
    var f, g := Last(a.stack).frame, Last(b.stack).frame;
    TwinParts(Last(a.stack), Last(b.stack), idle);
    TwinSize(a.stack, b.stack, idle);
    var answer := Verdict(env, Last(a.stack).clause, f.record, a.trace);
    TwinWrite(a.stack, b.stack, f.(filterResult := answer), g.(filterResult := answer), idle);
  }

  /** The same written into the frame on top. */
  lemma TwinWrite(a: Stack, b: Stack, f: Frame, g: Frame, idle: bool)
    requires TwinStack(a, b, idle) && a != [] && Last(a).KTry? && b != [] && Last(b).KTry?
    requires TopAgrees(Last(a).frame, Last(b).frame, false)
    requires || (exists x :: f == Last(a).frame.(filterResult := x) && g == Last(b).frame.(filterResult := x))
             || (exists x: int :: x > 1 && f == Last(a).frame.(state := x) && g == Last(b).frame.(state := x))
    ensures TwinStack(SetFrame(a, |a| - 1, f), SetFrame(b, |b| - 1, g), idle)
  {
    assert TwinSlot(a[|a| - 1], b[|a| - 1], idle);
    TwinParts(Last(a), Last(b), idle);
    TwinSet(a, b, |a| - 1, f, g, idle);
  }

  lemma TwinRemove(a: Mach, b: Mach, idle: bool)
    requires TwinBut(a, b, idle) && a.AtTry() && b.AtTry()
    ensures (Remove(a).heads, Remove(a).fs, Remove(a).stack) == (Remove(b).heads, Remove(b).fs, a.stack)
    ensures Remove(b).stack == b.stack
  {
    assert TwinSlot(a.stack[|a.stack| - 1], b.stack[|a.stack| - 1], idle);
    TwinParts(Last(a.stack), Last(b.stack), idle);
  }

  lemma TwinSize(a: Stack, b: Stack, idle: bool)
    requires TwinStack(a, b, idle)
    ensures |a| == |b|
  {
  }

  lemma TwinSearch(env: Env, a: Mach, b: Mach, why: Dispatch, p: Ptr, idle: bool)
    requires Twin(a, b, idle) && a.ctl == Search(why, p)
    ensures Twin(Step(env, a), Step(env, b), idle)
  {
    TwinCell(a.stack, b.stack, p, idle);
    if IsFrame(a.stack, p) {
      var f, g := a.stack[p].frame, b.stack[p].frame;
      if f.Win32Frame? && a.fs == OS2_SEL {
        TwinSet(a.stack, b.stack, p, f.(prev := f.prevOs2), g.(prev := g.prevOs2), idle);
      } else {
        TwinEnter(a, b, why, p, idle);
      }
    }
  }

  lemma TwinEnter(a: Mach, b: Mach, why: Dispatch, p: Ptr, idle: bool)
    requires Twin(a, b, idle) && IsFrame(a.stack, p) && IsFrame(b.stack, p)
    ensures Twin(EnterFilter(a, why, p), EnterFilter(b, why, p), idle)
  {
    var f, g := a.stack[p].frame, b.stack[p].frame;
    TwinCell(a.stack, b.stack, p, idle);
    var n := Cells(f.esp);
    if n == p + 1 {
      var f' := f.(prev := NextLink(f), context := Some(Context(a.stack[n..], why)), record := why.code, state := 1);
      var g' := g.(prev := NextLink(g), context := Some(Context(b.stack[n..], why)), record := why.code, state := 1);
      assert TwinFrame(f', g', a.stack[p].at, idle);
      TwinSet(a.stack[..n], b.stack[..n], p, f', g', idle);
    }
  }

  lemma TwinCallback(env: Env, a: Mach, b: Mach, idle: bool)
    requires Twin(a, b, idle) && a.ctl == Callback
    ensures Twin(Step(env, a), Step(env, b), idle)
  {
    hide Depth, Head, RtlUnwind, Accept;
    if a.stack != [] { TwinTop(a, b, idle); }
    if a.AtTry() && Last(a.stack).frame.context.Some? {
      var p := |a.stack| - 1;
      var f, g := Last(a.stack).frame, Last(b.stack).frame;
      var c, d := f.context.value, g.context.value;
      TwinSet(a.stack, b.stack, p, f.(context := None), g.(context := None), idle);
      var x := a.(stack := SetFrame(a.stack, p, f.(context := None)) + c.cells);
      var y := b.(stack := SetFrame(b.stack, p, g.(context := None)) + d.cells);
      assert TwinStack(c.cells, d.cells, idle);
      assert TwinBut(x, y, idle);
      if f.filterResult == EXECUTE_HANDLER {
        TwinAccept(env, x, y, p, idle);
      } else if f.filterResult == CONTINUE_EXECUTION {
        TwinSet(x.stack, y.stack, p, f.(context := None, state := 0), g.(context := None, state := 0), idle);
      }
    }
  }

  lemma TwinAccept(env: Env, a: Mach, b: Mach, p: Ptr, idle: bool)
    requires TwinBut(a, b, idle) && IsFrame(a.stack, p) && IsFrame(b.stack, p)
    ensures Twin(Accept(env, a, p), Accept(env, b, p), idle)
  {
    hide Head;
    TwinCell(a.stack, b.stack, p, idle);
    TwinUnwind(a.stack, b.stack, Head(a.heads, env.tebSel), p, idle);
    var f, g := a.stack[p].frame, b.stack[p].frame;
    if Cells(f.esp) == p + 1 {
      TwinSet(a.stack[..p + 1], b.stack[..p + 1], p, f.(prev := NextLink(f), state := 2),
        g.(prev := NextLink(g), state := 2), idle);
    }
  }

  lemma TwinStep(env: Env, a: Mach, b: Mach, idle: bool)
    requires Twin(a, b, idle)
    ensures Twin(Step(env, a), Step(env, b), idle)
  {
    hide TwinStack, StepExec, StepLoop, StepSearch, StepCallback, StepReturn, StepLeave;
    match a.ctl
    case Exec(s) => TwinExec(env, a, b, s, idle);
    case Return => TwinBlockEnd(env, a, b, idle);
    case Leaving => TwinBlockEnd(env, a, b, idle);
    case Loop => TwinLoop(env, a, b, idle);
    case Search(why, p) => TwinSearch(env, a, b, why, p, idle);
    case Callback => TwinCallback(env, a, b, idle);
    case Halted(_) =>
  }

  /** In particular of a state and itself. */
  lemma SelfIsTwin(a: Mach, idle: bool)
    ensures Twin(a, a, idle)
  {
    forall i | 0 <= i < |a.stack| ensures TwinSlot(a.stack[i], a.stack[i], idle) { SelfTwin(a.stack[i], idle); }
  }

  // ----- whole runs -----

  /** The environment has written over pPrev slots, and nothing else. */
  predicate Rewritten(m: Mach, m': Mach) {
    m' == m.(stack := m'.stack) && DifferInPrev(m.stack, m'.stack)
  }

  lemma RewrittenSlot(x: Slot, y: Slot, z: Slot, idle: bool)
    requires TwinSlot(x, y, idle)
    requires z == y || (y.KTry? && y.frame.Win32Frame? && z.KTry? && z == y.(frame := y.frame.(prev := z.frame.prev)))
    ensures TwinSlot(x, z, idle)
  {
    if z != y {
      assert Bare(z.frame, y.at, idle) == Bare(y.frame, y.at, idle);
      assert TwinFrame(x.frame, z.frame, y.at, idle);
    }
  }

  lemma RewrittenIsTwin(a: Mach, b: Mach, c: Mach, idle: bool)
    requires Twin(a, b, idle) && Rewritten(b, c)
    ensures Twin(a, c, idle)
  {
    forall i | 0 <= i < |a.stack| ensures TwinSlot(a.stack[i], c.stack[i], idle) {
      RewrittenSlot(a.stack[i], b.stack[i], c.stack[i], idle);
    }
  }

  /** However pPrev slots are overwritten, after any steps of any run (while blocks run, during
      searches and in filters, of clean programs and others), the run `bs` goes step for step as
      the one from `a` that is left alone: same control, FS, chain heads, call trace and record,
      and the same stack but for those slots. */
  lemma {:induction false} PrevIsScratch(env: Env, a: Mach, bs: seq<Mach>, idle: bool)
    requires bs != [] && Twin(a, bs[0], idle)
    requires forall i :: 0 <= i < |bs| - 1 ==> Rewritten(Step(env, bs[i]), bs[i + 1])
    ensures forall i: nat :: i < |bs| ==> Twin(Steps(env, i, a), bs[i], idle)
    decreases |bs|
  {
    hide Twin, Step, Rewritten;
    if |bs| > 1 {
      TwinStep(env, a, bs[0], idle);
      RewrittenIsTwin(Step(env, a), Step(env, bs[0]), bs[1], idle);
      PrevIsScratch(env, Step(env, a), bs[1..], idle);
      forall i: nat | i < |bs| ensures Twin(Steps(env, i, a), bs[i], idle) {
        if i > 0 { assert Steps(env, i, a) == Steps(env, i - 1, Step(env, a)) && bs[i] == bs[1..][i - 1]; }
      }
    }
  }
}
