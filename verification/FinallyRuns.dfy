/** How often a finally block runs, on the machine, in every run: once, and once more for every
    exception raised in the block that its own frame hears and for every __leave in it. */
module FinallyRuns {
  import opened Selectors
  import opened Programs
  import opened Reference
  import opened Machine
  import opened Invariant
  import opened Levels
  import opened Lowering
  import opened Laws
  import opened Blocks

  // ----- what makes the block due -----

  /** Why the next step makes the handler block of the frame in cell `h` due: true for an
      exception that its handler hears, false for the end of the body or a __leave. */
  function Comes(m: Mach, h: nat): seq<bool> {
    if m.ctl.Search? && m.ctl.at == h && IsFrame(m.stack, h) && !(m.stack[h].frame.Win32Frame? && m.fs == OS2_SEL)
    then [true]
    else if |m.stack| == h + 1 && m.AtTry() && (m.ctl == Leaving || (m.ctl == Return && Last(m.stack).at.InBody?))
    then [false]
    else []
  }

  /** All the reasons in the first `n` steps. */
  function Reasons(env: Env, n: nat, m: Mach, h: nat): seq<bool> {
    if n == 0 then [] else Reasons(env, n - 1, m, h) + Comes(Steps(env, n - 1, m), h)
  }

  /** Those that come from the running block itself. */
  function Restarts(env: Env, n: nat, m: Mach, h: nat): seq<bool> {
    if n == 0 then []
    else
      var b := Steps(env, n - 1, m);
      Restarts(env, n - 1, m, h) + if FromBlock(b, h) then Comes(b, h) else []
  }

  predicate FromBlock(m: Mach, h: nat) {
    h < |Whole(m)| && Whole(m)[h].KTry? && Whole(m)[h].at.InHandler?
  }

  /** The visits that go with the reasons: 1 and 2 for an exception, 2 for the others. */
  function Word(rs: seq<bool>): seq<int> {
    if rs == [] then [] else Word(Init(rs)) + if Last(rs) then [1, 2] else [2]
  }

  // ----- where the loop of the frame stands -----

  datatype Phase = Entering | Inside | Asking | Answered | Due | Closing | Closed | Astray

  function PhaseOf(m: Mach, h: nat): Phase {
    if |m.stack| == h + 1 && m.AtTry() && (m.ctl.Loop? || m.ctl.Callback?) then
      if InFilter(m) then (if m.ctl.Loop? then Asking else Answered)
      else if m.ctl.Callback? then Astray
      else StatePhase(Last(m.stack).frame.state)
    else Inside
  }

  function StatePhase(state: int): Phase {
    match state
    case 0 => Entering
    case 2 => Due
    case 3 => Closing
    case 4 => Closed
    case _ => Astray
  }

  /** What the loop has recorded when `rs` have been the reasons. */
  function Recorded(ph: Phase, rs: seq<bool>): seq<int> {
    var before := [0] + Word(if rs == [] then [] else Init(rs));
    match ph
    case Entering => []
    case Asking => before
    case Answered => before + [1]
    case Due => before + if rs != [] && Last(rs) then [1] else []
    case Closed => [0] + Word(rs) + [3]
    case _ => [0] + Word(rs)
  }

  predicate PhaseOk(ph: Phase, k: Slot, rs: seq<bool>) {
    k.KTry? && k.clause.Finally? &&
    match ph
    case Entering => rs == [] && k.at.InBody?
    case Inside => (k.at.InBody? <==> rs == []) && (k.at.InHandler? ==> k.frame.state == 2)
    case Asking => rs != [] && Last(rs) && (k.at.InBody? <==> |rs| == 1) && k.frame.state == 1
    case Answered => rs != [] && Last(rs) && (k.at.InBody? <==> |rs| == 1) && k.frame.filterResult == EXECUTE_HANDLER
    case Due => rs != [] && (k.at.InBody? <==> |rs| == 1)
    case Closing => rs != [] && k.at.InHandler?
    case Closed => rs != [] && k.at.InHandler?
    case Astray => false
  }

  /** The record and the frame in cell `h` are as the reasons so far demand. */
  predicate Tracks(m: Mach, h: nat, d: nat, base: seq<int>, rs: seq<bool>) {
    && h < |Whole(m)|
    && Depth(Whole(m)[..h]) == d
    && PhaseOk(PhaseOf(m, h), Whole(m)[h], rs)
    && States(m.trace, d) == base + Recorded(PhaseOf(m, h), rs)
  }

  // ----- the events of other frames -----

  /** Frames in different cells are at different depths. */
  lemma DepthElsewhere(w: Stack, q: nat, h: nat)
    requires q < |w| && h < |w| && q != h && w[q].KTry? && w[h].KTry?
    ensures Depth(w[..q]) != Depth(w[..h])
  {
    if q < h {
      DepthPrefix(w[..h], q);
      assert w[..h][..q] == w[..q];
    } else {
      DepthPrefix(w[..q], h);
      assert w[..q][..h] == w[..h];
    }
  }

  lemma BelowWhole(m: Mach)
    requires m.AtTry() && (m.ctl.Loop? || m.ctl.Callback?)
    ensures |m.stack| <= |Whole(m)| && Init(m.stack) == Whole(m)[..|m.stack| - 1]
    ensures Whole(m)[|m.stack| - 1].KTry?
    ensures var k := Whole(m)[|m.stack| - 1];
      k.(frame := k.frame.(context := None)) == Last(m.stack).(frame := Last(m.stack).frame.(context := None))
  {
  }

  /** One step leaves the cell alone, records nothing at its depth and gives no reason. */
  predicate Elsewhere(m: Mach, m': Mach, h: nat, d: nat) {
    && States(m'.trace, d) == States(m.trace, d)
    && PhaseOf(m', h).Inside? && Comes(m, h) == []
    && h < |Whole(m')| && h < |Whole(m)|
    && Whole(m')[h].KTry? && Whole(m)[h].KTry?
    && Whole(m')[h].at == Whole(m)[h].at && Whole(m')[h].frame.state == Whole(m)[h].frame.state
  }

  lemma ExecElsewhere(env: Env, m: Mach, s: Stmt, h: nat, d: nat)
    requires m.ctl == Exec(s) && h < |m.stack| && m.stack[h].KTry?
    ensures Elsewhere(m, Step(env, m), h, d)
  {
    hide Head, StepLoop, StepCallback, StepSearch, StepReturn, StepLeave, WalkOs2, States, Install, StatePhase;
    match s
    case Raise(_, _) => WalkIsSame(m.stack, Head(m.heads, OS2_SEL));
    case Try(_, _, _) => TryElsewhere(env, m, s, h, d);
    case Do(id) => StatesAppend(m.trace, Did(id), d);
    case LoadFS(sel) => StatesAppend(m.trace, Loaded(sel), d);
    case OS2Call(id, _) => StatesAppend(m.trace, Native(id, OS2_SEL), d);
    case Traced(name, _) => StatesAppend(m.trace, FnEnter(name), d);
    case _ =>
  }

  lemma TryElsewhere(env: Env, m: Mach, s: Stmt, h: nat, d: nat)
    requires m.ctl == Exec(s) && s.Try? && h < |m.stack| && m.stack[h].KTry?
    ensures Elsewhere(m, StepExec(env, m, s), h, d)
  {
    hide StepExec, States, Head;
    InstallStep(env, m, s);
    var m' := StepExec(env, m, s);
    assert !InFilter(m') && m'.stack[h] == m.stack[h];
  }

  lemma ReturnElsewhere(env: Env, m: Mach, h: nat, d: nat)
    requires (m.ctl == Return || m.ctl == Leaving) && h + 1 < |m.stack| && m.stack[h].KTry? && Sane(m)
    ensures Elsewhere(m, Step(env, m), h, d)
  {
    hide Head, StepLoop, StepCallback, StepSearch, StepExec, States;
    var m' := Step(env, m);
    if m.AtTry() {
      assert m.stack[|m.stack| - 1].frame.context.None?;
    } else if m'.trace != m.trace {
      StatesAppend(m.trace, Last(m'.trace), d);
    }
  }

  lemma LoopElsewhere(env: Env, m: Mach, h: nat, d: nat)
    requires m.ctl == Loop && Inv(env, m) && Sane(m) && |m.stack| != h + 1
    requires h < |Whole(m)| && Whole(m)[h].KTry? && Depth(Whole(m)[..h]) == d && h < |Whole(Step(env, m))|
    ensures Elsewhere(m, Step(env, m), h, d)
  {
    hide Head, StepCallback, StepSearch, StepExec, StepReturn, StepLeave, States, Shape, HeadsOk, Fns, Depth, StatesOk;
    if InFilter(m) {
      FilterElsewhere(env, m, h, d);
    } else {
      TurnElsewhere(env, m, h, d);
    }
  }

  lemma FilterElsewhere(env: Env, m: Mach, h: nat, d: nat)
    requires m.ctl == Loop && InFilter(m) && Last(m.stack).frame.state == 1 && |m.stack| != h + 1
    requires h < |Whole(m)| && Whole(m)[h].KTry? && Depth(Whole(m)[..h]) == d
    ensures Elsewhere(m, Step(env, m), h, d)
  {
    hide Step, States, Depth;
    BelowWhole(m);
    DepthElsewhere(Whole(m), |m.stack| - 1, h);
    LoopInFilterKeepsRest(env, m);
    StatesAppend(m.trace, Last(Step(env, m).trace), d);
    assert Whole(Step(env, m))[h] == Whole(m)[h];
  }

  /** A turn of another frame's loop. */
  lemma TurnElsewhere(env: Env, m: Mach, h: nat, d: nat)
    requires m.ctl == Loop && m.AtTry() && !InFilter(m) && NoContexts(m.stack) && h + 1 < |m.stack|
    requires m.stack[h].KTry? && Depth(m.stack[..h]) == d && h < |Whole(Step(env, m))|
    ensures Elsewhere(m, Step(env, m), h, d)
  {
    hide Head, StepCallback, StepSearch, StepExec, StepReturn, StepLeave, States, Depth;
    var q := |m.stack| - 1;
    DepthElsewhere(m.stack, q, h);
    var m' := Step(env, m);
    assert Init(m.stack) == m.stack[..q];
    if m'.trace != m.trace { StatesAppend(m.trace, Last(m'.trace), d); }
    assert m.stack[q].frame.context.None?;
    assert !InFilter(m');
    assert forall i :: 0 <= i < q && i < |m'.stack| ==> m'.stack[i] == m.stack[i];
  }

  /** The evaluation of a filter writes its frame's filterResult, and nothing else. */
  lemma LoopInFilterKeepsRest(env: Env, m: Mach)
    requires m.ctl == Loop && InFilter(m) && Last(m.stack).frame.state == 1
    ensures var m' := Step(env, m);
      var q := |m.stack| - 1;
      && m'.ctl == Callback && InFilter(m') && |m'.stack| == |m.stack|
      && Whole(m') == Whole(m)[q := Whole(m')[q]]
      && m'.trace == m.trace + [Asked(Depth(Init(m.stack)), Last(m.stack).frame.record,
                                Verdict(env, Last(m.stack).clause, Last(m.stack).frame.record, m.trace))]
      && Whole(m')[q].KTry? && Whole(m)[q].KTry? && Whole(m')[q].at == Whole(m)[q].at
      && Whole(m')[q].clause == Whole(m)[q].clause
      && Whole(m')[q].frame.filterResult ==
           Verdict(env, Last(m.stack).clause, Last(m.stack).frame.record, m.trace)
  {
    hide Depth, Head, Remove;
    var m' := StepLoop(env, m);
    var q := |m.stack| - 1;
    var k := Last(m'.stack);
    assert Whole(m') == Whole(m)[q := k.(frame := k.frame.(context := None))];
  }

  lemma SearchElsewhere(env: Env, m: Mach, h: nat, d: nat)
    requires env.Valid() && m.ctl.Search? && Inv(env, m) && h < |m.stack| && m.stack[h].KTry?
    requires Comes(m, h) == []
    ensures Elsewhere(m, Step(env, m), h, d)
  {
    hide Head, StepCallback, StepLoop, StepExec, StepReturn, StepLeave, States, Shape, HeadsOk, Fns, Depth, StatesOk;
    var p := m.ctl.at;
    var m' := Step(env, m);
    if !IsFrame(m.stack, p) {
      StatesAppend(m.trace, Escaped(m.ctl.why.code), d);
    } else if m.stack[p].frame.Win32Frame? && m.fs == OS2_SEL {
    } else {
      EnterFilterKeeps(env, m, m.ctl.why, p);
    }
  }

  lemma CallbackElsewhere(env: Env, m: Mach, h: nat, d: nat)
    requires env.Valid() && m.ctl == Callback && Inv(env, m) && |m.stack| != h + 1
    requires h < |Whole(m)| && Whole(m)[h].KTry? && h < |Whole(Step(env, m))|
    ensures Elsewhere(m, Step(env, m), h, d)
  {
    hide Head, StepSearch, StepLoop, StepExec, StepReturn, StepLeave, States, Shape, HeadsOk, Fns, Depth, StatesOk,
      OnChain;
    var m' := Step(env, m);
    if InFilter(m) {
      var p := |m.stack| - 1;
      var w := Whole(m);
      var f := Last(m.stack).frame;
      assert w[p] == Last(m.stack).(frame := f.(context := None));
      if f.filterResult == EXECUTE_HANDLER {
        AcceptElsewhere(env, m.(stack := w), p, h);
      } else if f.filterResult == CONTINUE_EXECUTION {
        assert m'.stack == w[p := m'.stack[p]];
      } else {
        assert m'.stack == w;
      }
    }
  }

  lemma AcceptElsewhere(env: Env, m: Mach, p: Ptr, h: nat)
    requires m.ctl == Callback && IsFrame(m.stack, p) && m.stack[p].frame.context.None?
    requires h < |m.stack| && m.stack[h].KTry? && p != h && h < |Whole(Accept(env, m, p))|
    ensures var m' := Accept(env, m, p);
      && m'.trace == m.trace && PhaseOf(m', h).Inside?
      && Whole(m')[h].KTry? && Whole(m')[h].at == m.stack[h].at
      && Whole(m')[h].frame.state == m.stack[h].frame.state
  {
    hide Head, RtlUnwind;
    var m' := Accept(env, m, p);
    if m'.ctl == Loop { assert m'.stack == m.stack[..p] + [Last(m'.stack)]; }
  }

  // ----- counting -----

  /** How often the block of the d-th open __try has been started. */
  function Starts(t: Trace, d: nat): nat {
    if t == [] then 0 else Starts(Init(t), d) + if Last(t) == Handling(d) then 1 else 0
  }

  function Twos(w: seq<int>): nat {
    if w == [] then 0 else Twos(Init(w)) + if Last(w) == 2 then 1 else 0
  }

  lemma {:induction false} TwosAdd(a: seq<int>, b: seq<int>)
    ensures Twos(a + b) == Twos(a) + Twos(b)
  {
    if b == [] {
      assert a + b == a;
    } else {
      TwosAdd(a, Init(b));
      assert Init(a + b) == a + Init(b);
    }
  }

  lemma {:induction false} StartsAreTwos(t: Trace, d: nat)
    ensures Starts(t, d) == Twos(States(t, d))
  {
    if t != [] {
      StartsAreTwos(Init(t), d);
      TwosAdd(States(Init(t), d), Visit(Last(t), d));
      TwosOne(Last(t), d);
    }
  }

  lemma TwosOne(e: Event, d: nat)
    ensures Twos(Visit(e, d)) == if e == Handling(d) then 1 else 0
  {
    assert Twos([]) == 0;
    assert forall x: int :: Init([x]) == [];
  }

  // ----- the steps of the frame's own loop -----

  lemma ElsewhereTracks(m: Mach, m': Mach, h: nat, d: nat, base: seq<int>, rs: seq<bool>)
    requires Tracks(m, h, d, base, rs) && PhaseOf(m, h).Inside? && Elsewhere(m, m', h, d)
    requires Kept(Whole(m), Whole(m'))
    ensures Tracks(m', h, d, base, rs + Comes(m, h))
  {
    hide Whole, PhaseOf, States, Comes, Kept;
    DepthKept(Whole(m), Whole(m'), h);
    KeptTry(Whole(m), Whole(m'), h);
    assert rs + [] == rs;
  }

  lemma DepthKept(a: Stack, b: Stack, h: nat)
    requires Kept(a, b) && h < |a| && h < |b|
    ensures Depth(a[..h]) == Depth(b[..h])
  {
    SameAt(a[..h], b[..h], 0);
  }

  lemma KeptTry(a: Stack, b: Stack, h: nat)
    requires Kept(a, b) && h < |a| && h < |b| && a[h].KTry?
    ensures b[h].KTry? && b[h].clause == a[h].clause
  {
    assert Core(a[h]) == Core(b[h]);
  }

  /** What one turn of the frame's own loop does, in states 0, 2 and 3. */
  lemma OwnTurn(env: Env, m: Mach, h: nat)
    requires m.ctl == Loop && |m.stack| == h + 1 && m.AtTry() && !InFilter(m)
    requires Last(m.stack).frame.state in {0, 2, 3}
    ensures var m' := Step(env, m);
      var d := Depth(m.stack[..h]);
      var k, k' := Whole(m)[h], Whole(m')[h];
      && Whole(m)[..h] == Whole(m')[..h] && k'.KTry? && k.KTry? && k'.clause == k.clause
      && match Last(m.stack).frame.state
         case 0 => m'.trace == m.trace + [Enter(d)] && PhaseOf(m', h).Inside? && k'.at.InBody?
         case 2 =>
           && m'.trace == m.trace + [Handling(d)] && PhaseOf(m', h).Inside?
           && k'.at.InHandler? && k'.frame.state == 2
         case _ => m'.trace == m.trace + [Removed(d)] && PhaseOf(m', h).Closed? && k'.at == k.at
  {
    hide Head, Depth;
    var m' := Step(env, m);
    assert Init(m.stack) == m.stack[..h] && Last(m.stack) == m.stack[h];
    assert !InFilter(m') && |m'.stack| == h + 1 && m'.stack[..h] == m.stack[..h] && m'.stack[h] == Last(m'.stack);
  }

  /** The loop's visits of states 0, 2 and 3. */
  lemma LoopTracks(env: Env, m: Mach, h: nat, d: nat, base: seq<int>, rs: seq<bool>)
    requires Tracks(m, h, d, base, rs) && m.ctl == Loop && |m.stack| == h + 1 && m.AtTry() && !InFilter(m)
    requires h < |Whole(Step(env, m))|
    ensures Tracks(Step(env, m), h, d, base, rs)
  {
    hide States, Depth, Step;
    var state := Last(m.stack).frame.state;
    if state == 4 {
      ClosedPops(env, m, h);
      assert false;
    } else {
      OwnTurn(env, m, h);
      var e := if state == 0 then Enter(d) else if state == 2 then Handling(d) else Removed(d);
      StatesAppend(m.trace, e, d);
      if state == 2 { WordLast(rs); }
      if state == 0 { assert Word([]) == []; }
    }
  }

  lemma ClosedPops(env: Env, m: Mach, h: nat)
    requires m.ctl == Loop && |m.stack| == h + 1 && m.AtTry() && !InFilter(m) && Last(m.stack).frame.state == 4
    ensures |Whole(Step(env, m))| == h
  {
    hide Head, Depth;
  }

  lemma WordLast(rs: seq<bool>)
    requires rs != []
    ensures Word(rs) == Word(Init(rs)) + if Last(rs) then [1, 2] else [2]
    ensures Recorded(Due, rs) + [2] == Recorded(Inside, rs)
  {
    if Last(rs) { assert [1] + [2] == [1, 2]; }
  }

  /** The question, which a __finally always answers with "execute". */
  lemma AskingTracks(env: Env, m: Mach, h: nat, d: nat, base: seq<int>, rs: seq<bool>)
    requires Tracks(m, h, d, base, rs) && m.ctl == Loop && |m.stack| == h + 1 && InFilter(m)
    requires Inv(env, m)
    ensures Tracks(Step(env, m), h, d, base, rs)
  {
    hide States, Depth, Inv, Step, Recorded, Word;
    BelowWhole(m);
    AskingState(env, m);
    LoopInFilterKeepsRest(env, m);
    var m' := Step(env, m);
    StatesAppend(m.trace, Last(m'.trace), d);
    assert Whole(m')[..h] == Whole(m)[..h];
    assert Whole(m)[h].clause == Last(m.stack).clause;
    RecordedAsking(rs);
  }

  lemma RecordedAsking(rs: seq<bool>)
    ensures Recorded(Answered, rs) == Recorded(Asking, rs) + [1]
  {
  }

  lemma AskingState(env: Env, m: Mach)
    requires Inv(env, m) && m.ctl == Loop && InFilter(m)
    ensures Last(m.stack).frame.state == 1
  {
  }

  /** The frame's own acceptance. */
  lemma OwnAccept(env: Env, m: Mach, h: nat)
    requires env.Valid() && Inv(env, m) && m.ctl == Callback && InFilter(m) && |m.stack| == h + 1
    requires Last(m.stack).frame.filterResult == EXECUTE_HANDLER
    ensures h < |Whole(m)| && |Whole(Step(env, m))| == h + 1
    ensures var m' := Step(env, m);
      var k, k' := Whole(m)[h], Whole(m')[h];
      && Whole(m')[..h] == Whole(m)[..h] && k'.KTry? && k.KTry? && (k'.clause, k'.at) == (k.clause, k.at)
      && m'.trace == m.trace && PhaseOf(m', h).Due?
  {
    hide Head, Depth, Shape, HeadsOk, Fns, Accept;
    BelowWhole(m);
    var w := Whole(m);
    var x := m.(stack := w);
    var m' := Step(env, m);
    assert m' == Accept(env, x, h);
    AcceptKeeps(env, x, Last(m.stack).frame.context.value.why.kind, h);
    assert Whole(m') == m'.stack;
    assert m'.stack[..h] == w[..h] && Last(m'.stack) == m'.stack[h];
  }

  /** The answer: the frame takes the exception. */
  lemma AnsweredTracks(env: Env, m: Mach, h: nat, d: nat, base: seq<int>, rs: seq<bool>)
    requires env.Valid() && Tracks(m, h, d, base, rs) && m.ctl == Callback && |m.stack| == h + 1 && Inv(env, m)
    ensures Tracks(Step(env, m), h, d, base, rs)
  {
    hide States, Depth, Inv, Step, Recorded, Word;
    CallbackPhase(m, h);
    BelowWhole(m);
    OwnAccept(env, m, h);
    RecordedAnswered(rs);
  }

  lemma CallbackPhase(m: Mach, h: nat)
    requires m.ctl == Callback && |m.stack| == h + 1 && PhaseOf(m, h) != Astray && IsFrame(m.stack, h)
    ensures InFilter(m) && PhaseOf(m, h) == Answered
  {
    assert m.stack[h] == Last(m.stack);
  }

  lemma RecordedAnswered(rs: seq<bool>)
    requires rs != [] && Last(rs)
    ensures Recorded(Answered, rs) == Recorded(Due, rs)
  {
  }

  /** What the end of the body or of the block, or a __leave, does to the frame. */
  lemma OwnBack(env: Env, m: Mach, h: nat)
    requires Sane(m) && (m.ctl == Return || m.ctl == Leaving) && |m.stack| == h + 1 && m.AtTry()
    requires Last(m.stack).clause.Finally? && (Last(m.stack).at.InHandler? ==> Last(m.stack).frame.state == 2)
    ensures |Whole(m)| == h + 1 == |Whole(Step(env, m))|
    ensures var m' := Step(env, m);
      var k, k' := Whole(m)[h], Whole(m')[h];
      && Whole(m)[..h] == Whole(m')[..h] && k'.KTry? && k.KTry? && k'.clause == k.clause && k'.at == k.at
      && m'.trace == m.trace
      && PhaseOf(m, h).Inside?
      && if Comes(m, h) == [] then PhaseOf(m', h).Closing? && k.at.InHandler?
         else Comes(m, h) == [false] && PhaseOf(m', h).Due?
  {
    hide Depth, Head;
    var m' := Step(env, m);
    assert m.stack[h] == Last(m.stack);
    assert m.stack[h].frame.context.None?;
    assert !InFilter(m') && |m'.stack| == h + 1 && m'.stack[..h] == m.stack[..h] && m'.stack[h] == Last(m'.stack);
  }

  /** Control comes back to the loop, from the body or from the block. */
  lemma BackTracks(env: Env, m: Mach, h: nat, d: nat, base: seq<int>, rs: seq<bool>)
    requires Tracks(m, h, d, base, rs) && (m.ctl == Return || m.ctl == Leaving) && |m.stack| == h + 1
    requires Sane(m)
    ensures Tracks(Step(env, m), h, d, base, rs + Comes(m, h))
  {
    hide States, Depth, Step, PhaseOf, Comes, Recorded, Word, Whole;
    TopIsCell(m, h);
    OwnBack(env, m, h);
    RecordedBack(rs);
    assert rs + [] == rs;
  }

  lemma RecordedBack(rs: seq<bool>)
    ensures Recorded(Due, rs + [false]) == Recorded(Inside, rs) == Recorded(Closing, rs)
  {
    assert Init(rs + [false]) == rs && !Last(rs + [false]);
  }

  lemma TopIsCell(m: Mach, h: nat)
    requires (m.ctl == Return || m.ctl == Leaving) && |m.stack| == h + 1
    ensures Whole(m)[h] == Last(m.stack) && PhaseOf(m, h).Inside?
  {
  }

  /** The frame's handler is called. */
  lemma HeardTracks(env: Env, m: Mach, h: nat, d: nat, base: seq<int>, rs: seq<bool>)
    requires env.Valid() && Tracks(m, h, d, base, rs) && Inv(env, m)
    requires m.ctl.Search? && Comes(m, h) == [true]
    ensures Tracks(Step(env, m), h, d, base, rs + [true])
  {
    hide Head, States, Depth, Shape, HeadsOk, Fns, Same;
    EnterFilterKeeps(env, m, m.ctl.why, h);
    var m' := Step(env, m);
    BelowWhole(m');
    assert Whole(m')[..h] == m.stack[..h];
    assert Init(rs + [true]) == rs;
  }

  lemma TracksStep(env: Env, m: Mach, h: nat, d: nat, base: seq<int>, rs: seq<bool>)
    requires env.Valid() && Inv(env, m) && Sane(m) && Tracks(m, h, d, base, rs) && h < |Whole(Step(env, m))|
    ensures Tracks(Step(env, m), h, d, base, rs + Comes(m, h))
  {
    hide Inv, Sane, States, Elsewhere, Kept, Step, Depth;
    StepKeeps(env, m);
    var m' := Step(env, m);
    assert rs + [] == rs;
    match m.ctl
    case Exec(s) =>
      ExecElsewhere(env, m, s, h, d);
      ElsewhereTracks(m, m', h, d, base, rs);
    case Loop =>
      TracksLoop(env, m, h, d, base, rs);
    case Callback =>
      if |m.stack| == h + 1 { AnsweredTracks(env, m, h, d, base, rs); }
      else {
        CallbackElsewhere(env, m, h, d);
        ElsewhereTracks(m, m', h, d, base, rs);
      }
    case Search(_, _) =>
      if Comes(m, h) == [true] { HeardTracks(env, m, h, d, base, rs); }
      else {
        SearchElsewhere(env, m, h, d);
        ElsewhereTracks(m, m', h, d, base, rs);
      }
    case Halted(_) => HaltedStays(env, 1, m);
    case _ =>
      if |m.stack| == h + 1 { BackTracks(env, m, h, d, base, rs); }
      else {
        ReturnElsewhere(env, m, h, d);
        ElsewhereTracks(m, m', h, d, base, rs);
      }
  }

  lemma TracksLoop(env: Env, m: Mach, h: nat, d: nat, base: seq<int>, rs: seq<bool>)
    requires env.Valid() && Inv(env, m) && Sane(m) && Tracks(m, h, d, base, rs) && h < |Whole(Step(env, m))|
    requires m.ctl == Loop && Kept(Whole(m), Whole(Step(env, m)))
    ensures Tracks(Step(env, m), h, d, base, rs + Comes(m, h))
  {
    hide Sane, States, Elsewhere, Kept, Step, Depth, Shape, HeadsOk, Fns, StatesOk;
    assert rs + [] == rs;
    if |m.stack| != h + 1 {
      LoopElsewhere(env, m, h, d);
      ElsewhereTracks(m, Step(env, m), h, d, base, rs);
    } else if InFilter(m) {
      AskingTracks(env, m, h, d, base, rs);
    } else {
      LoopTracks(env, m, h, d, base, rs);
    }
  }

  // ----- whole runs -----

  predicate IsFinally(m: Mach) {
    m.ctl.Exec? && m.ctl.s.Try? && m.ctl.s.clause.Finally?
  }

  lemma TracksEntry(env: Env, m: Mach)
    requires env.Valid() && Inv(env, m) && IsFinally(m)
    ensures Inv(env, Step(env, m))
    ensures Tracks(Step(env, m), |m.stack|, Depth(m.stack), States(m.trace, Depth(m.stack)), [])
  {
    hide States, Depth, Inv;
    InstallKeeps(env, m, m.ctl.s);
    var m1 := Step(env, m);
    assert m1.stack == m.stack + [Last(m1.stack)];
    assert Whole(m1)[..|m.stack|] == m.stack;
    assert States(m.trace, Depth(m.stack)) + [] == States(m.trace, Depth(m.stack));
  }

  /** Reasons only come while control is inside, and then the first comes from the body and
      the rest from the block. */
  lemma ComesFrom(m: Mach, h: nat, d: nat, base: seq<int>, rs: seq<bool>)
    requires Tracks(m, h, d, base, rs)
    ensures |Comes(m, h)| <= 1
    ensures Comes(m, h) != [] ==> (FromBlock(m, h) <==> rs != [])
  {
    hide Depth, States, Word;
  }

  lemma {:induction false} RunTracks(env: Env, n: nat, m: Mach, h: nat, d: nat, base: seq<int>)
    requires env.Valid() && Inv(env, m) && Tracks(m, h, d, base, []) && StaysAbove(env, n, m, h + 1)
    ensures var rs := Reasons(env, n, m, h);
      && Tracks(Steps(env, n, m), h, d, base, rs)
      && Restarts(env, n, m, h) == if rs == [] then [] else rs[1..]
  {
    hide Inv, Tracks, Step, Comes, FromBlock, Whole;
    if n > 0 {
      var b := Steps(env, n - 1, m);
      StaysBefore(env, n, m, h + 1);
      RunTracks(env, n - 1, m, h, d, base);
      StepsKeepInv(env, n - 1, m);
      InvIsSane(env, b);
      LastStep(env, n, m);
      assert |Whole(Steps(env, n, m))| >= h + 1;
      var rs := Reasons(env, n - 1, m, h);
      TracksStep(env, b, h, d, base, rs);
      ComesFrom(b, h, d, base, rs);
      if rs != [] { assert (rs + Comes(b, h))[1..] == rs[1..] + Comes(b, h); }
    }
  }

  lemma {:induction false} WordStarts(rs: seq<bool>)
    ensures Twos(Word(rs)) == |rs|
  {
    if rs != [] {
      WordStarts(Init(rs));
      var w := if Last(rs) then [1, 2] else [2];
      TwosAdd(Word(Init(rs)), w);
      assert Init([1, 2]) == [1] && Init([1]) == [] && Init([2]) == [];
      assert Twos([1]) == 0;
    }
  }

  lemma StartsFollow(t: Trace, t': Trace, d: nat, rs: seq<bool>)
    requires States(t', d) == States(t, d) + ([0] + Word(rs) + [3])
    ensures Starts(t', d) == Starts(t, d) + |rs|
  {
    StartsAreTwos(t, d);
    StartsAreTwos(t', d);
    TwosAdd(States(t, d), [0] + Word(rs) + [3]);
    TwosAdd([0] + Word(rs), [3]);
    TwosAdd([0], Word(rs));
    WordStarts(rs);
    assert Init([0]) == [] && Init([3]) == [];
  }

  /** A __try/__finally that comes to its end, in any run, clean or not: its loop has been
      visited in state 0, then in the states that the reasons call for (1 and 2 for an
      exception heard, 2 for the end of the body or a __leave), then in state 3. The first
      reason is how the body was left; every further one has come from the running block, and
      has started it once more. So the block has run exactly once if and only if no exception
      raised in it was heard by its own frame and no __leave ended it. */
  lemma FinallyWord(env: Env, n: nat, m: Mach) returns (first: bool)
    requires env.Valid() && Inv(env, m) && IsFinally(m)
    requires StaysAbove(env, n, Step(env, m), |m.stack| + 1)
    requires var m' := Steps(env, n + 1, Step(env, m)); m'.ctl == Return && |m'.stack| == |m.stack|
    ensures var m' := Steps(env, n + 1, Step(env, m));
      var d := Depth(m.stack);
      var again := Restarts(env, n, Step(env, m), |m.stack|);
      && States(m'.trace, d) == States(m.trace, d) + ([0] + Word([first] + again) + [3])
      && Starts(m'.trace, d) == Starts(m.trace, d) + 1 + |again|
  {
    hide Inv, Step, Steps, Sane, States, Depth, Whole, Word, Starts, Tracks, Reasons, Restarts, StaysAbove;
    var h, d := |m.stack|, Depth(m.stack);
    var m1 := Step(env, m);
    var base := States(m.trace, d);
    TracksEntry(env, m);
    RunTracks(env, n, m1, h, d, base);
    StepsKeepInv(env, n, m1);
    var b := Steps(env, n, m1);
    InvIsSane(env, b);
    LastStep(env, n + 1, m1);
    var rs := Reasons(env, n, m1, h);
    EndsClosed(env, b, h, d, base, rs);
    first := rs[0];
    assert rs == [first] + Restarts(env, n, m1, h);
    StartsFollow(m.trace, Steps(env, n + 1, m1).trace, d, rs);
  }

  lemma EndsClosed(env: Env, b: Mach, h: nat, d: nat, base: seq<int>, rs: seq<bool>)
    requires Inv(env, b) && Sane(b) && Tracks(b, h, d, base, rs)
    requires Step(env, b).ctl == Return && |Step(env, b).stack| == h
    ensures rs != [] && States(Step(env, b).trace, d) == base + ([0] + Word(rs) + [3])
  {
    hide States, Depth, Word, Shape, HeadsOk, Fns;
    ReturnsBelow(env, b, h);
    assert b.stack[h] == Last(b.stack);
    assert Whole(b) == b.stack;
  }

  /** As long as the run has not come to its end, the record is a beginning of such a word. */
  lemma FinallySoFar(env: Env, n: nat, m: Mach)
    requires env.Valid() && Inv(env, m) && IsFinally(m)
    requires StaysAbove(env, n, Step(env, m), |m.stack| + 1)
    ensures var m' := Steps(env, n, Step(env, m));
      var rs := Reasons(env, n, Step(env, m), |m.stack|);
      && States(m'.trace, Depth(m.stack)) ==
           States(m.trace, Depth(m.stack)) + Recorded(PhaseOf(m', |m.stack|), rs)
      && Restarts(env, n, Step(env, m), |m.stack|) == if rs == [] then [] else rs[1..]
  {
    hide Inv, States, Depth, Whole, Word, Step;
    TracksEntry(env, m);
    RunTracks(env, n, Step(env, m), |m.stack|, Depth(m.stack), States(m.trace, Depth(m.stack)));
  }

  // ----- a frame that hears every exception is only left by its removal -----

  /** No RaiseException is called in the OS/2 variant, where frames do not hear it. */
  predicate KernelOnly(env: Env, n: nat, m: Mach) {
    env.variant.Win32Tib? || forall j: nat :: j <= n ==> !CallsRaise(Steps(env, j, m))
  }

  predicate CallsRaise(m: Mach) { m.ctl.Exec? && m.ctl.s.Raise? && m.ctl.s.kind.Software? }

  /** Searches, and the filters they run, have not come past the frame in cell `h`. */
  predicate Stopped(env: Env, m: Mach, h: nat) {
    && (m.ctl.Search? ==>
          h <= m.ctl.at && IsFrame(m.stack, m.ctl.at) && Heard(env, m.ctl.why.kind))
    && (InFilter(m) ==> h + 1 <= |m.stack| && Heard(env, Last(m.stack).frame.context.value.why.kind))
    && h < |Whole(m)| && Whole(m)[h].KTry? && IsLive(env, Whole(m)[h].frame)
  }

  predicate Heard(env: Env, kind: Kind) { env.variant.Win32Tib? || kind.Hardware? }

  lemma {:induction false} TopAbove(env: Env, stack: Stack, h: nat, c: Chain)
    requires h < |stack| && OnChain(env, stack[h], c)
    ensures h <= Top(env, stack, c) < |stack| && OnChain(env, stack[Top(env, stack, c)], c)
  {
    if !OnChain(env, Last(stack), c) { TopAbove(env, Init(stack), h, c); }
  }

  lemma LiveIsOnChain(env: Env, m: Mach, h: nat, kind: Kind)
    requires Inv(env, m) && Stopped(env, m, h) && Heard(env, kind)
    ensures OnChain(env, Whole(m)[h], ChainOf(env, kind))
  {
    FrameAt(env, Whole(m), h);
  }

  lemma LiveKept(env: Env, a: Stack, b: Stack, h: nat)
    requires Kept(a, b) && h < |a| && h < |b| && a[h].KTry? && IsLive(env, a[h].frame)
    ensures b[h].KTry? && IsLive(env, b[h].frame)
  {
    assert Core(a[h]) == Core(b[h]);
  }

  /** What the next step may do with such a frame: leave it where it is, or, when it has been
      unlinked, drop it. */
  predicate StepsOver(env: Env, m: Mach, h: nat) {
    var m' := Step(env, m);
    if Unlinked(m) && |m.stack| == h + 1 then m'.ctl == Return && |m'.stack| == h
    else Stopped(env, m', h) && (m'.ctl.Halted? ==> !m'.ctl.how.PassedOn?)
  }

  lemma StoppedExec(env: Env, m: Mach, s: Stmt, h: nat)
    requires env.Valid() && Inv(env, m) && Stopped(env, m, h) && m.ctl == Exec(s)
    requires s.Raise? ==> Heard(env, s.kind)
    ensures StepsOver(env, m, h)
  {
    hide Inv, Shape, HeadsOk, Fns, Top, WalkOs2;
    var m' := Step(env, m);
    if s.Raise? {
      LiveIsOnChain(env, m, h, s.kind);
      RaiseKeeps(env, m, s.kind, s.code);
      TopAbove(env, m.stack, h, ChainOf(env, s.kind));
      var p := Top(env, m.stack, ChainOf(env, s.kind));
      assert Core(m.stack[p]) == Core(m'.stack[p]) && Core(m.stack[h]) == Core(m'.stack[h]);
    } else if s.Try? {
      assert m'.stack[h] == m.stack[h];
    }
  }

  lemma StoppedSearch(env: Env, m: Mach, h: nat)
    requires env.Valid() && Inv(env, m) && Stopped(env, m, h) && m.ctl.Search?
    ensures StepsOver(env, m, h)
  {
    hide Shape, HeadsOk, Fns, StatesOk;
    var p := m.ctl.at;
    if !(m.stack[p].frame.Win32Frame? && m.fs == OS2_SEL) {
      EnterFilterKeeps(env, m, m.ctl.why, p);
      assert Core(Whole(m)[h]) == Core(Whole(Step(env, m))[h]);
    }
  }

  lemma StoppedLoop(env: Env, m: Mach, h: nat)
    requires env.Valid() && Inv(env, m) && Stopped(env, m, h) && m.ctl == Loop && h < |m.stack|
    ensures StepsOver(env, m, h)
  {
    hide Shape, HeadsOk, Fns, StatesOk, Depth, Head, Kept, NoContexts;
    InvIsSane(env, m);
    StepKeeps(env, m);
    if InFilter(m) {
      LoopInFilterKeepsRest(env, m);
      LoopKeepsContext(env, m);
      LiveKept(env, Whole(m), Whole(Step(env, m)), h);
    } else {
      StoppedTurn(env, m, h);
    }
  }

  lemma StoppedTurn(env: Env, m: Mach, h: nat)
    requires Sane(m) && Stopped(env, m, h) && m.ctl == Loop && h < |m.stack| && m.AtTry() && !InFilter(m)
    requires Kept(Whole(m), Whole(Step(env, m)))
    ensures StepsOver(env, m, h)
  {
    hide Depth, Head, Kept;
    var m' := Step(env, m);
    assert m.stack[|m.stack| - 1].frame.context.None?;
    assert !InFilter(m');
    if !(Unlinked(m) && |m.stack| == h + 1) { LiveKept(env, Whole(m), Whole(m'), h); }
  }

  lemma LoopKeepsContext(env: Env, m: Mach)
    requires m.ctl == Loop && InFilter(m) && Last(m.stack).frame.state == 1
    ensures InFilter(Step(env, m)) && Last(Step(env, m).stack).frame.context == Last(m.stack).frame.context
  {
    hide Depth;
  }

  lemma StoppedReturn(env: Env, m: Mach, h: nat)
    requires env.Valid() && Inv(env, m) && Stopped(env, m, h) && (m.ctl == Return || m.ctl == Leaving)
    ensures StepsOver(env, m, h)
  {
    hide Shape, HeadsOk, Fns, StatesOk, Depth, Head, ControlOk;
    InvIsSane(env, m);
    var m' := Step(env, m);
    if m.AtTry() {
      assert m.stack[|m.stack| - 1].frame.context.None?;
      assert |m'.stack| == |m.stack| && !InFilter(m');
      StepKeeps(env, m);
      LiveKept(env, Whole(m), Whole(m'), h);
    } else {
      assert m.stack[h] != Last(m.stack);
      assert m'.stack != m.stack ==> m'.stack[h] == m.stack[h];
    }
  }

  lemma StoppedCallback(env: Env, m: Mach, h: nat)
    requires env.Valid() && Inv(env, m) && Stopped(env, m, h) && m.ctl == Callback && h < |m.stack|
    requires |m.stack| == h + 1 && InFilter(m) ==> Last(m.stack).frame.filterResult == EXECUTE_HANDLER
    ensures StepsOver(env, m, h)
  {
    hide HeadsOk, Fns, Depth, Head, Shape, StatesOk, Kept, NoContexts, Accept;
    if !InFilter(m) { return; }
    InvIsSane(env, m);
    StepKeeps(env, m);
    var m' := Step(env, m);
    var p := |m.stack| - 1;
    var f := Last(m.stack).frame;
    var w := Whole(m);
    var kind := f.context.value.why.kind;
    assert w[p] == Last(m.stack).(frame := f.(context := None));
    LiveIsOnChain(env, m, h, kind);
    if f.filterResult == EXECUTE_HANDLER {
      StoppedAccept(env, m);
      LiveKept(env, w, Whole(m'), h);
    } else if f.filterResult == CONTINUE_EXECUTION {
      assert m'.stack == w[p := m'.stack[p]];
      LiveKept(env, w, Whole(m'), h);
    } else {
      assert m'.stack == w;
      FrameAt(env, w, p);
      assert w[..p][h] == w[h];
      TopAbove(env, w[..p], h, ChainOf(env, kind));
    }
  }

  lemma StoppedAccept(env: Env, m: Mach)
    requires env.Valid() && Inv(env, m) && m.ctl == Callback && InFilter(m)
    requires Last(m.stack).frame.filterResult == EXECUTE_HANDLER
    ensures var m' := Step(env, m); m'.ctl == Loop && !InFilter(m') && |m'.stack| == |m.stack|
  {
    hide Shape, HeadsOk, Fns;
    var p := |m.stack| - 1;
    AcceptKeeps(env, m.(stack := Whole(m)), Last(m.stack).frame.context.value.why.kind, p);
  }

  lemma StoppedStep(env: Env, m: Mach, h: nat, d: nat, base: seq<int>, rs: seq<bool>)
    requires env.Valid() && Inv(env, m) && Stopped(env, m, h) && Tracks(m, h, d, base, rs)
    requires env.variant.Win32Tib? || !CallsRaise(m)
    requires m.ctl.Halted? ==> !m.ctl.how.PassedOn?
    ensures StepsOver(env, m, h)
  {
    hide Inv, StepsOver, States, Depth, Word;
    match m.ctl
    case Exec(s) => StoppedExec(env, m, s, h);
    case Search(_, _) => StoppedSearch(env, m, h);
    case Loop => StoppedLoop(env, m, h);
    case Callback => StoppedCallback(env, m, h);
    case Halted(_) => StoppedHalted(env, m, h);
    case _ => StoppedReturn(env, m, h);
  }

  lemma StoppedHalted(env: Env, m: Mach, h: nat)
    requires m.ctl.Halted? && Stopped(env, m, h) && !m.ctl.how.PassedOn?
    ensures StepsOver(env, m, h)
  {
  }

  lemma {:induction false} RunStops(env: Env, n: nat, m: Mach, h: nat, d: nat, base: seq<int>)
    requires env.Valid() && Inv(env, m) && Tracks(m, h, d, base, []) && Stopped(env, m, h) && !m.ctl.Halted?
    requires StaysAbove(env, n, m, h + 1) && KernelOnly(env, n, m)
    ensures StepsOver(env, Steps(env, n, m), h)
    ensures var b := Steps(env, n, m); Stopped(env, b, h) && (b.ctl.Halted? ==> !b.ctl.how.PassedOn?)
  {
    hide Inv, Tracks, Step, Stopped, Whole;
    var b := Steps(env, n, m);
    if n > 0 {
      StaysBefore(env, n, m, h + 1);
      KernelBefore(env, n, m);
      RunStops(env, n - 1, m, h, d, base);
      LastStep(env, n, m);
      NotDropped(env, n, m, h);
    }
    RunTracks(env, n, m, h, d, base);
    StepsKeepInv(env, n, m);
    KernelLast(env, n, m);
    StoppedStep(env, b, h, d, base, Reasons(env, n, m, h));
  }

  lemma KernelLast(env: Env, n: nat, m: Mach)
    requires KernelOnly(env, n, m)
    ensures env.variant.Win32Tib? || !CallsRaise(Steps(env, n, m))
  {
  }

  lemma KernelBefore(env: Env, n: nat, m: Mach)
    requires n > 0 && KernelOnly(env, n, m)
    ensures KernelOnly(env, n - 1, m)
  {
  }

  lemma NotDropped(env: Env, n: nat, m: Mach, h: nat)
    requires n > 0 && StaysAbove(env, n, m, h + 1) && StepsOver(env, Steps(env, n - 1, m), h)
    requires Steps(env, n, m) == Step(env, Steps(env, n - 1, m))
    ensures var b := Steps(env, n, m); Stopped(env, b, h) && (b.ctl.Halted? ==> !b.ctl.how.PassedOn?)
  {
    hide Stopped;
    assert |Whole(Steps(env, n, m))| >= h + 1;
  }

  /** From any moment inside, the next step stays inside, without the exception being passed on,
      or it is the end of the statement, after the removal. */
  lemma FinallyNextStep(env: Env, n: nat, m: Mach)
    requires env.Valid() && Inv(env, m) && IsFinally(m) && LiveAt(env, m.fs)
    requires StaysAbove(env, n, Step(env, m), |m.stack| + 1) && KernelOnly(env, n, Step(env, m))
    ensures var b := Steps(env, n, Step(env, m));
      var c := Step(env, b);
      || (|Whole(c)| > |m.stack| && !PassesOn(c))
      || (Unlinked(b) && |b.stack| == |m.stack| + 1 && c.ctl == Return && |c.stack| == |m.stack|)
  {
    hide Inv, Tracks, Whole, Step, States, Depth;
    TracksEntry(env, m);
    EntryStops(env, m);
    RunStops(env, n, Step(env, m), |m.stack|, Depth(m.stack), States(m.trace, Depth(m.stack)));
  }

  predicate PassesOn(m: Mach) { m.ctl.Halted? && m.ctl.how.PassedOn? }

  /** A __try/__finally entered with its frame on the chains that exceptions go along (FS on
      the thread's Win32 selector, or, in the OS/2 variant, no call of RaiseException): after
      any number of steps of any run the machine is still inside the statement, and no
      exception has been passed on, or the statement has come to its end before, through the
      removal of its frame. Together with FinallyWord: its block runs, once and as often again
      as it asks for itself, before anything outside does. */
  lemma {:induction false} FinallyIsNotSkipped(env: Env, n: nat, m: Mach) returns (k: nat)
    requires env.Valid() && Inv(env, m) && IsFinally(m) && (env.variant.Win32Tib? ==> m.fs == env.tebSel)
    requires env.variant.Win32Tib? || forall j: nat :: j <= n ==> !CallsRaise(Steps(env, j, Step(env, m)))
    ensures k <= n && StaysAbove(env, k, Step(env, m), |m.stack| + 1)
    ensures k == n ==> !PassesOn(Steps(env, n, Step(env, m)))
    ensures k < n ==>
      var end := Steps(env, k + 1, Step(env, m)); end.ctl == Return && |end.stack| == |m.stack|
    decreases n
  {
    hide Inv, Whole, Step, IsFinally, PassesOn;
    var m1 := Step(env, m);
    var h := |m.stack|;
    if n == 0 {
      k := 0;
      EntrySize(env, m);
    } else {
      KernelBefore(env, n, m1);
      k := FinallyIsNotSkipped(env, n - 1, m);
      if k == n - 1 {
        FinallyNextStep(env, k, m);
        LastStep(env, n, m1);
        if |Whole(Steps(env, n, m1))| > h && !PassesOn(Steps(env, n, m1)) {
          StaysOn(env, k, m1, h + 1);
          k := n;
        }
      }
    }
  }

  lemma EntrySize(env: Env, m: Mach)
    requires env.Valid() && Inv(env, m) && IsFinally(m)
    ensures StaysAbove(env, 0, Step(env, m), |m.stack| + 1) && !PassesOn(Steps(env, 0, Step(env, m)))
  {
    InstalledAbove(env, m);
  }

  lemma StaysOn(env: Env, n: nat, m: Mach, h: nat)
    requires StaysAbove(env, n, m, h) && |Whole(Steps(env, n + 1, m))| >= h
    ensures StaysAbove(env, n + 1, m, h)
  {
  }

  lemma EntryStops(env: Env, m: Mach)
    requires env.Valid() && Inv(env, m) && IsFinally(m) && LiveAt(env, m.fs)
    ensures Stopped(env, Step(env, m), |m.stack|) && !Step(env, m).ctl.Halted?
  {
    hide Inv;
    InstallKeeps(env, m, m.ctl.s);
    var m1 := Step(env, m);
    assert Whole(m1) == m1.stack && m1.stack[|m.stack|] == Last(m1.stack);
  }
}
