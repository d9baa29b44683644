/** What the macros and handlers do with exceptions raised in except and finally blocks, which
    is not what the structured text suggests: on the machine, for whole classes of blocks, each
    with a program that comes to it from its start. */
module HandlerFaults {
  import opened Selectors
  import opened Programs
  import opened Reference
  import opened Machine
  import opened Invariant
  import opened Lowering
  import opened Correctness
  import opened Orderly
  import opened Laws
  import opened Halting
  import opened Crashes

  // ----- coming to a handler block -----

  /** From a __try whose handler block is due, after a clean body, the machine comes to its
      loop in state 2. */
  lemma ComesToHandler(env: Env, s: Stmt, m: Mach) returns (n: nat)
    requires env.Valid() && Inv(env, m) && m.ctl == Exec(s) && s.Try? && WellFormed(s, false)
    requires var r := BodyOf(env, s, Guards(env, m.stack), StOf(m));
      r.st.clean && HandlerDue(s, Depth(m.stack), r.out)
    ensures var m' := Steps(env, n, m);
      AtLoop(env, m', 2) && |m'.stack| == |m.stack| + 1 && RunsTry(env, s, EntryOf(m), m')
  {
    hide Inv, Alike, Same, RunsTry, Run, Steps, Guards;
    EnterTry(env, s, m);
    var m2 := Steps(env, 2, m);
    var k := Last(m2.stack);
    assert m2.stack == m.stack + [k];
    var n1 := Simulate(env, s.body, true, m2);
    var m3 := Steps(env, n1, m2);
    StepsAdd(env, 2, n1, m);
    StepsKeepInv(env, n1, m2);
    n := 2 + n1;
    var r := RunFrom(env, s.body, m2);
    LandsAtLoop(env, s, m, m2, r, m3);
    if !r.out.Caught? {
      BackAtLoop(env, m3);
      ThreeSteps(env, m3);
      StepsAdd(env, n, 1, m);
      n := n + 1;
      BackRunsTry(env, s, EntryOf(m), m3, Steps(env, n, m));
    }
  }

  /** Where the body of the __try has landed: at the loop, or at its end on top of the frame. */
  lemma LandsAtLoop(env: Env, s: Stmt, m: Mach, m2: Mach, r: Res, m3: Mach)
    requires s.Try? && RunsTry(env, s, EntryOf(m), m2) && Inv(env, m3)
    requires m2.AtTry() && Init(m2.stack) == m.stack && Last(m2.stack).at.InBody?
    requires Lands(env, m2.stack, r, m3) && HandlerDue(s, Depth(m.stack), r.out)
    ensures |m3.stack| == |m.stack| + 1 && RunsTry(env, s, EntryOf(m), m3)
    ensures m3.AtTry() && Last(m3.stack).clause == s.clause
    ensures if r.out.Caught? then AtLoop(env, m3, 2) else
      (m3.ctl == Return || m3.ctl == Leaving) && s.clause.Finally? && Last(m3.stack).at.InBody?
  {
    hide Inv;
    var k := Last(m2.stack);
    assert m2.stack == m.stack + [k];
    PushView(env, m.stack, k);
    assert m2.stack[..|m2.stack|] == m2.stack;
    PopAlike(m.stack, k, m3.stack);
  }

  lemma BackRunsTry(env: Env, s: Stmt, e: Entry, m: Mach, m': Mach)
    requires s.Try? && RunsTry(env, s, e, m) && m'.AtTry() && Init(m'.stack) == Init(m.stack)
    requires Last(m'.stack) == Last(m.stack).(frame := Last(m.stack).frame.(state := 2))
    ensures RunsTry(env, s, e, m')
  {
  }

  /** A frame that was installed while FS was the thread's Win32 selector, or in the OS/2
      variant, hears faults. */
  lemma LiveHearsFaults(env: Env, s: Stmt, m: Mach, m': Mach)
    requires s.Try? && LiveAt(env, m.fs) && RunsTry(env, s, EntryOf(m), m')
    ensures Last(m'.stack).clause == s.clause && Last(m'.stack).handler == s.handler
    ensures OnChain(env, Last(m'.stack), ChainOf(env, Hardware))
  {
  }

  // ----- a handler block that faults, under a frame that takes it -----

  /** Whatever the exception, the frame takes it; so it is with every __finally. */
  ghost predicate AlwaysTakes(env: Env, clause: Clause) {
    forall code: int, t: Trace :: Verdict(env, clause, code, t) == EXECUTE_HANDLER
  }

  /** The loop is about to run a handler block that is bound to fault, and its own frame takes
      faults. */
  ghost predicate RaisesInBlock(env: Env, m: Mach) {
    && AtLoop(env, m, 2)
    && AlwaysTakes(env, Last(m.stack).clause) && AlwaysRaises(Last(m.stack).handler)
    && WellFormed(Last(m.stack).handler, true)
    && OnChain(env, Last(m.stack), ChainOf(env, Hardware))
  }

  /** A search for a fault has begun, at the frame where it would begin on `stack`, whose cells
      are still there. */
  predicate Searches(env: Env, stack: Stack, m: Mach) {
    && Inv(env, m) && m.ctl.Search? && m.ctl.why.kind.Hardware?
    && m.ctl.at == Top(env, stack, ChainOf(env, Hardware)) && m.fs == SearchFs(env, m.ctl.why)
    && |stack| <= |m.stack| && Same(stack, m.stack[..|stack|])
  }

  lemma SearchesBelow(env: Env, a: Stack, b: Stack, m: Mach)
    requires Searches(env, b, m) && |a| <= |b| && Same(a, b[..|a|])
    requires Top(env, a, ChainOf(env, Hardware)) == Top(env, b, ChainOf(env, Hardware))
    ensures Searches(env, a, m)
  {
    forall i | 0 <= i < |a| ensures Core(a[i]) == Core(m.stack[..|a|][i]) {
      assert Core(a[i]) == Core(b[..|a|][i]);
      assert Core(b[i]) == Core(m.stack[..|b|][i]);
    }
  }

  /** Under a slot that is no frame, the search begins at the same place. */
  lemma SearchesUnder(env: Env, stack: Stack, k: Slot, m: Mach)
    requires Searches(env, stack + [k], m) && !k.KTry?
    ensures Searches(env, stack, m)
  {
    assert Init(stack + [k]) == stack && Last(stack + [k]) == k;
    assert (stack + [k])[..|stack|] == stack;
    SearchesBelow(env, stack, stack + [k], m);
  }

  lemma SearchesAlike(env: Env, a: Stack, b: Stack, m: Mach)
    requires Searches(env, b, m) && Alike(a, b)
    ensures Searches(env, a, m)
  {
    SameTop(env, a, b, ChainOf(env, Hardware));
    assert b[..|a|] == b;
    SearchesBelow(env, a, b, m);
  }

  /** Code that is bound to fault comes to the fault. */
  lemma {:induction false} RaiserSearches(env: Env, s: Stmt, inTry: bool, m: Mach) returns (n: nat)
    requires env.Valid() && Inv(env, m) && m.ctl == Exec(s) && WellFormed(s, inTry) && AlwaysRaises(s)
    ensures Searches(env, m.stack, Steps(env, n, m))
    decreases s, 1
  {
    hide Inv, Searches, Alike, Same, Steps, Install, StartSearch, Top, StepLoop, StepReturn, StepLeave, StepSearch,
      StepCallback;
    ThreeSteps(env, m);
    match s
    case Raise(_, code) =>
      n := 1;
      RaiseSearches(env, m, code);
    case Choice(id, a, b) =>
      StepKeepsInv(env, m);
      var k := RaiserSearches(env, if env.choose(id, m.trace) then a else b, inTry, Step(env, m));
      n := 1 + k;
      StepsAdd(env, 1, k, m);
    case OS2Call(id, callee) =>
      StepKeepsInv(env, m);
      var k := RaiserSearches(env, callee, false, Step(env, m));
      n := 1 + k;
      StepsAdd(env, 1, k, m);
      SearchesUnder(env, m.stack, KWrap(id, ToUShort(ToShort(m.fs)), |m.trace|), Steps(env, n, m));
    case Traced(name, callee) =>
      StepKeepsInv(env, m);
      var k := RaiserSearches(env, callee, false, Step(env, m));
      n := 1 + k;
      StepsAdd(env, 1, k, m);
      SearchesUnder(env, m.stack, KFn(name, m.fs, |m.trace|), Steps(env, n, m));
    case Seq(a, b) => n := SeqSearches(env, s, inTry, m);
  }

  lemma RaiseSearches(env: Env, m: Mach, code: int)
    requires env.Valid() && Inv(env, m) && m.ctl == Exec(Raise(Hardware, code))
    ensures Searches(env, m.stack, Step(env, m))
  {
    hide Inv, StartSearch;
    RaiseStarts(env, m, Hardware, code);
    var m' := Step(env, m);
    SameTop(env, m.stack, m'.stack, ChainOf(env, Hardware));
    assert m'.stack[..|m.stack|] == m'.stack;
  }

  lemma {:induction false} SeqSearches(env: Env, s: Stmt, inTry: bool, m: Mach) returns (n: nat)
    requires env.Valid() && Inv(env, m) && m.ctl == Exec(s) && WellFormed(s, inTry) && AlwaysRaises(s) && s.Seq?
    ensures Searches(env, m.stack, Steps(env, n, m))
    decreases s, 0
  {
    hide Inv, Searches, Alike, Same, Steps;
    ThreeSteps(env, m);
    var Seq(a, b) := s;
    StepKeepsInv(env, m);
    if AlwaysRaises(a) {
      var k := RaiserSearches(env, a, inTry, Step(env, m));
      n := 1 + k;
      StepsAdd(env, 1, k, m);
      SearchesUnder(env, m.stack, KSeq(b), Steps(env, n, m));
    } else {
      n := HarmlessThen(env, a, b, inTry, m);
      StepsKeepInv(env, n, m);
      var m3 := Steps(env, n, m);
      var k := RaiserSearches(env, b, inTry, m3);
      SearchesAlike(env, m.stack, m3.stack, Steps(env, k, m3));
      StepsAdd(env, n, k, m);
      n := n + k;
    }
  }

  /** The harmless first half of a sequence comes to its end. */
  lemma HarmlessThen(env: Env, a: Stmt, b: Stmt, inTry: bool, m: Mach) returns (n: nat)
    requires env.Valid() && Inv(env, m) && m.ctl == Exec(Seq(a, b)) && WellFormed(a, inTry) && Harmless(a)
    ensures var m' := Steps(env, n, m); m'.ctl == Exec(b) && Alike(m.stack, m'.stack) && n > 0
  {
    hide Inv, Alike, Same, Steps;
    ThreeSteps(env, m);
    StepKeepsInv(env, m);
    var m1 := Step(env, m);
    var k := HarmlessReturns(env, a, inTry, m1);
    var m2 := Steps(env, k, m1);
    PopAlike(m.stack, KSeq(b), m2.stack);
    ThreeSteps(env, m2);
    StepsAdd(env, 1, k, m);
    StepsAdd(env, 1 + k, 1, m);
    n := 2 + k;
  }

  lemma HarmlessReturns(env: Env, s: Stmt, inTry: bool, m: Mach) returns (n: nat)
    requires env.Valid() && Inv(env, m) && m.ctl == Exec(s) && WellFormed(s, inTry) && Harmless(s)
    ensures var m' := Steps(env, n, m); m'.ctl == Return && Alike(m.stack, m'.stack)
  {
    hide Inv, Alike, Steps;
    n := Simulate(env, s, inTry, m);
    HarmlessEnds(env, s, Guards(env, m.stack), StOf(m));
  }

  /** The search asks the frame on top of the stack it was begun on, if that hears faults. */
  lemma SearchAsks(env: Env, stack: Stack, m: Mach)
    requires env.Valid() && stack != [] && Last(stack).KTry? && Searches(env, stack, m)
    requires OnChain(env, Last(stack), ChainOf(env, Hardware))
    ensures var p := |stack| - 1;
      && Asks(env, m, m.ctl.why, p) && m.ctl.why.kind == Hardware
      && Core(m.stack[p]) == Core(Last(stack)) && OnChain(env, m.stack[p], ChainOf(env, Hardware))
  {
    hide Inv, HeadsOk;
    var p := |stack| - 1;
    InvShape(env, m);
    assert Core(stack[p]) == Core(m.stack[..|stack|][p]);
    FrameAt(env, m.stack, p);
  }

  lemma BlockSearches(env: Env, m: Mach) returns (n: nat)
    requires env.Valid() && RaisesInBlock(env, m)
    ensures var p := |m.stack| - 1;
      var b := Steps(env, n, m);
      && Inv(env, b) && b.ctl.Search? && Asks(env, b, b.ctl.why, p) && b.ctl.why.kind == Hardware
      && Core(b.stack[p]) == Core(Last(m.stack)) && OnChain(env, b.stack[p], ChainOf(env, Hardware))
  {
    hide Inv, Steps, Same;
    ThreeSteps(env, m);
    HandlerStarts(env, m);
    var m1 := Step(env, m);
    var n1 := RaiserSearches(env, m1.ctl.s, true, m1);
    StepsKeepInv(env, n1, m1);
    SearchAsks(env, m1.stack, Steps(env, n1, m1));
    StepsAdd(env, 1, n1, m);
    n := 1 + n1;
  }

  /** The handlers do not look at a frame's state: an exception raised in a finally block is
      claimed by the frame it belongs to, and the machine is again where it was. */
  lemma BlockRaiseRepeats(env: Env, m: Mach) returns (n: nat)
    requires env.Valid() && RaisesInBlock(env, m)
    ensures n > 0 && RaisesInBlock(env, Steps(env, n, m))
  {
    hide Inv, Steps, Asks, AtLoop, AlwaysTakes;
    var k := BlockSearches(env, m);
    var b := Steps(env, k, m);
    var p := |m.stack| - 1;
    AsksFrame(env, b, b.ctl.why, p);
    TakesHere(env, b, b.ctl.why, p, Last(m.stack));
    TakenInThree(env, b, b.ctl.why, p);
    StepsAdd(env, k, 3, m);
    n := k + 3;
    TakenCell(env, b.stack, p, Steps(env, n, m));
    assert Core(Last(Steps(env, n, m).stack)) == Core(Last(m.stack));
    AtLoopTry(env, m);
    AtLoopTry(env, Steps(env, n, m));
  }

  lemma AtLoopTry(env: Env, m: Mach)
    requires AtLoop(env, m, 2)
    ensures m.AtTry()
  {
  }

  lemma TakesHere(env: Env, m: Mach, why: Dispatch, p: Ptr, k: Slot)
    requires IsFrame(m.stack, p) && k.KTry? && Core(m.stack[p]) == Core(k) && AlwaysTakes(env, k.clause)
    ensures Answer(env, m, why, p) == EXECUTE_HANDLER
  {
  }

  lemma TakenCell(env: Env, stack: Stack, p: Ptr, m: Mach)
    requires TakenAt(env, stack, p, m)
    ensures 0 <= p < |stack| && AtLoop(env, m, 2) && m.AtTry() && |m.stack| == p + 1
    ensures Core(Last(m.stack)) == Core(stack[p])
  {
    hide Inv;
    assert Core(stack[..p + 1][p]) == Core(m.stack[p]);
  }

  lemma {:induction false} BlockRaiseNeverHalts(env: Env, m: Mach, n: nat)
    requires env.Valid() && RaisesInBlock(env, m)
    ensures !Steps(env, n, m).ctl.Halted?
    decreases n
  {
    hide RaisesInBlock;
    var k := BlockRaiseRepeats(env, m);
    if n < k {
      if Steps(env, n, m).ctl.Halted? {
        HaltedStays(env, k - n, Steps(env, n, m));
        StepsAdd(env, n, k - n, m);
        AtItsLoop(env, Steps(env, k, m));
        assert false;
      }
    } else {
      StepsAdd(env, k, n - k, m);
      BlockRaiseNeverHalts(env, Steps(env, k, m), n - k);
    }
  }

  lemma AtItsLoop(env: Env, m: Mach)
    requires RaisesInBlock(env, m)
    ensures m.ctl == Loop
  {
  }

  /** Any __try whose handler block comes to run and is bound to fault, in any program, if its
      frame hears faults and takes them all, as every __finally does: the program never halts.
      Its structured meaning ends, and is not clean. */
  lemma FinallyRaiseNeverHalts(env: Env, s: Stmt, m: Mach, n: nat)
    requires env.Valid() && Inv(env, m) && m.ctl == Exec(s) && s.Try? && WellFormed(s, false)
    requires var r := BodyOf(env, s, Guards(env, m.stack), StOf(m));
      r.st.clean && HandlerDue(s, Depth(m.stack), r.out)
    requires LiveAt(env, m.fs) && AlwaysRaises(s.handler) && AlwaysTakes(env, s.clause)
    ensures !Steps(env, n, m).ctl.Halted?
    ensures !RunFrom(env, s, m).st.clean
  {
    hide Inv, Steps, AlwaysTakes, RunHandler;
    var k := ComesToHandler(env, s, m);
    var b := Steps(env, k, m);
    LiveHearsFaults(env, s, m, b);
    AtLoopTry(env, b);
    if n >= k {
      BlockRaiseNeverHalts(env, b, n - k);
      StepsAdd(env, k, n - k, m);
    } else if Steps(env, n, m).ctl.Halted? {
      HaltedStays(env, k - n, Steps(env, n, m));
      StepsAdd(env, n, k - n, m);
      AtItsLoop(env, b);
      assert false;
    }
    RaisingHandlerIsUnclean(env, s, Guards(env, m.stack), m.fs, BodyOf(env, s, Guards(env, m.stack), StOf(m)).st);
  }

  /** What it does instead of halting: it starts handler blocks again and again. */
  lemma FinallyRaiseRunsForever(env: Env, s: Stmt, m: Mach, k: nat) returns (n: nat)
    requires env.Valid() && Inv(env, m) && m.ctl == Exec(s) && s.Try? && WellFormed(s, false)
    requires var r := BodyOf(env, s, Guards(env, m.stack), StOf(m));
      r.st.clean && HandlerDue(s, Depth(m.stack), r.out)
    requires LiveAt(env, m.fs) && AlwaysRaises(s.handler) && AlwaysTakes(env, s.clause)
    ensures Blocks(Steps(env, n, m).trace) >= Blocks(m.trace) + k
  {
    hide Inv, Steps, AlwaysTakes, RunHandler, Blocks;
    n := HaltsOrRestarts(env, k, m);
    FinallyRaiseNeverHalts(env, s, m, n);
  }

  /** Such a program, from its start. */
  lemma RaisingFinallyFromStart(env: Env, code: int, calls: seq<nat>, n: nat)
    requires env.Valid()
    ensures !Steps(env, n, Start(env, Try(Skip, Finally, Raise(Hardware, code)), env.tebSel, calls)).ctl.Halted?
  {
    var s := Try(Skip, Finally, Raise(Hardware, code));
    StartInv(env, s, env.tebSel, calls);
    FinallyRaiseNeverHalts(env, s, Start(env, s, env.tebSel, calls), n);
  }

  // ----- a handler block that faults and goes on -----

  /** A handler block that faults once, in the midst of other things. */
  predicate FaultsOnce(handler: Stmt, pre: Stmt, code: int, post: Stmt) {
    handler == Seq(pre, Seq(Raise(Hardware, code), post)) && Harmless(pre) && Harmless(post)
  }

  /** The least such block. */
  function OneFault(code: int): Stmt { Seq(Skip, Seq(Raise(Hardware, code), Skip)) }

  lemma OneFaultOk(code: int)
    ensures FaultsOnce(OneFault(code), Skip, code, Skip) && WellFormed(OneFault(code), true)
  {
    var r: Stmt := Raise(Hardware, code);
    assert WellFormed(r, true) && WellFormed(Skip, true);
    var t := Seq(r, Skip);
    assert t.first == r && t.second == Skip;
    assert WellFormed(t, true);
  }

  lemma FaultsParts(handler: Stmt, pre: Stmt, code: int, post: Stmt)
    requires FaultsOnce(handler, pre, code, post) && WellFormed(handler, true)
    ensures WellFormed(post, true) && Harmless(post)
  {
    assert WellFormed(handler.second, true);
  }

  /** The stack while such a block is at its fault: its frame with the block running, and the
      rest of the block on top of it. */
  predicate AtFault(env: Env, outer: Stack, k: Slot, post: Stmt, m: Mach) {
    Inv(env, m) && k.KTry? && k.at.InHandler? && Alike(outer + [k, KSeq(post)], m.stack)
  }

  lemma BlockComesToFault(env: Env, m: Mach, pre: Stmt, code: int, post: Stmt) returns (n: nat)
    requires env.Valid() && AtLoop(env, m, 2) && WellFormed(Last(m.stack).handler, true)
    requires FaultsOnce(Last(m.stack).handler, pre, code, post)
    ensures var b := Steps(env, n, m);
      b.ctl == Exec(Raise(Hardware, code)) && AtFault(env, Init(m.stack), Last(m.stack).(at := InHandler), post, b)
  {
    hide Inv, Alike, Same, Steps;
    var k := Last(m.stack).(at := InHandler);
    ThreeSteps(env, m);
    HandlerStarts(env, m);
    var m1 := Step(env, m);
    var n1 := HarmlessThen(env, pre, Seq(Raise(Hardware, code), post), true, m1);
    var m2 := Steps(env, n1, m1);
    StepsKeepInv(env, n1, m1);
    StepKeepsInv(env, m2);
    StepsAdd(env, 1, n1, m);
    ThreeSteps(env, m2);
    StepsAdd(env, 1 + n1, 1, m);
    n := 2 + n1;
    AlikePush(m1.stack, m2.stack, KSeq(post));
    assert m1.stack + [KSeq(post)] == Init(m.stack) + [k, KSeq(post)];
  }

  lemma AlikePush(a: Stack, b: Stack, k: Slot)
    requires Alike(a, b)
    ensures Alike(a + [k], b + [k])
  {
    forall i | 0 <= i < |a| + 1 ensures Core((a + [k])[i]) == Core((b + [k])[i]) {
      if i < |a| { assert Core(a[i]) == Core(b[i]); }
    }
  }

  /** The search begins at the block's own frame, with the rest of the block above it. */
  lemma FaultAsks(env: Env, outer: Stack, k: Slot, code: int, post: Stmt, m: Mach)
    requires env.Valid() && AtFault(env, outer, k, post, m) && m.ctl == Exec(Raise(Hardware, code))
    requires OnChain(env, k, ChainOf(env, Hardware))
    ensures var b := Step(env, m);
      var why := Dispatch(Hardware, code, m.fs);
      && Inv(env, b) && Asks(env, b, why, |outer|) && |b.stack| == |outer| + 2
      && b.fs == SearchFs(env, why) && OnChain(env, b.stack[|outer|], ChainOf(env, Hardware))
      && b.stack[|outer|].clause == k.clause && b.stack[|outer|].at.InHandler? && b.stack[|outer| + 1] == KSeq(post)
      && Guards(env, b.stack[..|outer|]) == Guards(env, outer)
  {
    hide Inv, HeadsOk, StartSearch;
    var all := outer + [k, KSeq(post)];
    var p := |outer|;
    RaiseStarts(env, m, Hardware, code);
    var b := Step(env, m);
    AlikeTrans(all, m.stack, b.stack);
    AlikeCell(all, b.stack, p);
    AlikeCell(all, b.stack, p + 1);
    AlikePrefix(all, b.stack, p);
    assert all[..p] == outer;
    AlikeView(env, outer, b.stack[..p]);
    InvShape(env, b);
    assert Init(b.stack) == b.stack[..p + 1] && Last(b.stack) == b.stack[p + 1];
    assert Init(b.stack[..p + 1]) == b.stack[..p] && Last(b.stack[..p + 1]) == b.stack[p];
    FrameAt(env, b.stack, p);
  }

  lemma AlikeCell(a: Stack, b: Stack, i: nat)
    requires Alike(a, b) && i < |a|
    ensures |a| == |b| && Core(a[i]) == Core(b[i])
    ensures a[i].KTry? ==> b[i].KTry? && AlikeTry(a[i], b[i])
  {
  }

  /** After a resumption the rest of the block runs to its end, and leaves the frame as the
      search has left it. */
  lemma BlockEnds(env: Env, m: Mach, post: Stmt) returns (n: nat)
    requires env.Valid() && Inv(env, m) && m.ctl == Return && |m.stack| >= 2 && Last(m.stack) == KSeq(post)
    requires var k := m.stack[|m.stack| - 2]; k.KTry? && k.at.InHandler?
    requires WellFormed(post, true) && Harmless(post)
    ensures var b := Steps(env, n, m);
      var k := m.stack[|m.stack| - 2];
      && b.ctl == Return && b.AtTry() && |b.stack| == |m.stack| - 1
      && Last(b.stack).at.InHandler? && Last(b.stack).frame.state == k.frame.state
      && Core(Last(b.stack)) == Core(k)
  {
    hide Inv, Alike, Same, Steps;
    ThreeSteps(env, m);
    StepKeepsInv(env, m);
    var m1 := Step(env, m);
    assert m1.stack == Init(m.stack);
    var n1 := HarmlessReturns(env, post, true, m1);
    StepsAdd(env, 1, n1, m);
    n := 1 + n1;
    AlikeCell(m1.stack, Steps(env, n, m).stack, |m1.stack| - 1);
  }

  /** An exception raised in a handler block and resumed by that __try's own filter: when the
      block ends, the machine crashes. */
  lemma ResumeInHandlerBlock(env: Env, m: Mach, pre: Stmt, code: int, post: Stmt) returns (n: nat)
    requires env.Valid() && AtLoop(env, m, 2) && WellFormed(Last(m.stack).handler, true)
    requires FaultsOnce(Last(m.stack).handler, pre, code, post)
    requires OnChain(env, Last(m.stack), ChainOf(env, Hardware))
    requires forall t :: Verdict(env, Last(m.stack).clause, code, t) == CONTINUE_EXECUTION
    ensures Steps(env, n, m).ctl == Halted(Crashed)
  {
    hide Inv, Step, Steps, Asks, AtFault, SearchEnds, AskAll, SameAbove, Guards, FaultsOnce, WellFormed, Harmless;
    FaultsParts(Last(m.stack).handler, pre, code, post);
    var p := |m.stack| - 1;
    var k := Last(m.stack).(at := InHandler);
    var n1 := BlockComesToFault(env, m, pre, code, post);
    var m1 := Steps(env, n1, m);
    FaultAsks(env, Init(m.stack), k, code, post, m1);
    var why := Dispatch(Hardware, code, m1.fs);
    var m2 := Step(env, m1);
    AsksFrame(env, m2, why, p);
    var m3 := Steps(env, 3, m2);
    SearchResumed(env, m2, why, p);
    StepsKeepInv(env, 3, m2);
    ResumedAbove(env, m2, why, p, m3);
    var n4 := BlockEnds(env, m3, post);
    var m4 := Steps(env, n4, m3);
    StepsKeepInv(env, n4, m3);
    ResumedHandlerBlockCrashes(env, m4);
    ThreeSteps(env, m1);
    FourRuns(env, m, n1, 1, 3, n4, 3);
    n := n1 + 1 + 3 + n4 + 3;
  }

  lemma FourRuns(env: Env, m: Mach, a: nat, b: nat, c: nat, d: nat, e: nat)
    ensures Steps(env, a + b + c + d + e, m) ==
      Steps(env, e, Steps(env, d, Steps(env, c, Steps(env, b, Steps(env, a, m)))))
  {
    hide Steps;
    StepsAdd(env, a, b, m);
    StepsAdd(env, a + b, c, m);
    StepsAdd(env, a + b + c, d, m);
    StepsAdd(env, a + b + c + d, e, m);
  }

  lemma ResumedAbove(env: Env, m: Mach, why: Dispatch, p: Ptr, m': Mach)
    requires IsFrame(m.stack, p) && |m.stack| == p + 2 && SameAbove(m'.stack, m.stack, p + 1)
    requires SearchEnds(env, m.stack, AskAll(env, m, why, p + 1), m') && AskAll(env, m, why, p + 1).out.Normal?
    ensures m'.ctl == Return && |m'.stack| == p + 2 && Last(m'.stack) == m.stack[p + 1]
  {
    assert m'.stack[p + 1..][0] == m.stack[p + 1..][0];
  }

  /** So does any __try, in any program, whose handler block comes to run and faults once, if
      its frame hears faults and its filter resumes that one. */
  lemma ResumedBlockCrashes(env: Env, s: Stmt, m: Mach, pre: Stmt, code: int, post: Stmt) returns (n: nat)
    requires env.Valid() && Inv(env, m) && m.ctl == Exec(s) && s.Try? && WellFormed(s, false)
    requires var r := BodyOf(env, s, Guards(env, m.stack), StOf(m));
      r.st.clean && HandlerDue(s, Depth(m.stack), r.out)
    requires LiveAt(env, m.fs) && FaultsOnce(s.handler, pre, code, post)
    requires forall t :: Verdict(env, s.clause, code, t) == CONTINUE_EXECUTION
    ensures Steps(env, n, m).ctl == Halted(Crashed)
  {
    hide Inv, Steps, RunsTry;
    var k := ComesToHandler(env, s, m);
    LiveHearsFaults(env, s, m, Steps(env, k, m));
    n := ResumeInHandlerBlock(env, Steps(env, k, m), pre, code, post);
    StepsAdd(env, k, n, m);
    n := k + n;
  }

  /** Such a program, from its start: the filter accepts the first exception and resumes the
      one that the except block raises. */
  lemma ResumedBlockFromStart(env: Env, first: int, code: int, filter: nat, calls: seq<nat>) returns (n: nat)
    requires env.Valid() && env.answer(filter, first, [Enter(0)]) == EXECUTE_HANDLER
    requires forall t :: env.answer(filter, code, t) == CONTINUE_EXECUTION
    ensures var s := Try(Raise(Hardware, first), Except(filter), OneFault(code));
      Steps(env, n, Start(env, s, env.tebSel, calls)).ctl == Halted(Crashed)
  {
    var s := Try(Raise(Hardware, first), Except(filter), OneFault(code));
    var m := Start(env, s, env.tebSel, calls);
    StartInv(env, s, env.tebSel, calls);
    assert StOf(m).trace + [Enter(0)] == [Enter(0)];
    OneFaultOk(code);
    FirstIsTaken(env, s, [], StOf(m), first);
    n := ResumedBlockCrashes(env, s, m, Skip, code, Skip);
  }

  /** A __try whose body is a fault that its filter accepts. */
  lemma FirstIsTaken(env: Env, s: Stmt, gs: seq<Guard>, st: St, first: int)
    requires s.Try? && s.body == Raise(Hardware, first) && LiveAt(env, st.fs)
    requires Verdict(env, s.clause, first, st.trace + [Enter(|gs|)]) == EXECUTE_HANDLER
    ensures var r := BodyOf(env, s, gs, st); r.st.clean == st.clean && r.out == Caught(|gs|)
  {
    var all := gs + [Guard(s.clause, true, false)];
    assert all[|gs|] == Guard(s.clause, true, false);
  }

  // ----- frame states after a resumption -----

  /** A frame that lets an exception pass stays in state 1 when an outer frame resumes it:
      resumption does not restore the states of the frames it has asked. */
  lemma PassedFrameStaysInStateOne(env: Env, m: Mach, why: Dispatch, p: Ptr) returns (n: nat)
    requires env.Valid() && Inv(env, m) && Asks(env, m, why, p) && m.fs == SearchFs(env, why)
    requires OnChain(env, m.stack[p], ChainOf(env, why.kind))
    requires Answer(env, m, why, p) != EXECUTE_HANDLER && Answer(env, m, why, p) != CONTINUE_EXECUTION
    requires AskAll(env, m, why, p + 1).out.Normal?
    ensures var m' := Steps(env, n, m);
      m'.ctl == Return && IsFrame(m'.stack, p) && m'.stack[p].frame.state == 1
  {
    hide Inv;
    n := SearchPassed(env, m, why, p);
  }

  /** While the body runs this does no harm, since the end of the body assigns the state. At
      the end of an except block, which only increments it, state 1 becomes 2: the block is run
      again, though nobody has taken an exception. This happens to any except block that
      faults once, if its own filter lets the fault pass and a __try further out resumes it. */
  lemma PassedBlockRunsAgain(env: Env, m: Mach, pre: Stmt, code: int, post: Stmt) returns (n: nat)
    requires env.Valid() && AtLoop(env, m, 2) && WellFormed(Last(m.stack).handler, true)
    requires FaultsOnce(Last(m.stack).handler, pre, code, post)
    requires OnChain(env, Last(m.stack), ChainOf(env, Hardware))
    requires forall t :: !Stops(Verdict(env, Last(m.stack).clause, code, t))
    requires forall st :: Ask(env, Hardware, code, Unmarked(Guards(env, Init(m.stack))), st).out.Normal?
    ensures EndsAndRunsAgain(env, Steps(env, n, m), |m.stack|)
  {
    hide Inv, Step, Steps, Asks, AtFault, Ask, SearchEnds, AskAll, SameAbove, Guards, FaultsOnce, WellFormed, Harmless;
    FaultsParts(Last(m.stack).handler, pre, code, post);
    var p := |m.stack| - 1;
    var k := Last(m.stack).(at := InHandler);
    var n1 := BlockComesToFault(env, m, pre, code, post);
    var m1 := Steps(env, n1, m);
    FaultAsks(env, Init(m.stack), k, code, post, m1);
    var why := Dispatch(Hardware, code, m1.fs);
    var m2 := Step(env, m1);
    AsksFrame(env, m2, why, p);
    PassedOutside(env, m2, why, p, k.clause, Init(m.stack));
    var n3 := SearchPassed(env, m2, why, p);
    var m3 := Steps(env, n3, m2);
    StepsKeepInv(env, n3, m2);
    ResumedAbove(env, m2, why, p, m3);
    var n4 := BlockEnds(env, m3, post);
    var m4 := Steps(env, n4, m3);
    StepsKeepInv(env, n4, m3);
    StateOneRunsAgain(env, m4);
    ThreeSteps(env, m1);
    FourRuns(env, m, n1, 1, n3, n4, 0);
    n := n1 + 1 + n3 + n4 + 0;
    NoSteps(env, m4);
  }

  lemma NoSteps(env: Env, m: Mach)
    ensures Steps(env, 0, m) == m
  {
  }

  /** The handler block of the frame on top has come to its end, and two steps on it has been
      started again, with nothing but that on record. */
  predicate EndsAndRunsAgain(env: Env, m: Mach, h: nat) {
    && m.ctl == Return && m.AtTry() && |m.stack| == h && Last(m.stack).at.InHandler?
    && var m' := Steps(env, 2, m);
       m'.ctl == Exec(Last(m.stack).handler) && m'.trace == m.trace + [Handling(Depth(Init(m.stack)))]
  }

  lemma StateOneRunsAgain(env: Env, m: Mach)
    requires env.Valid() && Inv(env, m) && m.ctl == Return && m.AtTry()
    requires Last(m.stack).at.InHandler? && Last(m.stack).frame.state == 1
    ensures EndsAndRunsAgain(env, m, |m.stack|)
  {
    hide Inv;
    BackAtLoop(env, m);
    ThreeSteps(env, m);
    HandlerStarts(env, Step(env, m));
  }

  lemma PassedOutside(env: Env, m: Mach, why: Dispatch, p: Ptr, clause: Clause, outer: Stack)
    requires env.Valid() && Inv(env, m) && m.ctl.Search? && IsFrame(m.stack, p) && m.stack[p].clause == clause
    requires why.kind == Hardware && OnChain(env, m.stack[p], ChainOf(env, Hardware))
    requires Guards(env, m.stack[..p]) == Guards(env, outer)
    requires forall t :: !Stops(Verdict(env, clause, why.code, t))
    requires forall st :: Ask(env, Hardware, why.code, Unmarked(Guards(env, outer)), st).out.Normal?
    ensures !Stops(Answer(env, m, why, p)) && AskAll(env, m, why, p + 1).out.Normal?
  {
    hide Inv, Ask;
    InvShape(env, m);
    AskAllHere(env, m, why, p);
  }

  /** The same from any __try whose handler block comes to run. */
  lemma PassedTryRunsAgain(env: Env, s: Stmt, m: Mach, pre: Stmt, code: int, post: Stmt) returns (n: nat)
    requires env.Valid() && Inv(env, m) && m.ctl == Exec(s) && s.Try? && WellFormed(s, false)
    requires var r := BodyOf(env, s, Guards(env, m.stack), StOf(m));
      r.st.clean && HandlerDue(s, Depth(m.stack), r.out)
    requires LiveAt(env, m.fs) && FaultsOnce(s.handler, pre, code, post)
    requires forall t :: !Stops(Verdict(env, s.clause, code, t))
    requires forall st :: Ask(env, Hardware, code, Unmarked(Guards(env, m.stack)), st).out.Normal?
    ensures EndsAndRunsAgain(env, Steps(env, n, m), |m.stack| + 1)
  {
    hide Inv, Steps, Ask, EndsAndRunsAgain, Alike;
    var k := ComesToHandler(env, s, m);
    var b := Steps(env, k, m);
    LiveHearsFaults(env, s, m, b);
    AlikeView(env, m.stack, Init(b.stack));
    n := PassedBlockRunsAgain(env, b, pre, code, post);
    StepsAdd(env, k, n, m);
    n := k + n;
  }

  /** Such a program, from its start: the inner filter accepts the first exception and lets
      the one of its except block pass, which the outer filter resumes. */
  lemma PassedBlockFromStart(env: Env, first: int, code: int, inner: nat, outer: nat, calls: seq<nat>)
      returns (n: nat)
    requires env.Valid() && env.answer(inner, first, [Enter(0), Enter(1)]) == EXECUTE_HANDLER
    requires forall t ::
      env.answer(inner, code, t) != EXECUTE_HANDLER && env.answer(inner, code, t) != CONTINUE_EXECUTION
    requires forall t :: env.answer(outer, code, t) == CONTINUE_EXECUTION
    ensures var s := Try(Raise(Hardware, first), Except(inner), OneFault(code));
      EndsAndRunsAgain(env, Steps(env, n, Start(env, Try(s, Except(outer), Skip), env.tebSel, calls)), 2)
  {
    hide Inv, Steps, EndsAndRunsAgain, Guards, FaultsOnce;
    var s := Try(Raise(Hardware, first), Except(inner), OneFault(code));
    var t := Try(s, Except(outer), Skip);
    var m := Start(env, t, env.tebSel, calls);
    StartInv(env, t, env.tebSel, calls);
    EnterTry(env, t, m);
    var m2 := Steps(env, 2, m);
    StartGuards(env, t, calls);
    var gs := [Guard(Except(outer), true, false)];
    assert [] + gs == gs;
    assert StOf(m2).trace + [Enter(1)] == [Enter(0), Enter(1)];
    OneFaultOk(code);
    FirstIsTaken(env, s, gs, StOf(m2), first);
    assert Unmarked(gs) == gs;
    forall st ensures Ask(env, Hardware, code, Unmarked(Guards(env, m2.stack)), st).out.Normal? {}
    n := PassedTryRunsAgain(env, s, m2, Skip, code, Skip);
    StepsAdd(env, 2, n, m);
    n := 2 + n;
  }

  lemma StartGuards(env: Env, s: Stmt, calls: seq<nat>)
    ensures Guards(env, Start(env, s, env.tebSel, calls).stack) == []
  {
  }
}
