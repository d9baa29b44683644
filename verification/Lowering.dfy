/** The lowered program does what the structured program means. */
module Lowering {
  import opened Selectors
  import opened Programs
  import opened Reference
  import opened Machine
  import opened Invariant

  // ----- the structured view of a machine state -----

  predicate IsLive(env: Env, f: Frame) {
    f.Os2Frame? || f.win32FS == env.tebSel
  }

  function GuardOf(env: Env, k: Slot): Guard
    requires k.KTry?
  {
    Guard(k.clause, IsLive(env, k.frame), k.at.InHandler?)
  }

  /** The open __try statements of a stack, outermost first. */
  function Guards(env: Env, stack: Stack): (gs: seq<Guard>)
    ensures |gs| == Depth(stack)
  {
    if stack == [] then []
    else Guards(env, Init(stack)) + if Last(stack).KTry? then [GuardOf(env, Last(stack))] else []
  }

  function StOf(m: Mach): St { St(m.trace, m.fs, m.calls, true) }

  /** Equal but for what searches write into frames whose body is running, and into pPrev and
      filterResult. */
  predicate Alike(a: Stack, b: Stack) {
    && Same(a, b)
    && forall i :: 0 <= i < |a| && a[i].KTry? ==> b[i].KTry? && AlikeTry(a[i], b[i])
  }

  predicate AlikeTry(a: Slot, b: Slot)
    requires a.KTry? && b.KTry?
  {
    a.at == b.at && (a.at.InHandler? ==> a.frame.state == b.frame.state && a.frame.record == b.frame.record)
  }

  /** The stack cell of the d-th open __try. */
  function At(stack: Stack, d: nat): Ptr {
    if stack == [] then CHAIN_END
    else if Last(stack).KTry? && Depth(Init(stack)) == d then |stack| - 1
    else At(Init(stack), d)
  }

  /** The machine has come to where the structured run `r`, begun on `stack`, ends. */
  predicate Lands(env: Env, stack: Stack, r: Res, m: Mach) {
    && m.trace == r.st.trace
    && m.calls == r.st.calls
    && match r.out
       case Normal => m.ctl == Return && Alike(stack, m.stack) && m.fs == r.st.fs
       case Left => m.ctl == Leaving && Alike(stack, m.stack) && m.fs == r.st.fs
       case Caught(d) => LandsCaught(stack, d, m) && m.fs == r.st.fs
       case Gone => m.ctl.Halted? && m.ctl.how.PassedOn?
  }

  /** At label 0 of the d-th open __try in state 2, with everything above it gone. */
  predicate LandsCaught(stack: Stack, d: nat, m: Mach) {
    var p := At(stack, d);
    && 0 <= p < |stack|
    && m.ctl == Loop && !InFilter(m)
    && Alike(stack[..p + 1], m.stack)
    && m.AtTry() && Last(m.stack).frame.state == 2
  }

  /** No continuation of `a` is ever equal to `b` or a continuation of it. */
  predicate Differs(a: Trace, b: Trace) {
    exists k :: 0 <= k < |a| && k < |b| && a[k] != b[k]
  }

  // ----- stacks -----

  lemma AlikeRefl(a: Stack)
    ensures Alike(a, a)
  {
  }

  lemma AlikeInit(a: Stack, b: Stack)
    requires Alike(a, b) && a != []
    ensures Alike(Init(a), Init(b))
  {
    SameInit(a, b);
  }

  lemma AlikePrefix(a: Stack, b: Stack, k: nat)
    requires Alike(a, b) && k <= |a|
    ensures Alike(a[..k], b[..k])
  {
  }

  lemma AlikeTrans(a: Stack, b: Stack, c: Stack)
    requires Alike(a, b) && Alike(b, c)
    ensures Alike(a, c)
  {
    forall i | 0 <= i < |a| ensures Core(a[i]) == Core(c[i]) {
      assert Core(a[i]) == Core(b[i]) && Core(b[i]) == Core(c[i]);
    }
  }

  lemma {:induction false} AlikeView(env: Env, a: Stack, b: Stack)
    requires Alike(a, b)
    ensures Guards(env, a) == Guards(env, b) && Depth(a) == Depth(b)
  {
    if a != [] {
      AlikeInit(a, b);
      AlikeView(env, Init(a), Init(b));
      assert Core(Last(a)) == Core(Last(b));
    }
  }

  lemma {:induction false} AlikeDepth(a: Stack, b: Stack)
    requires Alike(a, b)
    ensures Depth(a) == Depth(b)
  {
    if a != [] {
      AlikeInit(a, b);
      AlikeDepth(Init(a), Init(b));
      assert Core(Last(a)) == Core(Last(b));
    }
  }

  lemma {:induction false} AlikeAt(a: Stack, b: Stack, d: nat)
    requires Alike(a, b)
    ensures At(a, d) == At(b, d)
  {
    if a != [] {
      AlikeInit(a, b);
      AlikeAt(Init(a), Init(b), d);
      AlikeDepth(Init(a), Init(b));
      assert Core(Last(a)) == Core(Last(b));
    }
  }

  lemma {:induction false} DepthPrefix(stack: Stack, k: nat)
    requires k <= |stack|
    ensures Depth(stack[..k]) <= Depth(stack)
    ensures k < |stack| && stack[k].KTry? ==> Depth(stack[..k]) < Depth(stack)
  {
    if k == |stack| {
      assert stack[..k] == stack;
    } else {
      assert Init(stack)[..k] == stack[..k];
      DepthPrefix(Init(stack), k);
    }
  }

  lemma {:induction false} AtOf(stack: Stack, p: Ptr)
    requires IsFrame(stack, p)
    ensures At(stack, Depth(stack[..p])) == p
  {
    if p == |stack| - 1 {
      assert stack[..p] == Init(stack);
    } else {
      AtOf(Init(stack), p);
      assert Init(stack)[..p] == stack[..p];
      DepthPrefix(Init(stack), p);
    }
  }

  lemma {:induction false} AtBounds(stack: Stack, d: nat)
    ensures -1 <= At(stack, d) < |stack|
    ensures At(stack, d) >= 0 <==> d < Depth(stack)
    ensures At(stack, d) >= 0 ==> stack[At(stack, d)].KTry? && Depth(stack[..At(stack, d)]) == d
  {
    if stack != [] {
      AtBounds(Init(stack), d);
      if Last(stack).KTry? && Depth(Init(stack)) == d {
        assert stack[..|stack| - 1] == Init(stack);
      } else if At(Init(stack), d) >= 0 {
        assert Init(stack)[..At(stack, d)] == stack[..At(stack, d)];
      }
    }
  }

  // ----- traces only grow -----

  predicate Extends(a: St, b: St) {
    a.trace <= b.trace && (b.clean ==> a.clean)
  }

  lemma {:induction false} AskExtends(env: Env, kind: Kind, code: int, gs: seq<Guard>, st: St)
    ensures Extends(st, Ask(env, kind, code, gs, st).st)
    decreases |gs|
  {
    if gs != [] {
      var d := |gs| - 1;
      if !Hears(env, kind, gs[d]) {
        AskExtends(env, kind, code, gs[..d], st);
      } else if gs[d].handling {
        AskExtends(env, kind, code, gs[..d], st.(clean := false));
      } else {
        var answer := Verdict(env, gs[d].clause, code, st.trace);
        AskExtends(env, kind, code, gs[..d], st.Emit(Asked(d, code, answer)));
      }
    }
  }

  lemma {:induction false} RunExtends(env: Env, s: Stmt, gs: seq<Guard>, st: St)
    ensures Extends(st, Run(env, s, gs, st).st)
    decreases s, 1
  {
    match s
    case Raise(kind, code) => AskExtends(env, kind, code, gs, st);
    case Seq(a, b) =>
      RunExtends(env, a, gs, st);
      RunExtends(env, b, gs, Run(env, a, gs, st).st);
    case Choice(id, a, b) =>
      RunExtends(env, a, gs, st);
      RunExtends(env, b, gs, st);
    case OS2Call(id, callee) =>
      RunExtends(env, callee, gs, st.(fs := OS2_SEL).Emit(Native(id, OS2_SEL)));
    case Traced(name, callee) =>
      RunExtends(env, callee, gs, st.(calls := st.calls + [name]).Emit(FnEnter(name)));
    case Try(body, clause, handler) =>
      var g := Guard(clause, LiveAt(env, st.fs), false);
      RunExtends(env, body, gs + [g], st.Emit(Enter(|gs|)));
      RunHandlerExtends(env, s, gs, st.fs, Run(env, body, gs + [g], st.Emit(Enter(|gs|))).st);
    case _ =>
  }

  lemma {:induction false} RunHandlerExtends(env: Env, s: Stmt, gs: seq<Guard>, entryFs: Selector, st: St)
    requires s.Try?
    ensures Extends(st, RunHandler(env, s, gs, entryFs, st).st)
    decreases s, 0
  {
    var g := Guard(s.clause, LiveAt(env, entryFs), true);
    RunExtends(env, s.handler, gs + [g], st.Emit(Handling(|gs|)));
  }

  lemma DiffersExtends(a: Trace, b: Trace, b': Trace)
    requires Differs(a, b) && b <= b'
    ensures Differs(a, b')
  {
  }

  lemma DiffersAt(a: Trace, b: Trace, t: Trace, e: Event)
    requires a == t + [e] && t <= b && |t| < |b| && b[|t|] != e
    ensures Differs(a, b)
  {
    assert a[|t|] != b[|t|];
  }

  // ----- who takes an exception -----

  /** What a search records next: a guard further out is asked, or nobody. */
  lemma {:induction false} AskNext(env: Env, kind: Kind, code: int, gs: seq<Guard>, st: St)
    ensures var t := Ask(env, kind, code, gs, st).st.trace;
      && st.trace <= t && |st.trace| < |t|
      && (t[|st.trace|].Escaped? || (t[|st.trace|].Asked? && t[|st.trace|].depth < |gs|))
    decreases |gs|
  {
    if gs != [] {
      var d := |gs| - 1;
      if !Hears(env, kind, gs[d]) {
        AskNext(env, kind, code, gs[..d], st);
      } else if gs[d].handling {
        AskNext(env, kind, code, gs[..d], st.(clean := false));
      } else {
        var answer := Verdict(env, gs[d].clause, code, st.trace);
        AskExtends(env, kind, code, gs[..d], st.Emit(Asked(d, code, answer)));
      }
    }
  }

  lemma {:induction false} AskUnclean(env: Env, kind: Kind, code: int, gs: seq<Guard>, st: St)
    requires !st.clean
    ensures !Ask(env, kind, code, gs, st).st.clean
  {
    AskExtends(env, kind, code, gs, st);
  }

  lemma {:induction false} AskCaught(env: Env, kind: Kind, code: int, gs: seq<Guard>, st: St)
    ensures var r := Ask(env, kind, code, gs, st);
      && !r.out.Left?
      && (r.out.Caught? ==> r.out.depth < |gs| && !gs[r.out.depth].handling && Hears(env, kind, gs[r.out.depth]))
    decreases |gs|
  {
    if gs != [] {
      var d := |gs| - 1;
      if !Hears(env, kind, gs[d]) {
        AskCaught(env, kind, code, gs[..d], st);
      } else if gs[d].handling {
        AskCaught(env, kind, code, gs[..d], st.(clean := false));
      } else {
        var answer := Verdict(env, gs[d].clause, code, st.trace);
        AskCaught(env, kind, code, gs[..d], st.Emit(Asked(d, code, answer)));
      }
    }
  }

  /** FS while an exception is dispatched. */
  function SearchFs(env: Env, why: Dispatch): Selector {
    if why.kind.Software? then why.fs
    else if env.variant.Win32Tib? then env.tebSel else OS2_SEL
  }

  /** The frame of a slot hears an exception exactly if its guard does. */
  lemma HearsIsOnChain(env: Env, stack: Stack, p: Ptr, kind: Kind)
    requires env.Valid() && Shape(env, stack) && IsFrame(stack, p)
    ensures OnChain(env, stack[p], ChainOf(env, kind)) <==> Hears(env, kind, GuardOf(env, stack[p]))
  {
    FrameAt(env, stack, p);
  }

  /** A frame after its filter has answered. */
  function AskedFrame(f: Frame, code: int, answer: int): Frame {
    f.(prev := NextLink(f), record := code, state := 1, filterResult := answer)
  }

  function Answer(env: Env, m: Mach, why: Dispatch, p: Ptr): int
    requires IsFrame(m.stack, p)
  {
    Verdict(env, m.stack[p].clause, why.code, m.trace)
  }

  function AskedEvent(env: Env, m: Mach, why: Dispatch, p: Ptr): Event
    requires IsFrame(m.stack, p)
  {
    Asked(Depth(m.stack[..p]), why.code, Answer(env, m, why, p))
  }

  /** The search is at a frame whose handler will ask its filter. */
  predicate Asks(env: Env, m: Mach, why: Dispatch, p: Ptr) {
    && m.ctl == Search(why, p) && IsFrame(m.stack, p)
    && Cells(m.stack[p].frame.esp) == p + 1 && m.stack[p].frame.context.None?
    && (m.stack[p].frame.Win32Frame? ==> m.fs != OS2_SEL)
  }

  /** Two steps ask the frame `p`: its filter runs at its own stack level while the stack
      above is put aside, and the event is on record. */
  lemma AskFrame(env: Env, m: Mach, why: Dispatch, p: Ptr)
    requires Asks(env, m, why, p)
    ensures Step(env, m).ctl == Loop
    ensures var f := AskedFrame(m.stack[p].frame, why.code, Answer(env, m, why, p));
      Step(env, Step(env, m)) ==
        m.(stack := m.stack[..p] + [m.stack[p].(frame := f.(context := Some(Context(m.stack[p + 1..], why))))])
         .Emit(AskedEvent(env, m, why, p)).Go(Callback)
  {
    var f := m.stack[p].frame;
    var f1 := f.(prev := NextLink(f), record := why.code, state := 1, context := Some(Context(m.stack[p + 1..], why)));
    var m1 := m.(stack := m.stack[..p] + [m.stack[p].(frame := f1)]).Go(Loop);
    assert Step(env, m).stack == m1.stack;
    assert Step(env, m) == m1;
    assert Init(m1.stack) == m.stack[..p];
    assert Step(env, m1).stack == m.stack[..p] + [m.stack[p].(frame := f1.(filterResult := Answer(env, m, why, p)))];
  }

  lemma ThreeSteps(env: Env, m: Mach)
    ensures Steps(env, 1, m) == Step(env, m)
    ensures Steps(env, 2, m) == Step(env, Step(env, m))
    ensures Steps(env, 3, m) == Step(env, Step(env, Step(env, m)))
  {
    assert Steps(env, 1, m) == Steps(env, 0, Step(env, m));
    assert Steps(env, 2, m) == Steps(env, 1, Step(env, m));
    assert Steps(env, 3, m) == Steps(env, 2, Step(env, m));
    assert Steps(env, 2, Step(env, m)) == Steps(env, 1, Step(env, Step(env, m)));
  }

  /** The machine right after a frame has answered and its handler has the stack back. */
  function Restored(env: Env, m: Mach, why: Dispatch, p: Ptr): Mach
    requires IsFrame(m.stack, p)
  {
    var f := AskedFrame(m.stack[p].frame, why.code, Answer(env, m, why, p));
    m.(stack := SetFrame(m.stack, p, f)).Emit(AskedEvent(env, m, why, p)).Go(Callback)
  }

  /** The third step acts on the answer: 1 takes the exception, -1 resumes with the frame
      back in state 0, anything else goes on to the next outer frame. */
  lemma AnswerFrame(env: Env, m: Mach, why: Dispatch, p: Ptr)
    requires Asks(env, m, why, p)
    ensures var r := Restored(env, m, why, p);
      Steps(env, 3, m) ==
        if Answer(env, m, why, p) == EXECUTE_HANDLER then Accept(env, r, p)
        else if Answer(env, m, why, p) == CONTINUE_EXECUTION then
          r.(stack := SetFrame(r.stack, p, r.stack[p].frame.(state := 0)), fs := why.fs).Go(Return)
        else r.Go(Search(why, NextLink(m.stack[p].frame)))
  {
    AskFrame(env, m, why, p);
    ThreeSteps(env, m);
    var m2 := Step(env, Step(env, m));
    var r := Restored(env, m, why, p);
    var f := Last(m2.stack).frame;
    assert SetFrame(m2.stack, p, f.(context := None)) + f.context.value.cells == r.stack;
  }

  lemma AskedIsAlike(m: Mach, p: Ptr, f: Frame)
    requires IsFrame(m.stack, p) && m.stack[p].at.InBody?
    requires Core(m.stack[p].(frame := f)) == Core(m.stack[p])
    ensures Alike(m.stack, SetFrame(m.stack, p, f))
  {
  }

  lemma InvShape(env: Env, m: Mach)
    requires Inv(env, m) && !m.ctl.Loop? && !m.ctl.Callback?
    ensures Shape(env, m.stack) && HeadsOk(env, m.stack, m.heads)
  {
  }

  lemma InvStates(env: Env, m: Mach)
    requires Inv(env, m) && !m.ctl.Loop? && !m.ctl.Callback?
    ensures Fns(m.stack) <= |m.calls|
    ensures forall i :: 0 <= i < |m.stack| && m.stack[i].KTry? ==> 0 <= m.stack[i].frame.state <= 2
  {
    assert Whole(m) == m.stack;
  }

  /** A machine at label 0 of frame `p` in state 2, the cells below as they were. */
  lemma AtLoopLands(stack: Stack, p: Ptr, m: Mach)
    requires IsFrame(stack, p) && stack[p].at.InBody?
    requires m.ctl == Loop && !InFilter(m) && m.AtTry() && Last(m.stack).frame.state == 2
    requires Same(stack[..p + 1], m.stack) && m.stack[..p] == stack[..p] && Last(m.stack).at.InBody?
    ensures LandsCaught(stack, Depth(stack[..p]), m)
  {
    AtOf(stack, p);
    assert forall i :: 0 <= i < p ==> m.stack[i] == stack[i];
  }

  /** Taking the exception lands in the loop of frame `p`. */
  lemma AcceptLands(env: Env, m: Mach, why: Dispatch, p: Ptr)
    requires env.Valid() && Inv(env, m) && Asks(env, m, why, p) && OnChain(env, m.stack[p], ChainOf(env, why.kind))
    requires m.stack[p].at.InBody? && Answer(env, m, why, p) == EXECUTE_HANDLER
    ensures var m' := Steps(env, 3, m);
      && LandsCaught(m.stack, Depth(m.stack[..p]), m')
      && (m'.fs, m'.calls) == (m.fs, m.calls)
      && m'.trace == m.trace + [AskedEvent(env, m, why, p)]
  {
    hide Inv, HeadsOk, Steps, Shape, Alike, Accept, Fns;
    AnswerFrame(env, m, why, p);
    var r := Restored(env, m, why, p);
    InvShape(env, m);
    InvStates(env, m);
    SlotKeeps(env, m.stack, p, r.stack[p], m.heads);
    AcceptKeeps(env, r, why.kind, p);
    AtLoopLands(r.stack, p, Accept(env, r, p));
    LandsMoves(m.stack, r.stack, p, Accept(env, r, p));
  }

  lemma LandsMoves(a: Stack, b: Stack, p: Ptr, m: Mach)
    requires IsFrame(a, p) && Same(a, b) && b == a[p := b[p]] && b[p].KTry? && a[p].at == b[p].at == InBody
    requires LandsCaught(b, Depth(b[..p]), m)
    ensures LandsCaught(a, Depth(a[..p]), m)
  {
    assert a[..p] == b[..p];
    AtOf(a, p);
    AtOf(b, p);
    assert Alike(a, b);
    AlikePrefix(a, b, p + 1);
    AlikeTrans(a[..p + 1], b[..p + 1], m.stack);
  }

  lemma GuardsSplit(env: Env, stack: Stack, q: nat)
    requires 0 < q <= |stack|
    ensures Guards(env, stack[..q]) ==
      Guards(env, stack[..q - 1]) + if stack[q - 1].KTry? then [GuardOf(env, stack[q - 1])] else []
    ensures forall c :: Top(env, stack[..q], c) ==
                          (if OnChain(env, stack[q - 1], c) then q - 1 else Top(env, stack[..q - 1], c))
  {
    assert Init(stack[..q]) == stack[..q - 1] && Last(stack[..q]) == stack[q - 1];
  }

  predicate AskSimulated(env: Env, m: Mach, why: Dispatch, q: nat, m': Mach)
    requires q <= |m.stack|
  {
    var r := AskFrom(env, m, why, q);
    if r.st.clean then Lands(env, m.stack, r, m') else Differs(m'.trace, r.st.trace)
  }

  function AskFrom(env: Env, m: Mach, why: Dispatch, q: nat): Res
    requires q <= |m.stack|
  {
    Ask(env, why.kind, why.code, Guards(env, m.stack[..q]), St(m.trace, why.fs, m.calls, true))
  }

  /** A slot that is not on the search's chain makes no difference to Ask. */
  lemma AskSkips(env: Env, m: Mach, why: Dispatch, q: nat)
    requires env.Valid() && Shape(env, m.stack) && 0 < q <= |m.stack|
    requires !OnChain(env, m.stack[q - 1], ChainOf(env, why.kind))
    ensures AskFrom(env, m, why, q) == AskFrom(env, m, why, q - 1)
  {
    GuardsSplit(env, m.stack, q);
    var gs := Guards(env, m.stack[..q]);
    if m.stack[q - 1].KTry? {
      assert gs[..|gs| - 1] == Guards(env, m.stack[..q - 1]);
      HearsIsOnChain(env, m.stack, q - 1, why.kind);
    } else {
      assert gs == Guards(env, m.stack[..q - 1]);
    }
  }

  /** One that is on it is asked. */
  lemma AskHere(env: Env, m: Mach, why: Dispatch, p: Ptr)
    requires env.Valid() && Shape(env, m.stack) && IsFrame(m.stack, p)
    requires OnChain(env, m.stack[p], ChainOf(env, why.kind))
    ensures var st := St(m.trace, why.fs, m.calls, true);
      var gs := Guards(env, m.stack[..p]);
      var asked := st.Emit(AskedEvent(env, m, why, p));
      AskFrom(env, m, why, p + 1) ==
        if m.stack[p].at.InHandler? then Ask(env, why.kind, why.code, gs, st.(clean := false))
        else if Answer(env, m, why, p) == EXECUTE_HANDLER then
          Res(Caught(Depth(m.stack[..p])), asked.(fs := CaughtFs(env, why.kind, why.fs)))
        else if Answer(env, m, why, p) == CONTINUE_EXECUTION then Res(Normal, asked)
        else Ask(env, why.kind, why.code, gs, asked)
  {
    GuardsSplit(env, m.stack, p + 1);
    HearsIsOnChain(env, m.stack, p, why.kind);
    var gs := Guards(env, m.stack[..p + 1]);
    assert gs[..|gs| - 1] == Guards(env, m.stack[..p]);
  }

  lemma SimAskTaken(env: Env, m: Mach, why: Dispatch, p: Ptr)
    requires env.Valid() && Inv(env, m) && Asks(env, m, why, p) && m.fs == SearchFs(env, why)
    requires m.stack[p].at.InBody? && OnChain(env, m.stack[p], ChainOf(env, why.kind))
    requires Answer(env, m, why, p) == EXECUTE_HANDLER
    ensures AskSimulated(env, m, why, p + 1, Steps(env, 3, m)) && AskFrom(env, m, why, p + 1).out.Caught?
  {
    var r := AskFrom(env, m, why, p + 1);
    assert r.out == Caught(Depth(m.stack[..p])) && r.st.fs == m.fs && r.st.calls == m.calls &&
      r.st.trace == m.trace + [AskedEvent(env, m, why, p)] && r.st.clean by {
      AskHere(env, m, why, p);
      FrameAt(env, m.stack, p);
    }
    AcceptLands(env, m, why, p);
  }

  lemma SimAskResumed(env: Env, m: Mach, why: Dispatch, p: Ptr)
    requires env.Valid() && Inv(env, m) && Asks(env, m, why, p)
    requires m.stack[p].at.InBody? && OnChain(env, m.stack[p], ChainOf(env, why.kind))
    requires Answer(env, m, why, p) == CONTINUE_EXECUTION
    ensures AskSimulated(env, m, why, p + 1, Steps(env, 3, m))
    ensures Steps(env, 3, m).heads == m.heads
  {
    AnswerFrame(env, m, why, p);
    AskedIsAlike(m, p, Steps(env, 3, m).stack[p].frame);
    AskHere(env, m, why, p);
  }

  /** The dispatcher's walk does what Ask says, down from stack level `q`. */
  lemma {:induction false} SimAsk(env: Env, m: Mach, why: Dispatch, q: nat) returns (n: nat)
    requires env.Valid() && Inv(env, m) && q <= |m.stack|
    requires m.ctl == Search(why, Top(env, m.stack[..q], ChainOf(env, why.kind)))
    requires m.fs == SearchFs(env, why)
    requires env.variant.Win32Tib? && m.fs == OS2_SEL ==> !IsFrame(m.stack, m.ctl.at)
    ensures AskSimulated(env, m, why, q, Steps(env, n, m))
    ensures var r := AskFrom(env, m, why, q); r.st.clean && r.out.Normal? ==> Steps(env, n, m).heads == m.heads
    decreases q, 1
  {
    var p := q - 1;
    if q == 0 {
      n := 1;
      ThreeSteps(env, m);
      assert m.stack[..0] == [];
    } else {
      GuardsSplit(env, m.stack, q);
      if !OnChain(env, m.stack[p], ChainOf(env, why.kind)) {
        n := SimAsk(env, m, why, p);
        AskSkips(env, m, why, q);
      } else {
        FrameAt(env, m.stack, p);
        if m.stack[p].at.InHandler? {
          n := SimAskHandling(env, m, why, p);
        } else if Answer(env, m, why, p) == EXECUTE_HANDLER {
          n := 3;
          SimAskTaken(env, m, why, p);
        } else if Answer(env, m, why, p) == CONTINUE_EXECUTION {
          n := 3;
          SimAskResumed(env, m, why, p);
        } else {
          n := SimAskPassed(env, m, why, p);
        }
      }
    }
  }

  /** The frame `p` has let the exception pass: the walk goes on below it. */
  lemma {:induction false} SimAskPassed(env: Env, m: Mach, why: Dispatch, p: Ptr) returns (n: nat)
    requires env.Valid() && Inv(env, m) && Asks(env, m, why, p)
    requires m.fs == SearchFs(env, why)
    requires m.stack[p].at.InBody? && OnChain(env, m.stack[p], ChainOf(env, why.kind))
    requires Answer(env, m, why, p) != EXECUTE_HANDLER && Answer(env, m, why, p) != CONTINUE_EXECUTION
    ensures AskSimulated(env, m, why, p + 1, Steps(env, n, m))
    ensures var r := AskFrom(env, m, why, p + 1); r.st.clean && r.out.Normal? ==> Steps(env, n, m).heads == m.heads
    decreases p + 1, 0
  {
    hide Inv, Alike, Same, Lands, Guards;
    InvShape(env, m);
    var m3 := Steps(env, 3, m);
    AnswerFrame(env, m, why, p);
    StepsKeepInv(env, 3, m);
    FrameAt(env, m.stack, p);
    AskedIsAlike(m, p, m3.stack[p].frame);
    assert m3.stack[..p] == m.stack[..p];
    var k := SimAsk(env, m3, why, p);
    n := 3 + k;
    StepsAdd(env, 3, k, m);
    AskHere(env, m, why, p);
    var r := AskFrom(env, m3, why, p);
    if r.st.clean { LandsAlike(env, m.stack, m3.stack, r, Steps(env, n, m)); }
  }

  /** A frame whose handler block is running is asked all the same. */
  lemma SimAskHandling(env: Env, m: Mach, why: Dispatch, p: Ptr) returns (n: nat)
    requires env.Valid() && Inv(env, m) && Asks(env, m, why, p)
    requires m.stack[p].at.InHandler? && OnChain(env, m.stack[p], ChainOf(env, why.kind))
    ensures AskSimulated(env, m, why, p + 1, Steps(env, n, m))
    ensures !AskFrom(env, m, why, p + 1).st.clean
  {
    var st := St(m.trace, why.fs, m.calls, false);
    var gs := Guards(env, m.stack[..p]);
    n := 2;
    ThreeSteps(env, m);
    AskFrame(env, m, why, p);
    AskHere(env, m, why, p);
    AskUnclean(env, why.kind, why.code, gs, st);
    AskNext(env, why.kind, why.code, gs, st);
    DiffersAt(Steps(env, 2, m).trace, AskFrom(env, m, why, p + 1).st.trace, m.trace, AskedEvent(env, m, why, p));
  }

  lemma LandsAlike(env: Env, a: Stack, b: Stack, r: Res, m: Mach)
    requires Alike(a, b) && Lands(env, b, r, m)
    ensures Lands(env, a, r, m)
  {
    match r.out
    case Normal => AlikeTrans(a, b, m.stack);
    case Left => AlikeTrans(a, b, m.stack);
    case Caught(d) =>
      AlikeAt(a, b, d);
      var p := At(a, d);
      AlikePrefix(a, b, p + 1);
      AlikeTrans(a[..p + 1], b[..p + 1], m.stack);
    case Gone =>
  }

  // ----- whole programs -----

  /** An exception is only ever taken by a guard that is not handling one already. */
  lemma {:induction false} RunCaught(env: Env, s: Stmt, gs: seq<Guard>, st: St)
    ensures var r := Run(env, s, gs, st);
      r.out.Caught? ==> r.out.depth < |gs| && !gs[r.out.depth].handling && gs[r.out.depth].live
    decreases s, 1
  {
    match s
    case Raise(kind, code) => AskCaught(env, kind, code, gs, st);
    case Seq(a, b) =>
      RunCaught(env, a, gs, st);
      RunCaught(env, b, gs, Run(env, a, gs, st).st);
    case Choice(id, a, b) =>
      RunCaught(env, a, gs, st);
      RunCaught(env, b, gs, st);
    case OS2Call(id, callee) =>
      RunCaught(env, callee, gs, st.(fs := OS2_SEL).Emit(Native(id, OS2_SEL)));
    case Traced(name, callee) =>
      RunCaught(env, callee, gs, st.(calls := st.calls + [name]).Emit(FnEnter(name)));
    case Try(body, clause, handler) =>
      var g := Guard(clause, LiveAt(env, st.fs), false);
      RunCaught(env, body, gs + [g], st.Emit(Enter(|gs|)));
      RunHandlerCaught(env, s, gs, st.fs, Run(env, body, gs + [g], st.Emit(Enter(|gs|))).st);
    case _ =>
  }

  lemma {:induction false} RunHandlerCaught(env: Env, s: Stmt, gs: seq<Guard>, entryFs: Selector, st: St)
    requires s.Try?
    ensures var r := RunHandler(env, s, gs, entryFs, st);
      r.out.Caught? ==> r.out.depth < |gs| && !gs[r.out.depth].handling && gs[r.out.depth].live
    decreases s, 0
  {
    var g := Guard(s.clause, LiveAt(env, entryFs), true);
    RunCaught(env, s.handler, gs + [g], st.Emit(Handling(|gs|)));
  }

  /** Outside a __try of its own function, no clean run ends in a __leave. */
  lemma {:induction false} NoLeft(env: Env, s: Stmt, gs: seq<Guard>, st: St)
    requires WellFormed(s, false)
    ensures var r := Run(env, s, gs, st); r.st.clean ==> !r.out.Left?
  {
    match s
    case Raise(kind, code) => AskCaught(env, kind, code, gs, st);
    case Seq(a, b) =>
      var ra := Run(env, a, gs, st);
      NoLeft(env, a, gs, st);
      NoLeft(env, b, gs, ra.st);
      RunExtends(env, b, gs, ra.st);
    case Choice(id, a, b) =>
      NoLeft(env, a, gs, st);
      NoLeft(env, b, gs, st);
    case OS2Call(id, callee) =>
      NoLeft(env, callee, gs, st.(fs := OS2_SEL).Emit(Native(id, OS2_SEL)));
    case Traced(name, callee) =>
      NoLeft(env, callee, gs, st.(calls := st.calls + [name]).Emit(FnEnter(name)));
    case _ =>
  }

  function RunFrom(env: Env, s: Stmt, m: Mach): Res {
    Run(env, s, Guards(env, m.stack), StOf(m))
  }

  /** `m` has come where the structured run ends; or, when that run is not clean, has
      recorded something else. */
  predicate Follows(env: Env, stack: Stack, r: Res, m: Mach) {
    if r.st.clean then Lands(env, stack, r, m) else Differs(m.trace, r.st.trace)
  }

  lemma PushView(env: Env, stack: Stack, k: Slot)
    ensures Init(stack + [k]) == stack && Last(stack + [k]) == k
    ensures Guards(env, stack + [k]) == Guards(env, stack) + if k.KTry? then [GuardOf(env, k)] else []
    ensures !k.KTry? ==> Guards(env, stack + [k]) == Guards(env, stack)
  {
    assert Init(stack + [k]) == stack;
  }

  lemma PopAlike(stack: Stack, k: Slot, t: Stack)
    requires Alike(stack + [k], t)
    ensures t != [] && Alike(stack, Init(t)) && Core(Last(t)) == Core(k)
    ensures if k.KTry? then Last(t).KTry? && AlikeTry(k, Last(t)) else Last(t) == k
  {
    AlikeInit(stack + [k], t);
    assert Init(stack + [k]) == stack && Last(stack + [k]) == k;
  }

  /** What ends further out than a slot ends there for the stack without the slot too. */
  lemma LandsOuter(env: Env, stack: Stack, k: Slot, r: Res, m: Mach)
    requires Lands(env, stack + [k], r, m)
    requires r.out.Gone? || (r.out.Caught? && r.out.depth < Depth(stack))
    ensures Lands(env, stack, r, m)
  {
    PushView(env, stack, k);
    if r.out.Caught? {
      AtBounds(stack, r.out.depth);
      var p := At(stack, r.out.depth);
      assert At(stack + [k], r.out.depth) == p;
      assert (stack + [k])[..p + 1] == stack[..p + 1];
    }
  }

  lemma {:induction false} Simulate(env: Env, s: Stmt, inTry: bool, m: Mach) returns (n: nat)
    requires env.Valid() && Inv(env, m) && m.ctl == Exec(s) && WellFormed(s, inTry)
    ensures Follows(env, m.stack, RunFrom(env, s, m), Steps(env, n, m))
    decreases s, 3
  {
    hide Inv, Alike, Same;
    ThreeSteps(env, m);
    match s
    case Seq(_, _) => n := SimSeq(env, s, inTry, m);
    case Try(_, _, _) => n := SimTry(env, s, m);
    case OS2Call(_, _) => n := SimOS2Call(env, s, m);
    case Traced(_, _) => n := SimTraced(env, s, m);
    case Raise(_, _) => n := SimRaise(env, s, m);
    case Choice(id, a, b) =>
      StepKeepsInv(env, m);
      var k := Simulate(env, if env.choose(id, m.trace) then a else b, inTry, Step(env, m));
      n := 1 + k;
      StepsAdd(env, 1, k, m);
    case _ =>
      n := 1;
      AlikeRefl(m.stack);
  }

  /** The first step of a raise: the search is at the head of its chain. */
  lemma RaiseStarts(env: Env, m: Mach, kind: Kind, code: int)
    requires env.Valid() && Inv(env, m) && m.ctl == Exec(Raise(kind, code))
    ensures var m' := Step(env, m);
      var why := Dispatch(kind, code, m.fs);
      && Inv(env, m') && Alike(m.stack, m'.stack) && m'.heads == m.heads
      && (m'.trace, m'.calls, m'.fs) == (m.trace, m.calls, SearchFs(env, why))
      && m'.ctl == Search(why, Top(env, m'.stack, ChainOf(env, kind)))
      && Guards(env, m'.stack) == Guards(env, m.stack)
      && (AnyHears(env, kind, Guards(env, m.stack)) <==> IsFrame(m'.stack, m'.ctl.at))
  {
    var m' := Step(env, m);
    RaiseKeeps(env, m, kind, code);
    WalkIsSame(m.stack, Head(m.heads, OS2_SEL));
    AlikeView(env, m.stack, m'.stack);
    SameTop(env, m.stack, m'.stack, ChainOf(env, kind));
    InvShape(env, m');
    AnyHearsIsTop(env, m'.stack, kind);
  }

  lemma SimRaise(env: Env, s: Stmt, m: Mach) returns (n: nat)
    requires env.Valid() && Inv(env, m) && m.ctl == Exec(s) && s.Raise?
    ensures Follows(env, m.stack, RunFrom(env, s, m), Steps(env, n, m))
    ensures var r := RunFrom(env, s, m); r.st.clean && r.out.Normal? ==> Steps(env, n, m).heads == m.heads
  {
    hide Inv, Alike, Same;
    var why := Dispatch(s.kind, s.code, m.fs);
    var m1 := Step(env, m);
    RaiseStarts(env, m, s.kind, s.code);
    ThreeSteps(env, m);
    if Swallowed(env, s.kind, Guards(env, m.stack), m.fs) {
      n := 2;
      InvShape(env, m1);
      SwallowStep(env, m1, why, m1.ctl.at);
      AlikeTrans(m.stack, m1.stack, Step(env, m1).stack);
    } else {
      assert m1.stack[..|m1.stack|] == m1.stack;
      var k := SimAsk(env, m1, why, |m1.stack|);
      n := 1 + k;
      StepsAdd(env, 1, k, m);
      var r := RunFrom(env, s, m);
      assert r == AskFrom(env, m1, why, |m1.stack|);
      if r.st.clean { LandsAlike(env, m.stack, m1.stack, r, Steps(env, n, m)); }
    }
  }

  /** With FS on the OS/2 selector, the first frame's handler ends the search at once. */
  lemma SwallowStep(env: Env, m: Mach, why: Dispatch, p: Ptr)
    requires env.variant.Win32Tib? && Shape(env, m.stack)
    requires m.ctl == Search(why, p) && IsFrame(m.stack, p) && m.fs == 0x150b
    ensures var m' := Step(env, m);
      m'.ctl == Return && Alike(m.stack, m'.stack) && StOf(m') == StOf(m) && m'.heads == m.heads
    ensures OnChain(env, m.stack[p], Os2Chain)
    ensures Step(env, m).stack ==
      m.stack[p := m.stack[p].(frame := m.stack[p].frame.(prev := Top(env, m.stack[..p], Os2Chain)))]
  {
    FrameAt(env, m.stack, p);
  }

  /** A guard hears the exception exactly if the search's chain starts at a frame. */
  lemma {:induction false} AnyHearsIsTop(env: Env, stack: Stack, kind: Kind)
    requires env.Valid() && Shape(env, stack)
    ensures AnyHears(env, kind, Guards(env, stack)) <==> IsFrame(stack, Top(env, stack, ChainOf(env, kind)))
  {
    var c := ChainOf(env, kind);
    if stack != [] {
      var k := Last(stack);
      var gs := Guards(env, Init(stack));
      AnyHearsIsTop(env, Init(stack), kind);
      TopIsOnChain(env, stack, c);
      TopIsOnChain(env, Init(stack), c);
      if k.KTry? {
        HearsIsOnChain(env, stack, |stack| - 1, kind);
        var all := Guards(env, stack);
        assert all[|gs|] == GuardOf(env, k);
        assert all == gs + [GuardOf(env, k)];
        assert forall i :: 0 <= i < |gs| ==> all[i] == gs[i];
      } else {
        assert Guards(env, stack) == gs;
      }
    }
  }

  lemma SimSeq(env: Env, s: Stmt, inTry: bool, m: Mach) returns (n: nat)
    requires env.Valid() && Inv(env, m) && m.ctl == Exec(s) && s.Seq? && WellFormed(s, inTry)
    ensures Follows(env, m.stack, RunFrom(env, s, m), Steps(env, n, m))
    decreases s, 1
  {
    hide Inv, Alike, Same, Guards, Steps, RunHandler, Ask;
    var Seq(a, b) := s;
    var gs := Guards(env, m.stack);
    var k := KSeq(b);
    var m1 := Step(env, m);
    ThreeSteps(env, m);
    StepKeepsInv(env, m);
    PushView(env, m.stack, k);
    var n1 := Simulate(env, a, inTry, m1);
    var ra := RunFrom(env, a, m1);
    var m2 := Steps(env, n1, m1);
    StepsAdd(env, 1, n1, m);
    StepsKeepInv(env, n1, m1);
    n := 1 + n1;
    if !ra.st.clean {
      RunExtends(env, b, gs, ra.st);
    } else if ra.out.Normal? {
      var n3 := SimRest(env, b, inTry, m.stack, m2);
      StepsAdd(env, n, n3, m);
      n := n + n3;
    } else if ra.out.Left? {
      PopAlike(m.stack, k, m2.stack);
      ThreeSteps(env, m2);
      StepsAdd(env, n, 1, m);
      n := n + 1;
    } else {
      RunCaught(env, a, gs, StOf(m));
      LandsOuter(env, m.stack, k, ra, m2);
    }
  }

  /** The second half of a sequence, popped from the stack. */
  lemma {:induction false} SimRest(env: Env, s: Stmt, inTry: bool, stack: Stack, m: Mach) returns (n: nat)
    requires env.Valid() && Inv(env, m) && m.ctl == Return && WellFormed(s, inTry)
    requires Alike(stack + [KSeq(s)], m.stack)
    ensures Follows(env, stack, Run(env, s, Guards(env, stack), StOf(m)), Steps(env, n, m))
    decreases s, 4
  {
    hide Inv, Alike, Same, Guards, Steps, Run, Lands;
    PopAlike(stack, KSeq(s), m.stack);
    var m1 := Step(env, m);
    ThreeSteps(env, m);
    StepKeepsInv(env, m);
    AlikeView(env, stack, m1.stack);
    var k := Simulate(env, s, inTry, m1);
    StepsAdd(env, 1, k, m);
    n := 1 + k;
    var r := RunFrom(env, s, m1);
    if r.st.clean { LandsAlike(env, stack, m1.stack, r, Steps(env, n, m)); }
  }

  lemma SimOS2Call(env: Env, s: Stmt, m: Mach) returns (n: nat)
    requires env.Valid() && Inv(env, m) && m.ctl == Exec(s) && s.OS2Call? && WellFormed(s, false)
    ensures Follows(env, m.stack, RunFrom(env, s, m), Steps(env, n, m))
    decreases s, 1
  {
    hide Inv, Alike, Same;
    var gs := Guards(env, m.stack);
    SelectorSurvivesShort(m.fs);
    var k := KWrap(s.id, m.fs, |m.trace|);
    var m1 := Step(env, m);
    ThreeSteps(env, m);
    StepKeepsInv(env, m);
    PushView(env, m.stack, k);
    var n1 := Simulate(env, s.callee, false, m1);
    var r := RunFrom(env, s.callee, m1);
    var m2 := Steps(env, n1, m1);
    StepsAdd(env, 1, n1, m);
    n := 1 + n1;
    NoLeft(env, s.callee, gs, StOf(m1));
    if r.st.clean && r.out.Normal? {
      PopAlike(m.stack, k, m2.stack);
      ThreeSteps(env, m2);
      StepsAdd(env, n, 1, m);
      n := n + 1;
    } else if r.st.clean {
      RunCaught(env, s.callee, gs, StOf(m1));
      LandsOuter(env, m.stack, k, r, m2);
    }
  }

  /** A pending instrumented call still has an entry on the call trace to pop. */
  lemma CallsPending(env: Env, m: Mach)
    requires Inv(env, m) && m.ctl == Return && m.stack != [] && Last(m.stack).KFn?
    ensures m.calls != []
  {
    assert Whole(m) == m.stack;
  }

  lemma SimTraced(env: Env, s: Stmt, m: Mach) returns (n: nat)
    requires env.Valid() && Inv(env, m) && m.ctl == Exec(s) && s.Traced? && WellFormed(s, false)
    ensures Follows(env, m.stack, RunFrom(env, s, m), Steps(env, n, m))
    decreases s, 1
  {
    hide Inv, Alike, Same;
    var gs := Guards(env, m.stack);
    var k := KFn(s.name, m.fs, |m.trace|);
    var m1 := Step(env, m);
    ThreeSteps(env, m);
    StepKeepsInv(env, m);
    PushView(env, m.stack, k);
    var n1 := Simulate(env, s.callee, false, m1);
    var r := RunFrom(env, s.callee, m1);
    var m2 := Steps(env, n1, m1);
    StepsAdd(env, 1, n1, m);
    StepsKeepInv(env, n1, m1);
    n := 1 + n1;
    NoLeft(env, s.callee, gs, StOf(m1));
    if !r.st.clean {
      DiffersExtends(m2.trace, r.st.trace, RunFrom(env, s, m).st.trace);
    } else if r.out.Normal? {
      PopAlike(m.stack, k, m2.stack);
      CallsPending(env, m2);
      ThreeSteps(env, m2);
      StepsAdd(env, n, 1, m);
      n := n + 1;
    } else {
      RunCaught(env, s.callee, gs, StOf(m1));
      LandsOuter(env, m.stack, k, r, m2);
    }
  }

  /** The loop stands before the dispatch of its top frame. */
  predicate AtLoop(env: Env, m: Mach, state: int) {
    Inv(env, m) && m.ctl == Loop && !InFilter(m) && m.AtTry() && Last(m.stack).frame.state == state
  }

  /** A __try as it was entered: the stack under its frame, FS, and the head in FS's TIB. */
  datatype Entry = Entry(stack: Stack, fs: Selector, head: Ptr)

  function EntryOf(m: Mach): Entry { Entry(m.stack, m.fs, Head(m.heads, m.fs)) }

  /** The slot of a frame of `s` that was entered as `e` says. */
  predicate SlotOf(env: Env, s: Stmt, e: Entry, k: Slot)
    requires s.Try?
  {
    && k.KTry? && k.clause == s.clause && k.handler == s.handler
    && (env.variant.Win32Tib? <==> k.frame.Win32Frame?)
    && (env.variant.Win32Tib? ==>
          k.frame.win32FS == e.fs && e.head == if e.fs == OS2_SEL then k.frame.prevOs2 else k.frame.prevWin32)
  }

  /** The frame on top belongs to a `s` that was entered as `e` says. */
  predicate RunsTry(env: Env, s: Stmt, e: Entry, m: Mach)
    requires s.Try?
  {
    m.AtTry() && Alike(e.stack, Init(m.stack)) && SlotOf(env, s, e, Last(m.stack))
  }

  /** Follows, and the head cell of the TIB that FS named at entry is as it was. */
  predicate TryFollows(env: Env, e: Entry, r: Res, m: Mach) {
    && Follows(env, e.stack, r, m)
    && (env.variant.Win32Tib? && r.st.clean && r.out.Normal? ==> Head(m.heads, e.fs) == e.head)
  }

  /** The end of a block, or a __leave, comes back to the state loop. */
  lemma BackAtLoop(env: Env, m: Mach)
    requires env.Valid() && Inv(env, m) && (m.ctl == Return || m.ctl == Leaving) && m.AtTry()
    ensures var m' := Step(env, m);
      var k := Last(m.stack);
      var state := if m.ctl == Leaving then 2 else if k.at.InBody? then AfterBody(k.clause) else k.frame.state + 1;
      && AtLoop(env, m', state)
      && Init(m'.stack) == Init(m.stack) && Last(m'.stack) == k.(frame := k.frame.(state := state))
      && StOf(m') == StOf(m)
  {
    BlockEndKeeps(env, m);
    FrameAt(env, m.stack, |m.stack| - 1);
  }

  /** State 3 and the end of the loop. */
  lemma SimClose(env: Env, s: Stmt, e: Entry, m: Mach)
    requires s.Try? && AtLoop(env, m, 3) && RunsTry(env, s, e, m)
    ensures TryFollows(env, e, Res(Normal, Close(env, Depth(e.stack), e.fs, StOf(m))), Steps(env, 2, m))
  {
    ThreeSteps(env, m);
    var m1 := Step(env, m);
    assert Init(m1.stack) == Init(m.stack);
    AlikeView(env, e.stack, Init(m.stack));
  }

  /** State 2 starts the handler block. */
  lemma HandlerStarts(env: Env, m: Mach)
    requires env.Valid() && AtLoop(env, m, 2)
    ensures var m' := Step(env, m);
      var k := Last(m.stack).(at := InHandler);
      && Inv(env, m') && m'.ctl == Exec(k.handler) && m'.stack == Init(m.stack) + [k]
      && StOf(m') == StOf(m).Emit(Handling(Depth(Init(m.stack))))
      && Guards(env, m'.stack) == Guards(env, Init(m.stack)) + [Guard(k.clause, IsLive(env, k.frame), true)]
  {
    StepKeepsInv(env, m);
    PushView(env, Init(m.stack), Last(m.stack).(at := InHandler));
  }

  lemma {:induction false} SimHandler(env: Env, s: Stmt, e: Entry, m: Mach) returns (n: nat)
    requires env.Valid() && s.Try? && WellFormed(s.handler, true)
    requires AtLoop(env, m, 2) && RunsTry(env, s, e, m)
    ensures TryFollows(env, e, RunHandler(env, s, Guards(env, e.stack), e.fs, StOf(m)), Steps(env, n, m))
    decreases s, 0, 0
  {
    hide Inv, Alike, Same;
    var outer := Init(m.stack);
    AlikeView(env, e.stack, outer);
    var k := Last(m.stack).(at := InHandler);
    var m1 := Step(env, m);
    ThreeSteps(env, m);
    HandlerStarts(env, m);
    var n1 := Simulate(env, s.handler, true, m1);
    var h := RunFrom(env, s.handler, m1);
    var m2 := Steps(env, n1, m1);
    StepsAdd(env, 1, n1, m);
    StepsKeepInv(env, n1, m1);
    n := 1 + n1;
    var r := RunHandler(env, s, Guards(env, e.stack), e.fs, StOf(m));
    RunCaught(env, s.handler, Guards(env, m1.stack), StOf(m1));
    if !h.st.clean {
      DiffersExtends(m2.trace, h.st.trace, r.st.trace);
    } else if h.out.Normal? || h.out.Left? {
      var n2 := AfterHandler(env, s, e, outer, k, h, m2);
      StepsAdd(env, n, n2, m);
      n := n + n2;
    } else {
      LandsOuter(env, outer, k, h, m2);
      LandsAlike(env, e.stack, outer, h, m2);
    }
  }

  /** The handler block has ended: the frame is removed, or (for __leave) the block is
      started again, which no structured meaning asks for. */
  lemma AfterHandler(env: Env, s: Stmt, e: Entry, outer: Stack, k: Slot, h: Res, m: Mach) returns (n: nat)
    requires env.Valid() && s.Try? && Inv(env, m) && h.st.clean && (h.out.Normal? || h.out.Left?)
    requires Alike(e.stack, outer) && SlotOf(env, s, e, k) && k.at.InHandler? && k.frame.state == 2
    requires Lands(env, outer + [k], h, m)
    ensures var d := Depth(e.stack);
      TryFollows(env, e, if h.out.Normal? then Res(Normal, Close(env, d, e.fs, h.st))
                         else Res(Left, Close(env, d, e.fs, h.st.(clean := false))), Steps(env, n, m))
  {
    hide Inv, Alike, Same;
    PopAlike(outer, k, m.stack);
    AlikeTrans(e.stack, outer, Init(m.stack));
    if h.out.Normal? {
      ThreeSteps(env, m);
      BackAtLoop(env, m);
      SimClose(env, s, e, Step(env, m));
      StepsAdd(env, 1, 2, m);
      n := 3;
    } else {
      var d := Depth(e.stack);
      LeaveRunsHandler(env, m);
      AlikeView(env, e.stack, Init(m.stack));
      n := 2;
      DiffersAt(Steps(env, 2, m).trace, h.st.trace + [Removed(d)], m.trace, Handling(d));
    }
  }

  /** __leave always runs the handler block of the innermost frame. */
  lemma LeaveRunsHandler(env: Env, m: Mach)
    requires m.ctl == Leaving && m.AtTry()
    ensures var m' := Steps(env, 2, m);
      && m'.trace == m.trace + [Handling(Depth(Init(m.stack)))]
      && m'.ctl == Exec(Last(m.stack).handler)
  {
    ThreeSteps(env, m);
    assert Init(Step(env, m).stack) == Init(m.stack);
  }

  /** Entering a __try comes to its body in two steps. */
  lemma EnterTry(env: Env, s: Stmt, m: Mach)
    requires env.Valid() && Inv(env, m) && m.ctl == Exec(s) && s.Try?
    ensures var m2 := Steps(env, 2, m);
      && Inv(env, m2) && m2.ctl == Exec(s.body)
      && RunsTry(env, s, EntryOf(m), m2) && Init(m2.stack) == m.stack && Last(m2.stack).at.InBody?
      && Guards(env, m2.stack) == Guards(env, m.stack) + [Guard(s.clause, LiveAt(env, m.fs), false)]
      && StOf(m2) == StOf(m).Emit(Enter(Depth(m.stack)))
  {
    ThreeSteps(env, m);
    var m1 := Step(env, m);
    InstallKeeps(env, m, s);
    var k := Last(m1.stack);
    assert m1.stack == m.stack + [k];
    var m2 := Step(env, m1);
    assert m2.stack == m1.stack;
    StepKeepsInv(env, m1);
    assert Alike(m.stack, m.stack);
  }

  lemma SimTry(env: Env, s: Stmt, m: Mach) returns (n: nat)
    requires env.Valid() && Inv(env, m) && m.ctl == Exec(s) && s.Try? && WellFormed(s, false)
    ensures TryFollows(env, EntryOf(m), RunFrom(env, s, m), Steps(env, n, m))
    decreases s, 2
  {
    hide Inv, Alike, Same, RunsTry, Run, RunHandler, Steps, Guards;
    var d := Depth(m.stack);
    var gs := Guards(env, m.stack);
    EnterTry(env, s, m);
    var m2 := Steps(env, 2, m);
    var k := Last(m2.stack);
    assert m2.stack == m.stack + [k];
    var n1 := Simulate(env, s.body, true, m2);
    var rb := RunFrom(env, s.body, m2);
    var m3 := Steps(env, n1, m2);
    StepsAdd(env, 2, n1, m);
    StepsKeepInv(env, n1, m2);
    n := 2 + n1;
    var r := RunFrom(env, s, m);
    RunCaught(env, s.body, Guards(env, m2.stack), StOf(m2));
    TryExtends(env, s, gs, StOf(m));
    if !rb.st.clean {
      DiffersExtends(m3.trace, rb.st.trace, r.st.trace);
    } else if rb.out.Gone? || (rb.out.Caught? && rb.out.depth < d) {
      LandsOuter(env, m.stack, k, rb, m3);
    } else {
      var n4 := SimAfterBody(env, s, m, m2, rb, m3);
      StepsAdd(env, n, n4, m);
      n := n + n4;
    }
  }

  lemma {:induction false} TryExtends(env: Env, s: Stmt, gs: seq<Guard>, st: St)
    requires s.Try?
    ensures var g := Guard(s.clause, LiveAt(env, st.fs), false);
      var rb := Run(env, s.body, gs + [g], st.Emit(Enter(|gs|)));
      && Extends(rb.st, Run(env, s, gs, st).st)
      && (rb.out.Gone? || (rb.out.Caught? && rb.out.depth != |gs|) ==> Run(env, s, gs, st) == rb)
  {
    var g := Guard(s.clause, LiveAt(env, st.fs), false);
    RunHandlerExtends(env, s, gs, st.fs, Run(env, s.body, gs + [g], st.Emit(Enter(|gs|))).st);
  }

  /** What is left to do after the body of a __try that has come back to it. */
  lemma RunTryRest(env: Env, s: Stmt, gs: seq<Guard>, st: St)
    requires s.Try?
    ensures var d := |gs|;
      var rb := Run(env, s.body, gs + [Guard(s.clause, LiveAt(env, st.fs), false)], st.Emit(Enter(d)));
      rb.out.Normal? || rb.out.Left? || rb.out == Caught(d) ==>
        Run(env, s, gs, st) ==
          if rb.out.Caught? || s.clause.Finally? then RunHandler(env, s, gs, st.fs, rb.st)
          else Res(Normal, Close(env, d, st.fs, if rb.out.Left? then rb.st.(clean := false) else rb.st))
  {
    hide RunHandler;
  }

  /** After the body, at `m3`: the loop comes back to the frame. */
  lemma {:induction false} SimAfterBody(env: Env, s: Stmt, m: Mach, m2: Mach, rb: Res, m3: Mach) returns (n: nat)
    requires env.Valid() && s.Try? && WellFormed(s, false) && Inv(env, m3)
    requires m2.AtTry() && Init(m2.stack) == m.stack && Last(m2.stack).at.InBody?
    requires RunsTry(env, s, EntryOf(m), m2) && rb.st.clean && Lands(env, m2.stack, rb, m3)
    requires rb == Run(env, s.body, Guards(env, m.stack) + [Guard(s.clause, LiveAt(env, m.fs), false)],
                       StOf(m).Emit(Enter(Depth(m.stack))))
    requires rb.out.Normal? || rb.out.Left? || (rb.out.Caught? && rb.out.depth == Depth(m.stack))
    ensures TryFollows(env, EntryOf(m), RunFrom(env, s, m), Steps(env, n, m3))
    decreases s, 1
  {
    hide Inv, Alike, Same, Guards, Steps, Run, RunHandler;
    var k := Last(m2.stack);
    assert m2.stack == m.stack + [k];
    RunTryRest(env, s, Guards(env, m.stack), StOf(m));
    if rb.out.Caught? {
      PushView(env, m.stack, k);
      assert m2.stack[..|m2.stack|] == m2.stack;
      PopAlike(m.stack, k, m3.stack);
      n := SimHandler(env, s, EntryOf(m), m3);
    } else {
      PopAlike(m.stack, k, m3.stack);
      n := SimBodyEnd(env, s, EntryOf(m), rb, m3);
    }
  }

  /** The body has ended, or been left. */
  lemma {:induction false} SimBodyEnd(env: Env, s: Stmt, e: Entry, rb: Res, m: Mach) returns (n: nat)
    requires env.Valid() && s.Try? && WellFormed(s.handler, true) && Inv(env, m)
    requires RunsTry(env, s, e, m) && Last(m.stack).at.InBody?
    requires rb.st.clean && StOf(m) == rb.st
    requires (rb.out.Normal? && m.ctl == Return) || (rb.out.Left? && m.ctl == Leaving)
    ensures TryFollows(env, e,
      if s.clause.Finally? then RunHandler(env, s, Guards(env, e.stack), e.fs, rb.st)
      else Res(Normal, Close(env, Depth(e.stack), e.fs, if rb.out.Left? then rb.st.(clean := false) else rb.st)),
      Steps(env, n, m))
    decreases s, 0, 1
  {
    hide Inv, Alike, Same, Guards, Run, RunHandler;
    var m4 := Step(env, m);
    ThreeSteps(env, m);
    BackAtLoop(env, m);
    if s.clause.Finally? {
      var n5 := SimHandler(env, s, e, m4);
      StepsAdd(env, 1, n5, m);
      n := 1 + n5;
    } else if rb.out.Normal? {
      SimClose(env, s, e, m4);
      StepsAdd(env, 1, 2, m);
      n := 3;
    } else {
      var d := Depth(e.stack);
      LeaveRunsHandler(env, m);
      AlikeView(env, e.stack, Init(m.stack));
      n := 2;
      DiffersAt(Steps(env, 2, m).trace, rb.st.trace + [Removed(d)], m.trace, Handling(d));
    }
  }
}
