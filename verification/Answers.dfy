/** What the answers of filters do, in the numbers of include/exceptions.h: 1 takes the exception,
    -1 resumes it, and with 0 or any other the search goes on. */
module Answers {
  import opened Programs
  import opened Machine
  import opened Invariant
  import opened Lowering

  /** The value a frame's handler finds: of the filter expression, evaluated with the exception's
      code and all that is on record; a __finally always claims the exception. */
  function AnswerOf(env: Env, clause: Clause, code: int, trace: Trace): int {
    match clause
    case Except(filter) => env.answer(filter, code, trace)
    case Finally => 1
  }

  /** Any search that comes to a frame and is not swallowed: the three steps from the call of its
      handler to what the handler does with the answer. Throughout, pPrev holds the frame's link
      in the chain that is searched. */
  lemma FrameAnswers(env: Env, m: Mach, why: Dispatch, p: Ptr)
    requires env.Valid() && Inv(env, m) && m.ctl == Search(why, p) && IsFrame(m.stack, p)
    requires env.variant.Win32Tib? ==> m.fs != 0x150b
    ensures var k := m.stack[p];
      var outer := Top(env, m.stack[..p], ChainOf(env, why.kind));
      var answer := AnswerOf(env, k.clause, why.code, m.trace);
      var f := k.frame.(prev := outer, record := why.code, filterResult := answer);
      var m' := Steps(env, 3, m);
      && m'.trace == m.trace + [Asked(Depth(m.stack[..p]), why.code, answer)] && m'.calls == m.calls
      && match answer
         case 1 =>
           && m'.ctl == Loop && m'.fs == m.fs && m'.stack == m.stack[..p] + [k.(frame := f.(state := 2))]
           && m'.heads ==
                (if env.variant.Win32Tib? then m.heads[env.tebSel := p][0x150b := p] else m.heads[0x150b := p])
         case -1 =>
           && m'.ctl == Return && m'.fs == why.fs && m'.stack == m.stack[p := k.(frame := f.(state := 0))]
           && m'.heads == m.heads
         case _ =>
           && m'.ctl == Search(why, outer) && m'.fs == m.fs && m'.stack == m.stack[p := k.(frame := f.(state := 1))]
           && m'.heads == m.heads
  {
    hide HeadsOk, Fns, StatesOk, Depth, Steps;
    FrameAt(env, m.stack, p);
    AnswerFrame(env, m, why, p);
    var r := Restored(env, m, why, p);
    if Answer(env, m, why, p) == 1 { TakenFrame(env, m, why, p); }
  }

  lemma TakenFrame(env: Env, m: Mach, why: Dispatch, p: Ptr)
    requires env.Valid() && Inv(env, m) && m.ctl == Search(why, p) && IsFrame(m.stack, p)
    ensures var r := Restored(env, m, why, p);
      var f := r.stack[p].frame;
      var m' := Accept(env, r, p);
      && (m'.ctl, m'.fs, m'.trace, m'.calls) == (Loop, r.fs, r.trace, r.calls)
      && m'.stack == m.stack[..p] + [m.stack[p].(frame := f.(prev := NextLink(f), state := 2))]
      && m'.heads == (if env.variant.Win32Tib? then m.heads[env.tebSel := p][0x150b := p] else m.heads[0x150b := p])
  {
    hide Fns, StatesOk, Depth, RtlUnwind, Accept, Verdict;
    FrameAt(env, m.stack, p);
    var r := Restored(env, m, why, p);
    SlotKeeps(env, m.stack, p, r.stack[p], m.heads);
    if env.variant.Win32Tib? {
      assert r.stack[..|r.stack|] == r.stack;
      UnwindReaches(env, r.stack, |r.stack|, p);
    }
    AcceptIs(env, r, p);
    assert r.stack[..p] == m.stack[..p];
  }

  lemma AcceptIs(env: Env, m: Mach, p: Ptr)
    requires IsFrame(m.stack, p) && Cells(m.stack[p].frame.esp) == p + 1
    requires m.stack[p].frame.Win32Frame? ==> RtlUnwind(m.stack, Head(m.heads, env.tebSel), p) == Some(p)
    ensures var f := m.stack[p].frame;
      var m' := Accept(env, m, p);
      && (m'.ctl, m'.fs, m'.trace, m'.calls) == (Loop, m.fs, m.trace, m.calls)
      && m'.stack == m.stack[..p] + [m.stack[p].(frame := f.(prev := NextLink(f), state := 2))]
      && m'.heads == (if f.Win32Frame? then m.heads[env.tebSel := p][0x150b := p] else m.heads[0x150b := p])
  {
    hide RtlUnwind, Head;
    var m' := Accept(env, m, p);
    assert m.stack[..p + 1][..p] == m.stack[..p];
    assert m'.stack == m.stack[..p] + [Last(m'.stack)];
  }

  /** The same from the raise on, for the frame at the head of the chain that is searched: a
      resumed exception returns with FS as it was at the raise, on the same stack cells. */
  lemma RaiseAnswers(env: Env, m: Mach, kind: Kind, code: int)
    requires env.Valid() && Inv(env, m) && m.ctl == Exec(Raise(kind, code))
    requires kind.Software? ==> m.fs != 0x150b
    requires IsFrame(m.stack, Head(m.heads, ChainSel(env, ChainOf(env, kind))))
    ensures var p := Head(m.heads, ChainSel(env, ChainOf(env, kind)));
      var k := m.stack[p];
      var answer := AnswerOf(env, k.clause, code, m.trace);
      var m' := Steps(env, 4, m);
      && m'.trace == m.trace + [Asked(Depth(m.stack[..p]), code, answer)] && m'.calls == m.calls
      && IsFrame(m'.stack, p) && Core(m'.stack[p]) == Core(k) && m'.stack[p].frame.record == code
      && match answer
         case 1 =>
           && m'.ctl == Loop && |m'.stack| == p + 1 && m'.stack[p].frame.state == 2
           && m'.fs == if kind.Software? then m.fs else if env.variant.Win32Tib? then env.tebSel else 0x150b
         case -1 => m'.ctl == Return && Same(m.stack, m'.stack) && m'.stack[p].frame.state == 0 && m'.fs == m.fs
         case _ =>
           && m'.ctl == Search(Dispatch(kind, code, m.fs), Top(env, m.stack[..p], ChainOf(env, kind)))
           && Same(m.stack, m'.stack) && m'.stack[p].frame.state == 1
  {
    hide Inv, Steps, Shape, Core, Same, Alike, Top, HeadsOk, OnChain;
    var c := ChainOf(env, kind);
    var m1 := Step(env, m);
    InvShape(env, m);
    HeadIsTop(env, m.stack, m.heads, c);
    var p := Head(m.heads, ChainSel(env, c));
    RaiseKeeps(env, m, kind, code);
    RaiseStarts(env, m, kind, code);
    InvShape(env, m1);
    SameCell(env, m.stack, m1.stack, p, c);
    AlikePrefix(m.stack, m1.stack, p);
    AlikeDepth(m.stack[..p], m1.stack[..p]);
    FrameAnswers(env, m1, m1.ctl.why, p);
    ChainAt(env, m1, p);
    var f := m1.stack[p].frame.(prev := Top(env, m1.stack[..p], c), record := code);
    forall x, y ensures
      var k := m1.stack[p].(frame := f.(filterResult := x, state := y));
      Core(k) == Core(m.stack[p]) && Same(m.stack, m1.stack[p := k])
    {
      SameSet(env, m.stack, m1.stack, p, c, m1.stack[p].(frame := f.(filterResult := x, state := y)));
    }
    StepsAdd(env, 1, 3, m);
    ThreeSteps(env, m);
  }

  lemma HeadIsTop(env: Env, stack: Stack, heads: Heads, c: Chain)
    requires HeadsOk(env, stack, heads)
    ensures Head(heads, ChainSel(env, c)) == Top(env, stack, c)
  {
  }

  lemma ChainAt(env: Env, m: Mach, p: Ptr)
    requires Inv(env, m) && m.ctl.Search? && m.ctl.at == p && IsFrame(m.stack, p)
    ensures OnChain(env, m.stack[p], ChainOf(env, m.ctl.why.kind))
  {
  }

  lemma SameCell(env: Env, a: Stack, b: Stack, p: Ptr, c: Chain)
    requires Same(a, b) && IsFrame(a, p)
    ensures IsFrame(b, p) && Core(b[p]) == Core(a[p]) && b[p].clause == a[p].clause
    ensures Top(env, b[..p], c) == Top(env, a[..p], c)
  {
    assert Core(a[p]) == Core(b[p]);
    assert Same(a[..p], b[..p]);
    SameTop(env, a[..p], b[..p], c);
  }

  /** What is written into a frame that is asked leaves its links as they are. */
  lemma SameSet(env: Env, a: Stack, b: Stack, p: Ptr, c: Chain, k: Slot)
    requires Same(a, b) && IsFrame(b, p) && Shape(env, b) && OnChain(env, b[p], c) && k.KTry?
    requires k == b[p].(frame := b[p].frame.(prev := Top(env, b[..p], c), record := k.frame.record,
      filterResult := k.frame.filterResult, state := k.frame.state))
    ensures Core(k) == Core(b[p]) && Core(k) == Core(a[p]) && Same(a, b[p := k])
  {
    FrameAt(env, b, p);
    assert Core(a[p]) == Core(b[p]);
  }
}
