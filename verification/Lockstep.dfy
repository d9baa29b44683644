/** The two macro sets of include/excpt.h against each other, on the machine and in every run:
    from the same start they go step by step together for as long as the chains agree where an
    exception looks for a frame, and leave the same record exactly if they always do. */
module Lockstep {
  import opened Selectors
  import opened Programs
  import opened Machine
  import opened Invariant
  import opened Levels
  import opened Lowering
  import opened Correctness

  function Other(env: Env): Env { env.(variant := Os2Only) }

  // ----- two machines in step -----

  /** Frames of the two layouts, but for links and the saved FS. */
  predicate PeerFrame(f: Frame, g: Frame) {
    && f.Win32Frame? && g.Os2Frame?
    && (f.filterResult, f.esp, f.record, f.state) == (g.filterResult, g.esp, g.record, g.state)
  }

  /** The same code pending; wrappers and functions may have saved different selectors. */
  predicate PeerSlot(x: Slot, y: Slot) {
    match x
    case KSeq(_) => x == y
    case KTry(f, clause, body, handler, at) =>
      y.KTry? && (y.clause, y.body, y.handler, y.at) == (clause, body, handler, at) && PeerFrame(f, y.frame)
    case KWrap(id, _, call) => y.KWrap? && y.id == id && y.call == call
    case KFn(name, _, call) => y.KFn? && y.name == name && y.call == call
    case KWord(_) => x == y
  }

  predicate PeerStack(w: Stack, v: Stack) {
    |w| == |v| && forall i :: 0 <= i < |w| ==> PeerSlot(w[i], v[i])
  }

  predicate PeerWhy(x: Dispatch, y: Dispatch) { x.kind == y.kind && x.code == y.code }

  /** Control is at the same place. Only a fault is ever looking for a frame, and it does so
      with FS on the Win32 selector. */
  predicate PeerCtl(env: Env, a: Mach, b: Mach) {
    match a.ctl
    case Search(why, p) =>
      && b.ctl.Search? && PeerWhy(why, b.ctl.why)
      && (p == b.ctl.at || (!IsFrame(a.stack, p) && !IsFrame(b.stack, b.ctl.at)))
      && (IsFrame(a.stack, p) ==> why.kind.Hardware? && a.fs == env.tebSel)
    case _ => b.ctl == a.ctl
  }

  predicate PeerFilter(env: Env, a: Mach, b: Mach) {
    && (InFilter(a) <==> InFilter(b))
    && (InFilter(a) ==>
          var x, y := Last(a.stack).frame.context.value.why, Last(b.stack).frame.context.value.why;
          PeerWhy(x, y) && x.kind.Hardware? && a.fs == env.tebSel)
  }

  /** A state of the Win32-TIB machine and one of the OS/2 machine, alike but for FS, chain
      heads, links and saved selectors. */
  predicate Peers(env: Env, a: Mach, b: Mach) {
    && Inv(env, a) && Inv(Other(env), b)
    && (a.trace, a.calls) == (b.trace, b.calls)
    && |a.stack| == |b.stack| && PeerStack(Whole(a), Whole(b))
    && PeerCtl(env, a, b) && PeerFilter(env, a, b)
  }

  // ----- when they stay in step -----

  /** Both are the same frame, or neither is one. */
  predicate SameFrame(w: Stack, p: Ptr, q: Ptr) {
    IsFrame(w, p) || IsFrame(w, q) ==> p == q
  }

  /** The condition on a state of the Win32-TIB machine. A fault finds the same frame at the
      heads of both chains, or on neither; a frame whose filter lets it pass is linked to the
      same frame in both, or to none; and RaiseException finds no frame. */
  predicate AlignedAt(env: Env, m: Mach) {
    match m.ctl
    case Exec(Raise(Hardware, _)) => SameFrame(m.stack, Head(m.heads, env.tebSel), Head(m.heads, OS2_SEL))
    case Exec(Raise(Software, _)) => !IsFrame(m.stack, Head(m.heads, env.tebSel))
    case Callback =>
      Passes(m) ==> var f := Last(m.stack).frame; f.Win32Frame? ==> SameFrame(m.stack, f.prevWin32, f.prevOs2)
    case _ => true
  }

  // ----- stacks -----

  lemma PeerInit(w: Stack, v: Stack)
    requires PeerStack(w, v) && w != []
    ensures v != [] && PeerStack(Init(w), Init(v)) && PeerSlot(Last(w), Last(v))
  {
    assert PeerSlot(w[|w| - 1], v[|w| - 1]);
  }

  lemma {:induction false} PeerDepth(w: Stack, v: Stack)
    requires PeerStack(w, v)
    ensures Depth(w) == Depth(v)
  {
    if w != [] {
      PeerInit(w, v);
      PeerDepth(Init(w), Init(v));
    }
  }

  /** Every frame of either is on the OS/2 chain. */
  lemma {:induction false} PeerTop(env: Env, w: Stack, v: Stack)
    requires PeerStack(w, v)
    ensures Top(env, w, Os2Chain) == Top(Other(env), v, Os2Chain)
  {
    if w != [] {
      PeerInit(w, v);
      PeerTop(env, Init(w), Init(v));
    }
  }

  lemma PeerPrefix(w: Stack, v: Stack, k: nat)
    requires PeerStack(w, v) && k <= |w|
    ensures PeerStack(w[..k], v[..k])
  {
  }

  lemma PeerPush(w: Stack, v: Stack, x: Slot, y: Slot)
    requires PeerStack(w, v) && PeerSlot(x, y)
    ensures PeerStack(w + [x], v + [y])
  {
  }

  lemma PeerSet(w: Stack, v: Stack, p: nat, x: Slot, y: Slot)
    requires PeerStack(w, v) && p < |w| && PeerSlot(x, y)
    ensures PeerStack(w[p := x], v[p := y])
  {
  }

  lemma PeerAt(w: Stack, v: Stack, p: Ptr)
    requires PeerStack(w, v)
    ensures IsFrame(w, p) <==> IsFrame(v, p)
    ensures IsFrame(w, p) ==> PeerSlot(w[p], v[p])
  {
  }

  // ----- one step -----

  lemma ExecPeers(env: Env, a: Mach, b: Mach, s: Stmt)
    requires env.Valid() && env.variant.Win32Tib? && Peers(env, a, b) && a.ctl == Exec(s) && !s.Raise? && !s.Try?
    ensures Peers(env, Step(env, a), Step(Other(env), b))
  {
    hide Inv, Install, StartSearch, Head, PeerStack;
    var a', b' := Step(env, a), Step(Other(env), b);
    StepKeepsInv(env, a);
    StepKeepsInv(Other(env), b);
    match s
    case Seq(_, y) => PeerPush(a.stack, b.stack, KSeq(y), KSeq(y));
    case OS2Call(_, _) => PeerPush(a.stack, b.stack, Last(a'.stack), Last(b'.stack));
    case Traced(_, _) => PeerPush(a.stack, b.stack, Last(a'.stack), Last(b'.stack));
    case _ =>
  }

  lemma TryPeers(env: Env, a: Mach, b: Mach, s: Stmt)
    requires env.Valid() && env.variant.Win32Tib? && Peers(env, a, b) && a.ctl == Exec(s) && s.Try?
    ensures Peers(env, Step(env, a), Step(Other(env), b))
  {
    hide Inv, StepExec, Head, PeerStack;
    var a', b' := Step(env, a), Step(Other(env), b);
    StepKeepsInv(env, a);
    StepKeepsInv(Other(env), b);
    InstallStep(env, a, s);
    InstallStep(Other(env), b, s);
    PeerPush(a.stack, b.stack, Last(a'.stack), Last(b'.stack));
  }

  lemma RaisePeers(env: Env, a: Mach, b: Mach, kind: Kind, code: int)
    requires env.Valid() && env.variant.Win32Tib? && Peers(env, a, b)
    requires a.ctl == Exec(Raise(kind, code)) && AlignedAt(env, a)
    ensures Peers(env, Step(env, a), Step(Other(env), b))
  {
    hide Inv, Shape;
    var a', b' := Step(env, a), Step(Other(env), b);
    StepKeepsInv(env, a);
    StepKeepsInv(Other(env), b);
    WalkIsPeer(a.stack, b.stack, Head(a.heads, OS2_SEL));
    HeadsArePeers(env, a, b);
    PeerAt(a.stack, b.stack, Head(a.heads, OS2_SEL));
    PeerAt(a'.stack, b'.stack, Head(a.heads, OS2_SEL));
    WalkFrames(a.stack, Head(a.heads, OS2_SEL), Head(a.heads, env.tebSel));
    WalkFrames(a.stack, Head(a.heads, OS2_SEL), Head(a.heads, OS2_SEL));
  }

  lemma WalkIsPeer(w: Stack, v: Stack, p: Ptr)
    requires PeerStack(w, v)
    ensures PeerStack(WalkOs2(w, p), v)
  {
    WalkIsSame(w, p);
    WalkOthers(w, p);
    var r := WalkOs2(w, p);
    forall i | 0 <= i < |w| ensures PeerSlot(r[i], v[i]) {
      assert Core(w[i]) == Core(r[i]) && PeerSlot(w[i], v[i]);
    }
  }

  /** The walk leaves filterResult alone too. */
  lemma {:induction false} WalkOthers(w: Stack, p: Ptr)
    ensures forall i :: 0 <= i < |w| && w[i].KTry? ==>
      WalkOs2(w, p)[i].KTry? && WalkOs2(w, p)[i].frame.filterResult == w[i].frame.filterResult
    decreases p
  {
    if IsFrame(w, p) && w[p].frame.Win32Frame? {
      var f := w[p].frame;
      if f.prevOs2 < p { WalkOthers(SetFrame(w, p, f.(prev := f.prevOs2)), f.prevOs2); }
    }
  }

  lemma WalkFrames(w: Stack, h: Ptr, p: Ptr)
    ensures IsFrame(WalkOs2(w, h), p) <==> IsFrame(w, p)
  {
    WalkIsSame(w, h);
    if 0 <= p < |w| { assert Core(w[p]) == Core(WalkOs2(w, h)[p]); }
  }

  /** What the heads of the two machines have to do with each other. */
  lemma HeadsArePeers(env: Env, a: Mach, b: Mach)
    requires env.Valid() && env.variant.Win32Tib? && Peers(env, a, b) && a.ctl.Exec?
    ensures Head(b.heads, OS2_SEL) == Head(a.heads, OS2_SEL)
    ensures !IsFrame(b.stack, Head(b.heads, env.tebSel))
  {
    InvShape(env, a);
    InvShape(Other(env), b);
    PeerTop(env, a.stack, b.stack);
    NoWin32Chain(Other(env), b.stack);
  }

  lemma ReturnPeers(env: Env, a: Mach, b: Mach)
    requires env.Valid() && env.variant.Win32Tib? && Peers(env, a, b) && (a.ctl == Return || a.ctl == Leaving)
    requires !a.AtTry()
    ensures Peers(env, Step(env, a), Step(Other(env), b))
  {
    hide Inv, PeerStack;
    StepKeepsInv(env, a);
    StepKeepsInv(Other(env), b);
    if a.stack != [] { PeerInit(a.stack, b.stack); }
  }

  /** The end of a body or a block. */
  lemma BlockEndPeers(env: Env, a: Mach, b: Mach)
    requires env.Valid() && env.variant.Win32Tib? && Peers(env, a, b) && (a.ctl == Return || a.ctl == Leaving)
    requires a.AtTry()
    ensures Peers(env, Step(env, a), Step(Other(env), b))
  {
    hide Inv, PeerStack;
    StepKeepsInv(env, a);
    StepKeepsInv(Other(env), b);
    PeerInit(a.stack, b.stack);
    var a', b' := Step(env, a), Step(Other(env), b);
    var p := |a.stack| - 1;
    assert a'.stack == a.stack[p := a'.stack[p]] && b'.stack == b.stack[p := b'.stack[p]];
    NoContext(env, a, p);
    NoContext(Other(env), b, p);
    PeerSet(a.stack, b.stack, p, a'.stack[p], b'.stack[p]);
  }

  lemma TopPeers(env: Env, a: Mach, b: Mach)
    requires env.variant.Win32Tib? && Peers(env, a, b) && (a.ctl.Loop? || a.ctl.Callback?)
    ensures a.AtTry() && b.AtTry() && |a.stack| <= |Whole(a)| == |Whole(b)|
    ensures PeerStack(Init(a.stack), Init(b.stack)) && Depth(Init(a.stack)) == Depth(Init(b.stack))
    ensures PeerSlot(Last(a.stack), Last(b.stack))
  {
    hide Shape, HeadsOk, Fns, StatesOk;
    var p := |a.stack| - 1;
    PeerAt(Whole(a), Whole(b), p);
    PeerPrefix(Whole(a), Whole(b), p);
    assert Whole(a)[..p] == Init(a.stack) && Whole(b)[..p] == Init(b.stack);
    PeerDepth(Init(a.stack), Init(b.stack));
  }

  lemma LoopInFilterPeers(env: Env, a: Mach, b: Mach)
    requires env.Valid() && env.variant.Win32Tib? && Peers(env, a, b) && a.ctl == Loop && InFilter(a)
    ensures Peers(env, Step(env, a), Step(Other(env), b))
  {
    hide Shape, HeadsOk, Fns, StatesOk, Verdict, Remove, Depth, Head, PeerStack;
    TopPeers(env, a, b);
    var a', b' := Step(env, a), Step(Other(env), b);
    StepKeepsInv(env, a);
    StepKeepsInv(Other(env), b);
    FilterWhole(env, a);
    FilterWhole(Other(env), b);
    var p := |a.stack| - 1;
    VerdictPeers(env, Last(a.stack).clause, Last(a.stack).frame.record, a.trace);
    assert PeerSlot(Last(a'.stack), Last(b'.stack));
    assert PeerSlot(Whole(a')[p], Whole(b')[p]);
    PeerSet(Whole(a), Whole(b), p, Whole(a')[p], Whole(b')[p]);
  }

  lemma VerdictPeers(env: Env, clause: Clause, code: int, trace: Trace)
    ensures Verdict(Other(env), clause, code, trace) == Verdict(env, clause, code, trace)
  {
  }

  lemma LoopPeers(env: Env, a: Mach, b: Mach)
    requires env.Valid() && env.variant.Win32Tib? && Peers(env, a, b) && a.ctl == Loop && !InFilter(a)
    ensures Peers(env, Step(env, a), Step(Other(env), b))
  {
    hide Inv, Depth, Head, PeerStack, StepLoop, Verdict;
    TopPeers(env, a, b);
    var a', b' := Step(env, a), Step(Other(env), b);
    StepKeepsInv(env, a);
    StepKeepsInv(Other(env), b);
    if Last(a.stack).frame.state <= 3 {
      VerdictPeers(env, Last(a.stack).clause, Last(a.stack).frame.record, a.trace);
      TurnIs(env, a);
      TurnIs(Other(env), b);
      PeerPush(Init(a.stack), Init(b.stack), Last(a'.stack), Last(b'.stack));
    } else {
      LoopPops(env, a);
      LoopPops(Other(env), b);
    }
  }

  lemma SearchPeers(env: Env, a: Mach, b: Mach, why: Dispatch, p: Ptr)
    requires env.Valid() && env.variant.Win32Tib? && Peers(env, a, b) && a.ctl == Search(why, p)
    ensures Peers(env, Step(env, a), Step(Other(env), b))
  {
    hide Shape, HeadsOk, Fns, StatesOk, Head, PeerStack;
    var a', b' := Step(env, a), Step(Other(env), b);
    StepKeepsInv(env, a);
    StepKeepsInv(Other(env), b);
    PeerAt(a.stack, b.stack, p);
    if IsFrame(a.stack, p) {
      FrameAt(env, a.stack, p);
      FrameAt(Other(env), b.stack, p);
      EnterFilterKeeps(env, a, why, p);
      EnterFilterKeeps(Other(env), b, b.ctl.why, p);
      assert PeerSlot(Whole(a')[p], Whole(b')[p]);
      PeerSet(a.stack, b.stack, p, Whole(a')[p], Whole(b')[p]);
    } else {
      PeerAt(a.stack, b.stack, b.ctl.at);
    }
  }

  lemma AcceptPeers(env: Env, a: Mach, b: Mach)
    requires env.Valid() && env.variant.Win32Tib? && Peers(env, a, b) && a.ctl == Callback && InFilter(a)
    requires Last(a.stack).frame.filterResult == EXECUTE_HANDLER
    ensures Peers(env, Step(env, a), Step(Other(env), b))
  {
    hide Inv, PeerStack, StepCallback, Depth;
    TopPeers(env, a, b);
    TakesIs(env, a);
    TakesIs(Other(env), b);
    var a', b' := Step(env, a), Step(Other(env), b);
    NoContext(env, a', |a.stack| - 1);
    NoContext(Other(env), b', |a.stack| - 1);
    PeerPush(Init(a.stack), Init(b.stack), Last(a'.stack), Last(b'.stack));
  }

  lemma DeclinePeers(env: Env, a: Mach, b: Mach)
    requires env.Valid() && env.variant.Win32Tib? && Peers(env, a, b) && a.ctl == Callback && InFilter(a)
    requires Last(a.stack).frame.filterResult != EXECUTE_HANDLER && AlignedAt(env, a)
    ensures Peers(env, Step(env, a), Step(Other(env), b))
  {
    hide Inv, PeerStack, StepCallback, Depth, Whole;
    TopPeers(env, a, b);
    DeclineIs(env, a);
    DeclineIs(Other(env), b);
    StepKeepsInv(env, a);
    StepKeepsInv(Other(env), b);
    var a', b' := Step(env, a), Step(Other(env), b);
    var p := |a.stack| - 1;
    WholeNow(a');
    WholeNow(b');
    if Passes(a) {
      PassLinks(env, a, b);
    } else {
      PeerSet(Whole(a), Whole(b), p, a'.stack[p], b'.stack[p]);
    }
  }

  /** The next frames on the two chains. */
  lemma PassLinks(env: Env, a: Mach, b: Mach)
    requires env.Valid() && env.variant.Win32Tib? && Peers(env, a, b) && a.ctl == Callback && InFilter(a)
    ensures b.AtTry()
    ensures var f, g := Last(a.stack).frame, Last(b.stack).frame;
      && f.Win32Frame? && g.Os2Frame? && g.prev == f.prevOs2
      && forall q :: q == f.prevOs2 || q == f.prevWin32 ==>
           (IsFrame(a.stack, q) <==> IsFrame(Whole(a), q)) && (IsFrame(Whole(a), q) <==> IsFrame(Whole(b), q))
  {
    hide HeadsOk, Fns, StatesOk, Shape;
    var p := |a.stack| - 1;
    var w, v := Whole(a), Whole(b);
    TopPeers(env, a, b);
    FrameAt(env, w, p);
    FrameAt(Other(env), v, p);
    PeerPrefix(w, v, p);
    PeerTop(env, w[..p], v[..p]);
    TopIsOnChain(env, w[..p], Os2Chain);
    TopIsOnChain(env, w[..p], Win32Chain);
    assert OnChain(env, w[p], Os2Chain) && OnChain(Other(env), v[p], Os2Chain);
    assert OnChain(env, w[p], Win32Chain);
    forall q | q == w[p].frame.prevOs2 || q == w[p].frame.prevWin32
      ensures (IsFrame(a.stack, q) <==> IsFrame(w, q)) && (IsFrame(w, q) <==> IsFrame(v, q))
    {
      PeerAt(w, v, q);
      if 0 <= q { assert q < p && w[q] == a.stack[q]; }
    }
  }

  lemma StrayPeers(env: Env, a: Mach, b: Mach)
    requires env.Valid() && env.variant.Win32Tib? && Peers(env, a, b) && a.ctl == Callback && !InFilter(a)
    ensures Peers(env, Step(env, a), Step(Other(env), b))
  {
    hide Shape, HeadsOk, Fns, StatesOk;
    StepKeepsInv(env, a);
    StepKeepsInv(Other(env), b);
  }

  lemma StepPeers(env: Env, a: Mach, b: Mach)
    requires env.Valid() && env.variant.Win32Tib? && Peers(env, a, b) && AlignedAt(env, a)
    ensures Peers(env, Step(env, a), Step(Other(env), b))
  {
    hide Peers;
    match a.ctl
    case Exec(Raise(kind, code)) => RaisePeers(env, a, b, kind, code);
    case Exec(s) => if s.Try? { TryPeers(env, a, b, s); } else { ExecPeers(env, a, b, s); }
    case Return => if a.AtTry() { BlockEndPeers(env, a, b); } else { ReturnPeers(env, a, b); }
    case Leaving => if a.AtTry() { BlockEndPeers(env, a, b); } else { ReturnPeers(env, a, b); }
    case Loop => if InFilter(a) { LoopInFilterPeers(env, a, b); } else { LoopPeers(env, a, b); }
    case Search(why, p) => SearchPeers(env, a, b, why, p);
    case Callback =>
      if !InFilter(a) { StrayPeers(env, a, b); }
      else if Last(a.stack).frame.filterResult == EXECUTE_HANDLER { AcceptPeers(env, a, b); }
      else { DeclinePeers(env, a, b); }
    case Halted(_) => HaltedPeers(env, a, b);
  }

  lemma HaltedPeers(env: Env, a: Mach, b: Mach)
    requires Peers(env, a, b) && a.ctl.Halted?
    ensures Peers(env, Step(env, a), Step(Other(env), b))
  {
  }

  // ----- whole runs -----

  /** The condition holds before each of the first `n` steps. */
  predicate AlignedFor(env: Env, n: nat, m: Mach) {
    forall j: nat :: j < n ==> AlignedAt(env, Steps(env, j, m))
  }

  ghost predicate AlwaysAligned(env: Env, m: Mach) {
    forall j: nat :: AlignedAt(env, Steps(env, j, m))
  }

  lemma {:induction false} StepsPeers(env: Env, n: nat, a: Mach, b: Mach)
    requires env.Valid() && env.variant.Win32Tib? && Peers(env, a, b) && AlignedFor(env, n, a)
    ensures Peers(env, Steps(env, n, a), Steps(Other(env), n, b))
  {
    hide Peers, AlignedAt, Step;
    if n > 0 {
      assert Steps(env, 0, a) == a;
      StepPeers(env, a, b);
      forall j: nat | j < n - 1 ensures AlignedAt(env, Steps(env, j, Step(env, a))) {
        assert Steps(env, j + 1, a) == Steps(env, j, Step(env, a));
      }
      StepsPeers(env, n - 1, Step(env, a), Step(Other(env), b));
    }
  }

  lemma StartPeers(env: Env, s: Stmt, fs: Selector, fs': Selector, calls: seq<nat>)
    requires env.Valid() && env.variant.Win32Tib?
    ensures Peers(env, Start(env, s, fs, calls), Start(Other(env), s, fs', calls))
  {
    StartInv(env, s, fs, calls);
    StartInv(Other(env), s, fs', calls);
  }

  /** What is visible of two machines in step. */
  predicate InStep(a: Mach, b: Mach) {
    && (a.trace, a.calls, |a.stack|) == (b.trace, b.calls, |b.stack|)
    && (a.ctl == b.ctl || (a.ctl.Search? && b.ctl.Search? && PeerWhy(a.ctl.why, b.ctl.why)))
  }

  /** Any program, clean or not, begun with any FS in either variant: for as long as no step of
      the Win32-TIB run meets the two chains apart, the two machines go together. */
  lemma VariantsGoInStep(env: Env, s: Stmt, fs: Selector, fs': Selector, calls: seq<nat>, n: nat)
    requires env.Valid() && env.variant.Win32Tib? && AlignedFor(env, n, Start(env, s, fs, calls))
    ensures InStep(Steps(env, n, Start(env, s, fs, calls)), Steps(Other(env), n, Start(Other(env), s, fs', calls)))
  {
    hide Steps, AlignedFor;
    StartPeers(env, s, fs, fs', calls);
    StepsPeers(env, n, Start(env, s, fs, calls), Start(Other(env), s, fs', calls));
  }

  // ----- and not beyond -----

  /** What a search that is not swallowed records next. */
  function NextAsked(env: Env, m: Mach, why: Dispatch, p: Ptr): Event {
    if IsFrame(m.stack, p) then
      Asked(Depth(m.stack[..p]), why.code, Verdict(env, m.stack[p].clause, why.code, m.trace))
    else Escaped(why.code)
  }

  lemma SearchRecords(env: Env, m: Mach, why: Dispatch, p: Ptr)
    requires env.Valid() && Inv(env, m) && m.ctl == Search(why, p)
    requires env.variant.Os2Only? || m.fs != OS2_SEL
    ensures Steps(env, 2, m).trace == m.trace + [NextAsked(env, m, why, p)]
  {
    hide Shape, HeadsOk, Fns, StatesOk, Depth, Verdict, Head;
    var m1 := Step(env, m);
    assert Steps(env, 2, m) == Steps(env, 1, m1) == Steps(env, 0, Step(env, m1));
    if IsFrame(m.stack, p) {
      FrameAt(env, m.stack, p);
      EnterFilterKeeps(env, m, why, p);
    }
  }

  /** A frame on the Win32 chain, and nothing yet on its way past it. */
  predicate Guarded(env: Env, m: Mach) {
    && Inv(env, m) && Top(env, Whole(m), Win32Chain) >= 0
    && match m.ctl
       case Search(_, p) => IsFrame(m.stack, p)
       case Loop => !Unlinked(m)
       case Callback => false
       case _ => true
  }

  /** Then what is recorded next is not that an exception has been passed on. */
  lemma GuardedStep(env: Env, m: Mach)
    requires env.Valid() && env.variant.Win32Tib? && Guarded(env, m)
    ensures GuardedNext(env, m, Step(env, m))
  {
    hide Guarded, GuardedNext, Step;
    match m.ctl
    case Exec(Raise(kind, code)) => GuardedRaise(env, m, kind, code);
    case Exec(s) => GuardedExec(env, m, s);
    case Search(why, p) => GuardedSearch(env, m, why, p);
    case _ => GuardedElse(env, m);
  }

  predicate GuardedNext(env: Env, m: Mach, m': Mach) {
    if m'.trace == m.trace then Guarded(env, m')
    else m.trace <= m'.trace && |m'.trace| == |m.trace| + 1 && !m'.trace[|m.trace|].Escaped?
  }

  lemma TopStays(env: Env, w: Stack, k: Slot)
    requires Top(env, w, Win32Chain) >= 0
    ensures Top(env, w + [k], Win32Chain) >= 0
  {
    assert Init(w + [k]) == w;
  }

  lemma GuardedExec(env: Env, m: Mach, s: Stmt)
    requires env.Valid() && env.variant.Win32Tib? && Guarded(env, m) && m.ctl == Exec(s) && !s.Raise?
    ensures GuardedNext(env, m, Step(env, m))
  {
    hide Inv, Top, Whole, Install, StartSearch, Head;
    var m' := Step(env, m);
    StepKeepsInv(env, m);
    ExecWhole(env, m, s);
    if s.Try? { InstallStep(env, m, s); }
    if m'.stack != m.stack {
      assert m'.stack == m.stack + [Last(m'.stack)];
      TopStays(env, m.stack, Last(m'.stack));
    }
  }

  lemma GuardedRaise(env: Env, m: Mach, kind: Kind, code: int)
    requires env.Valid() && env.variant.Win32Tib? && Guarded(env, m) && m.ctl == Exec(Raise(kind, code))
    ensures GuardedNext(env, m, Step(env, m))
  {
    hide Shape, Fns, HeadsOk, StatesOk, WalkOs2, Head;
    var m' := Step(env, m);
    StepKeepsInv(env, m);
    RaiseKeeps(env, m, kind, code);
    SameTop(env, m.stack, m'.stack, Win32Chain);
    TopIsOnChain(env, m'.stack, Win32Chain);
  }

  lemma GuardedSearch(env: Env, m: Mach, why: Dispatch, p: Ptr)
    requires env.Valid() && env.variant.Win32Tib? && Guarded(env, m) && m.ctl == Search(why, p)
    ensures GuardedNext(env, m, Step(env, m))
  {
    hide Shape, Fns, HeadsOk, StatesOk, Top, EnterFilter;
    var m' := Step(env, m);
    StepKeepsInv(env, m);
    FrameAt(env, m.stack, p);
    if m.fs == OS2_SEL {
      SlotKeeps(env, m.stack, p, m'.stack[p], m.heads);
      SameTop(env, m.stack, m'.stack, Win32Chain);
    } else {
      EnterFilterKeeps(env, m, why, p);
      SameTop(env, m.stack, Whole(m'), Win32Chain);
    }
  }

  lemma GuardedElse(env: Env, m: Mach)
    requires env.Valid() && env.variant.Win32Tib? && Guarded(env, m) && !m.ctl.Exec? && !m.ctl.Search?
    ensures GuardedNext(env, m, Step(env, m))
  {
    hide Shape, Fns, HeadsOk, StatesOk, StepLoop, Depth, Verdict;
    StepKeepsInv(env, m);
    if m.ctl.Loop? {
      TurnIs(env, m);
    } else if (m.ctl.Return? || m.ctl.Leaving?) && m.AtTry() {
      GuardedBlockEnd(env, m);
    }
  }

  lemma GuardedBlockEnd(env: Env, m: Mach)
    requires env.Valid() && env.variant.Win32Tib? && Guarded(env, m) && (m.ctl.Return? || m.ctl.Leaving?) && m.AtTry()
    ensures GuardedNext(env, m, Step(env, m))
  {
    hide Shape, Fns, HeadsOk, StatesOk;
    var m' := Step(env, m);
    BlockEndKeeps(env, m);
    SameTop(env, m.stack, m'.stack, Win32Chain);
    InvStates(env, m);
    FrameAt(env, m.stack, |m.stack| - 1);
    assert Last(m'.stack).frame.state <= 3 && !InFilter(m');
  }

  lemma {:induction false} GuardedRun(env: Env, n: nat, m: Mach)
    requires env.Valid() && env.variant.Win32Tib? && Guarded(env, m)
    ensures var t := Steps(env, n, m).trace;
      m.trace <= t && (|t| > |m.trace| ==> !t[|m.trace|].Escaped?)
  {
    hide Guarded, Step;
    if n > 0 {
      GuardedStep(env, m);
      var m' := Step(env, m);
      if m'.trace == m.trace {
        GuardedRun(env, n - 1, m');
      } else {
        assert Steps(env, n, m) == Steps(env, n - 1, m') && Steps(env, 0, m') == m';
        TraceGrows(env, 0, n - 1, m');
      }
    }
  }

  /** The run comes to have a record that begins with `t`. */
  ghost predicate Records(env: Env, t: Trace, m: Mach) {
    exists n: nat :: t <= Steps(env, n, m).trace
  }

  lemma Forks(t: Trace, x: Event, y: Event, u: Trace)
    requires x != y && t + [x] <= u
    ensures !(t + [y] <= u)
  {
    assert (t + [x])[|t|] == u[|t|] && (t + [y])[|t|] == y;
  }

  /** Two searches that come to different frames ask differently. */
  lemma SearchesPart(env: Env, a: Mach, b: Mach, why: Dispatch, p: Ptr, why': Dispatch, q: Ptr)
    requires env.Valid() && env.variant.Win32Tib? && Inv(env, a) && Inv(Other(env), b)
    requires a.ctl == Search(why, p) && b.ctl == Search(why', q) && a.fs != OS2_SEL && a.trace == b.trace
    requires PeerStack(a.stack, b.stack) && IsFrame(a.stack, q) && p < q
    ensures !Records(env, Steps(Other(env), 2, b).trace, a)
  {
    hide Inv, Step, Steps;
    PeerAt(a.stack, b.stack, q);
    SearchRecords(env, a, why, p);
    SearchRecords(Other(env), b, why', q);
    var x, y := NextAsked(env, a, why, p), NextAsked(Other(env), b, why', q);
    PeerPrefix(a.stack, b.stack, q);
    PeerDepth(a.stack[..q], b.stack[..q]);
    if IsFrame(a.stack, p) {
      DepthPrefix(a.stack[..q], p);
      assert a.stack[..q][..p] == a.stack[..p] && a.stack[..q][p] == a.stack[p];
    }
    assert x != y;
    forall n: nat ensures !(b.trace + [y] <= Steps(env, n, a).trace) {
      TraceGrows(env, n, n + 2, a);
      TraceGrows(env, 2, n + 2, a);
      Forks(a.trace, x, y, Steps(env, n + 2, a).trace);
    }
  }

  lemma NeverBegan(env: Env, t: Trace, m: Mach)
    requires !Records(env, t, Step(env, m))
    ensures !Records(env, t, m)
  {
    forall n: nat ensures !(t <= Steps(env, n, m).trace) {
      TraceGrows(env, n, n + 1, m);
      assert Steps(env, n + 1, m) == Steps(env, n, Step(env, m));
    }
  }

  /** The Win32 chain has no frame further in than the OS/2 chain. */
  lemma {:induction false} TopsOrder(env: Env, w: Stack)
    requires env.Valid()
    ensures Top(env, w, Win32Chain) >= 0 ==> Top(env, w, Win32Chain) <= Top(env, w, Os2Chain)
  {
    if w != [] {
      TopsOrder(env, Init(w));
      TopIsOnChain(env, Init(w), Win32Chain);
    }
  }

  lemma FaultParts(env: Env, a: Mach, b: Mach, code: int)
    requires env.Valid() && env.variant.Win32Tib? && Peers(env, a, b)
    requires a.ctl == Exec(Raise(Hardware, code)) && !AlignedAt(env, a)
    ensures !Records(env, Steps(Other(env), 2, Step(Other(env), b)).trace, Step(env, a))
  {
    hide Shape, Fns, StatesOk, Records, PeerStack;
    var a', b' := Step(env, a), Step(Other(env), b);
    RaiseKeeps(env, a, Hardware, code);
    RaiseKeeps(Other(env), b, Hardware, code);
    WalkIsPeer(a.stack, b.stack, Head(a.heads, OS2_SEL));
    PeerTop(env, a.stack, b.stack);
    TopsOrder(env, a.stack);
    TopIsOnChain(env, a.stack, Win32Chain);
    TopIsOnChain(env, a.stack, Os2Chain);
    var p, q := Top(env, a.stack, Win32Chain), Top(env, a.stack, Os2Chain);
    WalkFrames(a.stack, Head(a.heads, OS2_SEL), p);
    WalkFrames(a.stack, Head(a.heads, OS2_SEL), q);
    SearchesPart(env, a', b', a'.ctl.why, p, b'.ctl.why, q);
  }

  lemma PassParts(env: Env, a: Mach, b: Mach)
    requires env.Valid() && env.variant.Win32Tib? && Peers(env, a, b) && a.ctl == Callback && !AlignedAt(env, a)
    ensures !Records(env, Steps(Other(env), 2, Step(Other(env), b)).trace, Step(env, a))
  {
    hide Shape, Fns, StatesOk, Records, PeerStack, Whole, StepCallback, HeadsOk;
    var a', b' := Step(env, a), Step(Other(env), b);
    var p := |a.stack| - 1;
    TopPeers(env, a, b);
    DeclineIs(env, a);
    DeclineIs(Other(env), b);
    PassLinks(env, a, b);
    PassOrder(env, a);
    StepKeepsInv(env, a);
    StepKeepsInv(Other(env), b);
    var f := Last(a.stack).frame;
    SearchesPart(env, a', b', a'.ctl.why, f.prevWin32, b'.ctl.why, f.prevOs2);
  }

  lemma PassOrder(env: Env, a: Mach)
    requires env.Valid() && env.variant.Win32Tib? && Inv(env, a) && a.ctl == Callback && InFilter(a)
    ensures var f := Last(a.stack).frame;
      && f.Win32Frame? && (f.prevWin32 >= 0 ==> f.prevWin32 <= f.prevOs2)
      && (f.prevOs2 >= 0 ==> IsFrame(Whole(a), f.prevOs2)) && (f.prevWin32 >= 0 ==> IsFrame(Whole(a), f.prevWin32))
  {
    hide HeadsOk, Fns, StatesOk, Shape;
    var p := |a.stack| - 1;
    FrameAt(env, Whole(a), p);
    TopsOrder(env, Whole(a)[..p]);
    TopIsOnChain(env, Whole(a)[..p], Win32Chain);
    TopIsOnChain(env, Whole(a)[..p], Os2Chain);
    assert OnChain(env, Whole(a)[p], Os2Chain) && OnChain(env, Whole(a)[p], Win32Chain);
  }

  lemma HeardParts(env: Env, a: Mach, b: Mach, code: int)
    requires env.Valid() && env.variant.Win32Tib? && Peers(env, a, b)
    requires a.ctl == Exec(Raise(Software, code)) && !AlignedAt(env, a)
    ensures !Records(env, Steps(Other(env), 2, Step(Other(env), b)).trace, Step(env, a))
  {
    hide Shape, Fns, StatesOk, PeerStack;
    var a', b' := Step(env, a), Step(Other(env), b);
    RaiseKeeps(env, a, Software, code);
    RaiseKeeps(Other(env), b, Software, code);
    HeadsArePeers(env, a, b);
    SearchRecords(Other(env), b', b'.ctl.why, b'.ctl.at);
    var t := b.trace + [Escaped(code)];
    forall n: nat ensures !(t <= Steps(env, n, a').trace) {
      GuardedRun(env, n, a');
      assert t[|a.trace|] == Escaped(code);
    }
  }

  /** Where the condition fails, the OS/2 machine has, three steps later, a record with which
      none of the Win32-TIB machine's ever begins. */
  lemma UnalignedParts(env: Env, a: Mach, b: Mach)
    requires env.Valid() && env.variant.Win32Tib? && Peers(env, a, b) && !AlignedAt(env, a)
    ensures !Records(env, Steps(Other(env), 3, b).trace, a)
  {
    hide Peers, Records, Steps, AlignedAt;
    match a.ctl {
      case Exec(Raise(Hardware, code)) => FaultParts(env, a, b, code);
      case Exec(Raise(Software, code)) => HeardParts(env, a, b, code);
      case Callback => PassParts(env, a, b);
      case _ => AlignedElsewhere(env, a);
    }
    StepsAdd(Other(env), 1, 2, b);
    OneStep(Other(env), b);
    NeverBegan(env, Steps(Other(env), 3, b).trace, a);
  }

  lemma OneStep(env: Env, m: Mach)
    ensures Steps(env, 1, m) == Step(env, m)
  {
    assert Steps(env, 1, m) == Steps(env, 0, Step(env, m));
  }

  lemma AlignedElsewhere(env: Env, m: Mach)
    requires !(m.ctl.Exec? && m.ctl.s.Raise?) && !m.ctl.Callback?
    ensures AlignedAt(env, m)
  {
  }

  /** Every record of the one machine is one of the other's, or the beginning of one. */
  ghost predicate FollowedBy(env: Env, b: Mach, a: Mach) {
    forall n: nat :: Records(env, Steps(Other(env), n, b).trace, a)
  }

  ghost predicate SameRecords(env: Env, b: Mach, a: Mach) {
    forall n: nat :: Steps(Other(env), n, b).trace == Steps(env, n, a).trace
  }

  /** The first step at which the condition fails. */
  lemma {:induction false} FirstUnaligned(env: Env, j: nat, m: Mach) returns (i: nat)
    requires !AlignedAt(env, Steps(env, j, m))
    ensures i <= j && !AlignedAt(env, Steps(env, i, m)) && AlignedFor(env, i, m)
    decreases j
  {
    hide AlignedAt, Steps;
    if k: nat :| k < j && !AlignedAt(env, Steps(env, k, m)) {
      i := FirstUnaligned(env, k, m);
    } else {
      i := j;
    }
  }

  /** Any program, clean or not, halting or not, begun with any FS in either variant: the two
      variants leave the same record step by step if and only if no step of the Win32-TIB run
      meets the two chains apart; and if one does, the OS/2 record becomes one that the
      Win32-TIB run never comes to, however long it goes on. */
  lemma SameRecordsIffAligned(env: Env, s: Stmt, fs: Selector, fs': Selector, calls: seq<nat>)
    requires env.Valid() && env.variant.Win32Tib?
    ensures var a, b := Start(env, s, fs, calls), Start(Other(env), s, fs', calls);
      && (AlwaysAligned(env, a) <==> SameRecords(env, b, a))
      && (AlwaysAligned(env, a) <==> FollowedBy(env, b, a))
  {
    hide Steps, AlignedAt;
    var a, b := Start(env, s, fs, calls), Start(Other(env), s, fs', calls);
    if AlwaysAligned(env, a) {
      forall n: nat ensures Steps(Other(env), n, b).trace == Steps(env, n, a).trace {
        VariantsGoInStep(env, s, fs, fs', calls, n);
      }
      SameIsFollowed(env, b, a);
    } else {
      var j: nat :| !AlignedAt(env, Steps(env, j, a));
      var i := FirstUnaligned(env, j, a);
      StartPeers(env, s, fs, fs', calls);
      StepsPeers(env, i, a, b);
      UnalignedParts(env, Steps(env, i, a), Steps(Other(env), i, b));
      NotFollowed(env, a, b, i);
    }
  }

  lemma SameIsFollowed(env: Env, b: Mach, a: Mach)
    requires SameRecords(env, b, a)
    ensures FollowedBy(env, b, a)
  {
    hide Steps;
    forall n: nat ensures Records(env, Steps(Other(env), n, b).trace, a) {
      assert Steps(Other(env), n, b).trace <= Steps(env, n, a).trace;
    }
  }

  lemma NotFollowed(env: Env, a: Mach, b: Mach, i: nat)
    requires !Records(env, Steps(Other(env), 3, Steps(Other(env), i, b)).trace, Steps(env, i, a))
    ensures !FollowedBy(env, b, a) && !SameRecords(env, b, a)
  {
    hide Steps;
    StepsAdd(Other(env), i, 3, b);
    var t := Steps(Other(env), i + 3, b).trace;
    forall k: nat ensures !(t <= Steps(env, k, a).trace) {
      TraceGrows(env, k, i + k, a);
      StepsAdd(env, i, k, a);
    }
  }
}
