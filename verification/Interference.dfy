/** The environment writing over pPrev slots and over the Win32 fs:0 cell while a __try
    statement of the Win32-TIB variant runs. */
module Interference {
  import opened Selectors
  import opened Programs
  import opened Machine
  import opened Invariant
  import opened Levels
  import opened Lowering
  import opened Orderly

  /** One write by the environment: a value for the cell, and for the pPrev of each frame. */
  datatype Scribble = Scribble(cell: Ptr, prevs: seq<Ptr>)

  function ScribbleSlot(k: Slot, i: nat, prevs: seq<Ptr>): Slot {
    if k.KTry? && k.frame.Win32Frame? && i < |prevs| then k.(frame := k.frame.(prev := prevs[i])) else k
  }

  /** The pPrev slots of the frames on the stack overwritten. */
  function Overwrite(stack: Stack, prevs: seq<Ptr>): Stack {
    seq(|stack|, i requires 0 <= i < |stack| => ScribbleSlot(stack[i], i, prevs))
  }

  /** The two stacks are the same but for pPrev of Win32-TIB frames. */
  predicate DifferInPrev(a: Stack, b: Stack) {
    && |a| == |b|
    && forall i :: 0 <= i < |a| ==>
         if a[i].KTry? && a[i].frame.Win32Frame? then
           b[i].KTry? && b[i] == a[i].(frame := a[i].frame.(prev := b[i].frame.prev))
         else b[i] == a[i]
  }

  function PrevsOf(stack: Stack): seq<Ptr> {
    seq(|stack|, i requires 0 <= i < |stack| => if stack[i].KTry? then stack[i].frame.prev else 0)
  }

  /** Any other values in these slots are such a write, and no write does anything else. */
  lemma AnyPrevs(a: Stack, b: Stack, prevs: seq<Ptr>)
    ensures DifferInPrev(a, b) ==> Overwrite(a, PrevsOf(b)) == b
    ensures DifferInPrev(a, Overwrite(a, prevs))
    ensures forall i :: 0 <= i < |a| && i < |prevs| && a[i].KTry? && a[i].frame.Win32Frame? ==>
      Overwrite(a, prevs)[i].KTry? && Overwrite(a, prevs)[i].frame.prev == prevs[i]
  {
  }

  function Apply(env: Env, m: Mach, x: Scribble): Mach {
    m.(heads := m.heads[env.tebSel := x.cell], stack := Overwrite(m.stack, x.prevs))
  }

  /** The environment may write any pointer into the Win32 cell and any into the pPrev slots. */
  lemma AnyWrite(env: Env, m: Mach, cell: Ptr, stack: Stack) returns (x: Scribble)
    requires DifferInPrev(m.stack, stack)
    ensures Apply(env, m, x) == m.(heads := m.heads[env.tebSel := cell], stack := stack)
  {
    x := Scribble(cell, PrevsOf(stack));
    AnyPrevs(m.stack, stack, []);
  }

  /** Steps, with a write of the environment after each. */
  function Disturbed(env: Env, m: Mach, xs: seq<Scribble>): Mach
    decreases |xs|
  {
    if xs == [] then m else Disturbed(env, Apply(env, Step(env, m), xs[0]), xs[1..])
  }

  /** The environment has written over the Win32 cell and pPrev slots, and nothing else. */
  predicate Clobbered(env: Env, m: Mach, m': Mach) {
    && m' == m.(heads := m'.heads, stack := m'.stack) && DifferInPrev(m.stack, m'.stack)
    && env.tebSel in m'.heads && m'.heads == m.heads[env.tebSel := m'.heads[env.tebSel]]
  }

  /** Every run in which the environment does that after each step is a disturbed run. */
  lemma {:induction false} AnyClobberedRun(env: Env, ms: seq<Mach>) returns (xs: seq<Scribble>)
    requires ms != [] && forall i :: 0 <= i < |ms| - 1 ==> Clobbered(env, Step(env, ms[i]), ms[i + 1])
    ensures |xs| == |ms| - 1 && forall i :: 0 <= i < |ms| ==> Disturbed(env, ms[0], xs[..i]) == ms[i]
    decreases |ms|
  {
    hide Step, Apply;
    xs := [];
    if |ms| > 1 {
      var x := AnyWrite(env, Step(env, ms[0]), ms[1].heads[env.tebSel], ms[1].stack);
      var rest := AnyClobberedRun(env, ms[1..]);
      xs := [x] + rest;
      forall i | 0 <= i < |ms| ensures Disturbed(env, ms[0], xs[..i]) == ms[i] {
        if i > 0 { assert xs[..i][1..] == rest[..i - 1] && ms[i] == ms[1..][i - 1]; }
      }
    }
  }

  // ----- the removal -----

  lemma ApplyKeeps(env: Env, m: Mach, x: Scribble)
    requires Sane(m)
    ensures var m' := Apply(env, m, x);
      Sane(m') && Kept(Whole(m), Whole(m')) && |Whole(m')| == |Whole(m)|
  {
    var m' := Apply(env, m, x);
    var w, w' := Whole(m), Whole(m');
    assert forall i :: 0 <= i < |m.stack| ==> m'.stack[i] == ScribbleSlot(m.stack[i], i, x.prevs);
    assert m.AtTry() <==> m'.AtTry();
    assert m.AtTry() ==> Last(m'.stack).frame.context == Last(m.stack).frame.context;
    assert |w'| == |w| && forall i :: 0 <= i < |w| ==> w'[i] == w[i] || w'[i] == ScribbleSlot(w[i], i, x.prevs);
  }

  /** Throughout a disturbed run there are `h` cells or more. */
  predicate DisturbedAbove(env: Env, m: Mach, xs: seq<Scribble>, h: nat) {
    forall j :: 0 <= j <= |xs| ==> |Whole(Disturbed(env, m, xs[..j]))| >= h
  }

  lemma KeptIsKeptBelow(a: Stack, b: Stack, c: Stack, h: nat)
    requires Kept(a, b) && h <= |a| && h <= |b| && KeptBelow(b, c, h)
    ensures KeptBelow(a, c, h)
  {
    forall i | 0 <= i < h ensures Core(a[..h][i]) == Core(c[..h][i]) {
      KeptBelowCell(b, c, h, i);
    }
  }

  lemma {:induction false} DisturbedKeepsBelow(env: Env, m: Mach, xs: seq<Scribble>, h: nat)
    requires Sane(m) && DisturbedAbove(env, m, xs, h)
    ensures var b := Disturbed(env, m, xs); Sane(b) && KeptBelow(Whole(m), Whole(b), h)
    decreases |xs|
  {
    hide Sane, Kept, KeptBelow, Whole, Step, Apply;
    assert xs[..0] == [] && xs[..|xs|] == xs;
    assert |Whole(Disturbed(env, m, xs[..0]))| >= h;
    if xs == [] {
      SelfKept(Whole(m), h);
    } else {
      var m1 := Step(env, m);
      var m2 := Apply(env, m1, xs[0]);
      StepKeeps(env, m);
      ApplyKeeps(env, m1, xs[0]);
      forall j | 0 <= j <= |xs[1..]| ensures |Whole(Disturbed(env, m2, xs[1..][..j]))| >= h {
        assert xs[..j + 1][1..] == xs[1..][..j] && xs[..j + 1][0] == xs[0];
        assert Disturbed(env, m, xs[..j + 1]) == Disturbed(env, m2, xs[1..][..j]);
      }
      DisturbedKeepsBelow(env, m2, xs[1..], h);
      assert xs[1..][..0] == [];
      assert |Whole(Disturbed(env, m2, xs[1..][..0]))| >= h;
      KeptIsKeptBelow(Whole(m1), Whole(m2), Whole(Disturbed(env, m, xs)), h);
      KeptIsKeptBelow(Whole(m), Whole(m1), Whole(Disturbed(env, m, xs)), h);
    }
  }

  /** Whatever the environment writes into the Win32 fs:0 cell and into pPrev slots, after
      every single step from the installation of a frame on, and whatever the code under the
      __try does (it may raise, and be unclean): when the run comes to this frame's state 3,
      without having come below it, the removal restores FS, the head of the OS/2 chain and
      the head in the TIB that FS named at entry to what they were at entry. `m` may itself be
      a state of a disturbed run, so this is every nesting level. */
  lemma ClobberTolerance(env: Env, m: Mach, xs: seq<Scribble>)
    requires env.variant.Win32Tib? && Sane(m) && m.ctl.Exec? && m.ctl.s.Try?
    requires DisturbedAbove(env, Step(env, m), xs, |m.stack| + 1)
    requires Removes(|m.stack| + 1, Disturbed(env, Step(env, m), xs))
    ensures FsRestored(m, Step(env, Disturbed(env, Step(env, m), xs)))
  {
    StepKeeps(env, m);
    DisturbedKeepsBelow(env, Step(env, m), xs, |m.stack| + 1);
    RemovalRestores(env, m, Disturbed(env, Step(env, m), xs));
  }

  /** The same of any run `ms` from the installation on in which the environment has written over
      them after each step: if it has not come below the frame and next removes it, FS and the
      heads are restored. */
  lemma ClobberedRunRecovers(env: Env, m: Mach, ms: seq<Mach>)
    requires env.variant.Win32Tib? && Sane(m) && m.ctl.Exec? && m.ctl.s.Try?
    requires ms != [] && ms[0] == Step(env, m)
    requires forall i :: 0 <= i < |ms| - 1 ==> Clobbered(env, Step(env, ms[i]), ms[i + 1])
    requires forall i :: 0 <= i < |ms| ==> |Whole(ms[i])| > |m.stack|
    requires Removes(|m.stack| + 1, Last(ms))
    ensures FsRestored(m, Step(env, Last(ms)))
  {
    hide Sane, Step, Whole, Clobbered, Removes, FsRestored;
    var xs := AnyClobberedRun(env, ms);
    assert xs[..|xs|] == xs;
    assert Disturbed(env, ms[0], xs[..|ms| - 1]) == ms[|ms| - 1];
    forall j | 0 <= j <= |xs| ensures |Whole(Disturbed(env, ms[0], xs[..j]))| >= |m.stack| + 1 {
      assert Disturbed(env, ms[0], xs[..j]) == ms[j];
    }
    ClobberTolerance(env, m, xs);
  }

  /** A disturbed run keeps what ClobberTolerance asks of its start. */
  lemma {:induction false} DisturbedIsSane(env: Env, m: Mach, xs: seq<Scribble>)
    requires Sane(m)
    ensures Sane(Disturbed(env, m, xs))
    decreases |xs|
  {
    hide Sane, Step, Apply;
    if xs != [] {
      StepKeeps(env, m);
      ApplyKeeps(env, Step(env, m), xs[0]);
      DisturbedIsSane(env, Apply(env, Step(env, m), xs[0]), xs[1..]);
    }
  }

  // ----- what the writes can reach -----

  /** A slot without pPrev; and, for frames installed after the first write (`late`), without
      what they have read from the Win32 cell. */
  function Trusted(env: Env, k: Slot, late: bool): Slot {
    if k.KTry? && k.frame.Win32Frame? then
      k.(frame := k.frame.(prev := 0,
        prevWin32 := if late && k.frame.win32FS == env.tebSel then 0 else k.frame.prevWin32))
    else k
  }

  /** Two runs of the same program, one of them written into, with `h` cells of the stack
      from before. */
  predicate Parallel(env: Env, h: nat, a: Mach, b: Mach) {
    && (a.ctl, a.fs, a.calls, a.trace) == (b.ctl, b.fs, b.calls, b.trace)
    && |a.stack| == |b.stack|
    && (forall i :: 0 <= i < |a.stack| ==> Trusted(env, a.stack[i], i >= h) == Trusted(env, b.stack[i], i >= h))
    && HeadsAgree(env.tebSel, a.heads, b.heads)
  }

  /** A slot above which no exception is on its way: no frame is asked, and none has been while
      its handler block runs. */
  predicate CalmSlot(k: Slot, looping: bool) {
    match k
    case KTry(f, _, _, _, at) =>
      && f.Win32Frame?
      && (looping ==> f.state in {0, 2, 3, 4})
      && (!looping ==> at.InHandler? ==> f.state == 2)
    case KWord(_) => false
    case _ => true
  }

  /** Control is above the frame in cell h - 1, no exception is on its way, and that frame is
      still installed. */
  predicate Calm(h: nat, m: Mach) {
    && 0 < h <= |m.stack| && m.stack[h - 1].KTry?
    && (forall i :: h - 1 <= i < |m.stack| ==> CalmSlot(m.stack[i], m.ctl.Loop? && i == |m.stack| - 1))
    && match m.ctl
       case Exec(_) => true
       case Return => true
       case Leaving => true
       case Loop => m.AtTry() && (|m.stack| == h ==> m.stack[h - 1].frame.state != 4)
       case _ => false
  }

  predicate Raises(m: Mach) { m.ctl.Exec? && m.ctl.s.Raise? }

  lemma CalmExec(env: Env, h: nat, m: Mach, s: Stmt)
    requires env.variant.Win32Tib? && Calm(h, m) && m.ctl == Exec(s) && !s.Raise?
    ensures Calm(h, StepExec(env, m, s))
  {
    hide Head;
    var m' := StepExec(env, m, s);
    if s.Try? {
      InstallStep(env, m, s);
    }
  }

  lemma CalmLoop(env: Env, h: nat, m: Mach)
    requires env.variant.Win32Tib? && Calm(h, m) && m.ctl == Loop && !Removes(h, m)
    ensures Calm(h, StepLoop(env, m))
  {
    hide Depth, Head;
    var m' := StepLoop(env, m);
    var p := |m.stack| - 1;
    assert CalmSlot(m.stack[p], true);
    if |m'.stack| == |m.stack| {
      assert m'.stack == m.stack[..p] + [Last(m'.stack)];
    }
  }

  lemma CalmBlockEnd(env: Env, h: nat, m: Mach)
    requires env.variant.Win32Tib? && Calm(h, m) && (m.ctl == Return || m.ctl == Leaving)
    requires Step(env, m).ctl != Halted(Crashed)
    ensures Calm(h, Step(env, m))
  {
    hide StepExec, StepLoop;
    var m' := Step(env, m);
    var p := |m.stack| - 1;
    assert CalmSlot(m.stack[p], false);
    if m.AtTry() {
      assert m'.stack == m.stack[..p] + [Last(m'.stack)];
    }
  }

  // ----- the two runs step alike -----

  lemma TrustedKind(env: Env, a: Slot, b: Slot, late: bool)
    requires Trusted(env, a, late) == Trusted(env, b, late)
    ensures a.KTry? <==> b.KTry?
    ensures !a.KTry? ==> a == b
  {
  }

  lemma {:induction false} DepthParallel(env: Env, a: Stack, b: Stack, h: nat)
    requires |a| == |b| && forall i :: 0 <= i < |a| ==> Trusted(env, a[i], i >= h) == Trusted(env, b[i], i >= h)
    ensures Depth(a) == Depth(b)
  {
    if a != [] {
      DepthParallel(env, Init(a), Init(b), h);
      TrustedKind(env, Last(a), Last(b), |a| - 1 >= h);
    }
  }

  lemma ParallelTop(env: Env, h: nat, a: Mach, b: Mach)
    requires Parallel(env, h, a, b) && a.stack != []
    ensures b.stack != [] && Trusted(env, Last(a.stack), |a.stack| > h) == Trusted(env, Last(b.stack), |a.stack| > h)
    ensures Depth(Init(a.stack)) == Depth(Init(b.stack))
    ensures Last(a.stack).KTry? <==> Last(b.stack).KTry?
    ensures !Last(a.stack).KTry? ==> Last(a.stack) == Last(b.stack)
  {
    var p := |a.stack| - 1;
    assert Trusted(env, a.stack[p], p >= h) == Trusted(env, b.stack[p], p >= h);
    DepthParallel(env, Init(a.stack), Init(b.stack), h);
  }

  /** Chain heads that agree outside one TIB, and go on doing so after equal writes. */
  predicate HeadsAgree(tebSel: Selector, a: Heads, b: Heads) {
    forall sel: Selector :: sel != tebSel ==> Head(a, sel) == Head(b, sel)
  }

  lemma HeadsAgreeSet(tebSel: Selector, a: Heads, b: Heads, sel: Selector, p: Ptr, q: Ptr)
    requires HeadsAgree(tebSel, a, b) && (p == q || sel == tebSel)
    ensures HeadsAgree(tebSel, a[sel := p], b[sel := q])
  {
    var a', b' := a[sel := p], b[sel := q];
    forall other: Selector | other != tebSel ensures Head(a', other) == Head(b', other) {
      assert Head(a, other) == Head(b, other);
    }
  }

  lemma ParallelExec(env: Env, h: nat, a: Mach, b: Mach, s: Stmt)
    requires env.Valid() && env.variant.Win32Tib? && Parallel(env, h, a, b) && h <= |a.stack|
    requires a.ctl == Exec(s) && !s.Raise?
    ensures Parallel(env, h, StepExec(env, a, s), StepExec(env, b, s))
  {
    hide HeadsAgree;
    if s.Try? { ParallelInstall(env, h, a, b, s); }
  }

  lemma ParallelInstall(env: Env, h: nat, a: Mach, b: Mach, s: Stmt)
    requires env.Valid() && env.variant.Win32Tib? && Parallel(env, h, a, b) && h <= |a.stack|
    requires a.ctl == Exec(s) && s.Try?
    ensures Parallel(env, h, StepExec(env, a, s), StepExec(env, b, s))
  {
    hide HeadsAgree;
    var a', b' := StepExec(env, a, s), StepExec(env, b, s);
    var p := |a.stack|;
    AgreeAt(env.tebSel, a.heads, b.heads, OS2_SEL);
    if a.fs != env.tebSel { AgreeAt(env.tebSel, a.heads, b.heads, a.fs); }
    HeadsAgreeSet(env.tebSel, a.heads, b.heads, OS2_SEL, p, p);
    HeadsAgreeSet(env.tebSel, a.heads[OS2_SEL := p], b.heads[OS2_SEL := p], a.fs, p, p);
    assert Init(a'.stack) == a.stack && Init(b'.stack) == b.stack;
    assert a'.stack == a.stack + [Last(a'.stack)] && b'.stack == b.stack + [Last(b'.stack)];
  }

  lemma AgreeAt(tebSel: Selector, a: Heads, b: Heads, sel: Selector)
    requires HeadsAgree(tebSel, a, b) && sel != tebSel
    ensures Head(a, sel) == Head(b, sel)
  {
  }

  lemma ParallelBlockEnd(env: Env, h: nat, a: Mach, b: Mach)
    requires env.variant.Win32Tib? && Parallel(env, h, a, b) && h <= |a.stack| && a.stack != []
    requires a.ctl == Return || a.ctl == Leaving
    ensures Parallel(env, h, Step(env, a), Step(env, b))
  {
    hide HeadsAgree, Depth;
    ParallelTop(env, h, a, b);
    if a.AtTry() {
      ParallelState(env, h, a, b, if a.ctl == Leaving then 2
        else if Last(a.stack).at.InBody? then AfterBody(Last(a.stack).clause) else Last(a.stack).frame.state + 1);
    }
  }

  lemma ParallelState(env: Env, h: nat, a: Mach, b: Mach, state: int)
    requires Parallel(env, h, a, b) && a.AtTry() && b.AtTry()
    ensures Parallel(env, h, a.SetTop(Last(a.stack).frame.(state := state)).Go(Loop),
                             b.SetTop(Last(b.stack).frame.(state := state)).Go(Loop))
  {
    var p := |a.stack| - 1;
    assert Trusted(env, a.stack[p], p >= h) == Trusted(env, b.stack[p], p >= h);
  }

  lemma ParallelLoop(env: Env, h: nat, a: Mach, b: Mach)
    requires env.Valid() && env.variant.Win32Tib? && Parallel(env, h, a, b) && h <= |a.stack|
    requires a.ctl == Loop && a.AtTry() && Last(a.stack).frame.state != 1 && !Removes(h, a)
    requires Last(a.stack).frame.Win32Frame?
    ensures Parallel(env, h, StepLoop(env, a), StepLoop(env, b))
  {
    hide HeadsAgree, Depth;
    ParallelTop(env, h, a, b);
    var a', b' := StepLoop(env, a), StepLoop(env, b);
    var p := |a.stack| - 1;
    assert Last(b.stack).frame.Win32Frame? && Last(b.stack).frame.state == Last(a.stack).frame.state;
    if Last(a.stack).frame.state == 3 {
      ParallelRemove(env, h, a, b);
    }
    if |a'.stack| == |a.stack| {
      assert a'.stack == a.stack[..p] + [Last(a'.stack)] && b'.stack == b.stack[..p] + [Last(b'.stack)];
    }
  }

  /** Removing a late frame may put a wrong value back into the Win32 cell, and only there. */
  lemma ParallelRemove(env: Env, h: nat, a: Mach, b: Mach)
    requires env.Valid() && env.variant.Win32Tib? && Parallel(env, h, a, b)
    requires a.AtTry() && b.AtTry() && Last(a.stack).frame.Win32Frame? && Last(b.stack).frame.Win32Frame?
    ensures var a', b' := Remove(a), Remove(b);
      && a'.fs == b'.fs
      && HeadsAgree(env.tebSel, a'.heads, b'.heads)
      && (|a.stack| <= h && Last(a.stack).frame.win32FS == env.tebSel ==>
            Head(a'.heads, env.tebSel) == Head(b'.heads, env.tebSel))
  {
    var p := |a.stack| - 1;
    assert Trusted(env, a.stack[p], p >= h) == Trusted(env, b.stack[p], p >= h);
    var f, g := Last(a.stack).frame, Last(b.stack).frame;
    HeadsAgreeSet(env.tebSel, a.heads, b.heads, f.win32FS, f.prevWin32, g.prevWin32);
    HeadsAgreeSet(env.tebSel, a.heads[f.win32FS := f.prevWin32], b.heads[f.win32FS := g.prevWin32], OS2_SEL,
      f.prevOs2, g.prevOs2);
  }

  lemma ParallelStep(env: Env, h: nat, a: Mach, b: Mach)
    requires env.Valid() && env.variant.Win32Tib? && Parallel(env, h, a, b) && Calm(h, a)
    requires !Removes(h, a) && !Raises(a)
    ensures Parallel(env, h, Step(env, a), Step(env, b))
    ensures Step(env, a).ctl == Halted(Crashed) || Calm(h, Step(env, a))
  {
    hide Parallel, Calm;
    CalmTop(h, a);
    match a.ctl
    case Exec(s) =>
      ParallelCtl(env, h, a, b);
      ParallelExec(env, h, a, b, s);
      CalmExec(env, h, a, s);
    case Loop =>
      ParallelCtl(env, h, a, b);
      ParallelLoop(env, h, a, b);
      CalmLoop(env, h, a);
    case _ =>
      ParallelBlockEnd(env, h, a, b);
      if Step(env, a).ctl != Halted(Crashed) { CalmBlockEnd(env, h, a); }
  }

  lemma ParallelCtl(env: Env, h: nat, a: Mach, b: Mach)
    requires Parallel(env, h, a, b)
    ensures a.ctl == b.ctl
  {
  }

  lemma CalmTop(h: nat, m: Mach)
    requires Calm(h, m)
    ensures 0 < h <= |m.stack|
    ensures match m.ctl
            case Exec(s) => true
            case Loop => m.AtTry() && Last(m.stack).frame.state != 1 && Last(m.stack).frame.Win32Frame?
            case Return => true
            case Leaving => true
            case _ => false
  {
    assert CalmSlot(Last(m.stack), m.ctl.Loop?);
  }

  lemma ScribbledIsParallel(env: Env, h: nat, a: Mach, b: Mach, x: Scribble)
    requires Parallel(env, h, a, b)
    ensures Parallel(env, h, a, Apply(env, b, x))
  {
    var b' := Apply(env, b, x);
    forall i | 0 <= i < |a.stack| ensures Trusted(env, a.stack[i], i >= h) == Trusted(env, b'.stack[i], i >= h) {
      assert b'.stack[i] == ScribbleSlot(b.stack[i], i, x.prevs);
    }
  }

  /** No exception is raised before the frame in cell h - 1 is first found in state 3. */
  ghost predicate NoneRaised(env: Env, h: nat, a: Mach) {
    forall j: nat :: Raises(Steps(env, j, a)) ==> exists i: nat :: i <= j && Removes(h, Steps(env, i, a))
  }

  lemma NoneRaisedNext(env: Env, h: nat, a: Mach)
    requires NoneRaised(env, h, a) && !Removes(h, a)
    ensures !Raises(a) && NoneRaised(env, h, Step(env, a))
  {
    hide Step, Raises, Removes;
    assert Steps(env, 0, a) == a;
    forall j: nat | Raises(Steps(env, j, Step(env, a)))
      ensures exists i: nat :: i <= j && Removes(h, Steps(env, i, Step(env, a)))
    {
      assert Steps(env, j + 1, a) == Steps(env, j, Step(env, a));
      var i: nat :| i <= j + 1 && Removes(h, Steps(env, i, a));
      assert Steps(env, i, a) == Steps(env, i - 1, Step(env, a));
    }
  }

  /** Nothing but the frame's removal takes a calm run below it. */
  lemma CalmIsAbove(h: nat, m: Mach)
    requires Calm(h, m)
    ensures |Whole(m)| >= h
  {
  }

  /** Up to the removal, `|xs|` steps on, the disturbed run goes step by step with the other. */
  lemma {:induction false} ParallelSteps(env: Env, h: nat, a: Mach, b: Mach, xs: seq<Scribble>)
    requires env.Valid() && env.variant.Win32Tib? && Parallel(env, h, a, b) && Calm(h, a)
    requires NoneRaised(env, h, a)
    requires forall j :: 0 <= j < |xs| ==> !Removes(h, Steps(env, j, a))
    requires Removes(h, Steps(env, |xs|, a))
    ensures Parallel(env, h, Steps(env, |xs|, a), Disturbed(env, b, xs))
    ensures StaysAbove(env, |xs|, a, h)
    decreases |xs|
  {
    hide Parallel, Calm, Apply, Step, NoneRaised, Removes, Whole;
    CalmIsAbove(h, a);
    if xs != [] {
      assert !Removes(h, Steps(env, 0, a));
      NoneRaisedNext(env, h, a);
      ParallelStep(env, h, a, b);
      var a1 := Step(env, a);
      assert Steps(env, |xs|, a) == Steps(env, |xs| - 1, a1);
      if a1.ctl == Halted(Crashed) {
        HaltedStays(env, |xs| - 1, a1);
        RemovesRuns(h, a1);
        assert false;
      }
      ScribbledIsParallel(env, h, a1, Step(env, b), xs[0]);
      forall j | 0 <= j < |xs[1..]| ensures !Removes(h, Steps(env, j, a1)) {
        assert Steps(env, j, a1) == Steps(env, j + 1, a);
      }
      ParallelSteps(env, h, a1, Apply(env, Step(env, b), xs[0]), xs[1..]);
      forall j: nat | j <= |xs| ensures |Whole(Steps(env, j, a))| >= h {
        if j > 0 { assert Steps(env, j, a) == Steps(env, j - 1, a1); }
      }
    }
  }

  lemma RemovesRuns(h: nat, m: Mach)
    requires Removes(h, m)
    ensures !m.ctl.Halted?
  {
  }

  // ----- reaching the removal -----

  /** A run that gets below the frame in cell h - 1 has removed it, a first time. */
  lemma {:induction false} FirstRemoval(env: Env, h: nat, a: Mach, n: nat) returns (k: nat)
    requires env.Valid() && env.variant.Win32Tib? && Parallel(env, h, a, a) && Calm(h, a) && NoneRaised(env, h, a)
    requires var m := Steps(env, n, a); m.ctl == Return && |m.stack| < h
    ensures k < n && Removes(h, Steps(env, k, a)) && forall j :: 0 <= j < k ==> !Removes(h, Steps(env, j, a))
    decreases n
  {
    hide Parallel, Calm, Step, NoneRaised;
    CalmTop(h, a);
    if Removes(h, a) {
      k := 0;
    } else {
      var a1 := Step(env, a);
      NoneRaisedNext(env, h, a);
      ParallelStep(env, h, a, a);
      if a1.ctl == Halted(Crashed) {
        HaltedStays(env, n - 1, a1);
        assert false;
      }
      var k1 := FirstRemoval(env, h, a1, n - 1);
      k := k1 + 1;
      forall j | 0 <= j < k ensures !Removes(h, Steps(env, j, a)) {
        if j > 0 { assert Steps(env, j, a) == Steps(env, j - 1, a1); }
      }
    }
  }

  /** `b` has the FS of `m`, the head of the OS/2 chain and the head in the TIB that FS named,
      and otherwise what the undisturbed `a` has. */
  predicate Recovers(m: Mach, a: Mach, b: Mach) {
    FsRestored(m, b) && (b.ctl, b.calls, b.trace) == (a.ctl, a.calls, a.trace)
  }

  /** A __try of the Win32-TIB variant, entered with any FS, with __try statements nested to any
      depth in it, that comes to its end with nothing raised before its frame is in state 3 (an
      exception may be lost, see Findings.ClobberedCellLosesTheGuards): however the environment
      writes after every step from its installation on, the removal is reached, `n` steps
      later, and restores FS and the heads; control, call trace and record are those of the
      undisturbed run. */
  lemma ClobberedTryCompletes(env: Env, s: Stmt, m: Mach) returns (n: nat)
    requires env.Valid() && env.variant.Win32Tib? && Inv(env, m)
    requires s.Try? && m.ctl == Exec(s) && WellFormed(s, false) && NoneRaised(env, |m.stack| + 1, Step(env, m))
    requires RunFrom(env, s, m).st.clean && RunFrom(env, s, m).out.Normal?
    ensures Removes(|m.stack| + 1, Steps(env, n, Step(env, m)))
    ensures forall xs: seq<Scribble> :: |xs| == n ==>
      Recovers(m, Step(env, Steps(env, n, Step(env, m))), Step(env, Disturbed(env, Step(env, m), xs)))
  {
    hide Inv, Calm, Parallel, Step, Same, Lands, NoneRaised, Removes, Recovers;
    var h := |m.stack| + 1;
    var m1 := Step(env, m);
    var k := SimTry(env, s, m);
    LandedBelow(env, s, m, Steps(env, k, m));
    TryIsCalm(env, s, m);
    assert k > 0;
    n := FirstRemoval(env, h, m1, k - 1);
    forall xs: seq<Scribble> | |xs| == n
      ensures Recovers(m, Step(env, Steps(env, n, m1)), Step(env, Disturbed(env, m1, xs)))
    {
      Recovered(env, s, m, xs);
    }
  }

  lemma LandedBelow(env: Env, s: Stmt, m: Mach, m': Mach)
    requires RunFrom(env, s, m).out.Normal? && Lands(env, m.stack, RunFrom(env, s, m), m')
    ensures m'.ctl == Return && |m'.stack| == |m.stack|
  {
  }

  lemma Recovered(env: Env, s: Stmt, m: Mach, xs: seq<Scribble>)
    requires env.Valid() && env.variant.Win32Tib? && Inv(env, m)
    requires s.Try? && m.ctl == Exec(s) && NoneRaised(env, |m.stack| + 1, Step(env, m))
    requires var h := |m.stack| + 1;
      && (forall j :: 0 <= j < |xs| ==> !Removes(h, Steps(env, j, Step(env, m))))
      && Removes(h, Steps(env, |xs|, Step(env, m)))
    ensures Recovers(m, Step(env, Steps(env, |xs|, Step(env, m))), Step(env, Disturbed(env, Step(env, m), xs)))
  {
    hide Inv, Calm, Parallel, Step, Removes, NoneRaised, KeptBelow, Sane, Recovers;
    var h := |m.stack| + 1;
    var m1 := Step(env, m);
    TryIsCalm(env, s, m);
    StepKeepsInv(env, m);
    InvIsSane(env, m1);
    ParallelSteps(env, h, m1, m1, xs);
    RunKeepsBelow(env, |xs|, m1, h);
    LastSteps(env, h, m, Steps(env, |xs|, m1), Disturbed(env, m1, xs));
  }

  lemma TryIsCalm(env: Env, s: Stmt, m: Mach)
    requires env.variant.Win32Tib? && s.Try? && m.ctl == Exec(s)
    ensures Calm(|m.stack| + 1, Step(env, m))
    ensures Parallel(env, |m.stack| + 1, Step(env, m), Step(env, m))
  {
    InstallStep(env, m, s);
  }

  /** The removal itself, in the undisturbed run at `a` and in the other at `b`. */
  lemma LastSteps(env: Env, h: nat, m: Mach, a: Mach, b: Mach)
    requires env.Valid() && env.variant.Win32Tib? && m.ctl.Exec? && m.ctl.s.Try? && h == |m.stack| + 1
    requires Sane(a) && Removes(h, a) && Parallel(env, h, a, b) && KeptBelow(Whole(Step(env, m)), Whole(a), h)
    ensures Recovers(m, Step(env, a), Step(env, b))
  {
    hide KeptBelow, Sane, Depth;
    RemovalRestores(env, m, a);
    ParallelTop(env, h, a, b);
    RemovedFrame(env, m, a);
    ParallelRemove(env, h, a, b);
    AgreeAt(env.tebSel, Remove(a).heads, Remove(b).heads, OS2_SEL);
    if m.fs != env.tebSel { AgreeAt(env.tebSel, Remove(a).heads, Remove(b).heads, m.fs); }
  }

  lemma RemovedFrame(env: Env, m: Mach, a: Mach)
    requires env.variant.Win32Tib? && m.ctl.Exec? && m.ctl.s.Try? && Removes(|m.stack| + 1, a) && Sane(a)
    requires KeptBelow(Whole(Step(env, m)), Whole(a), |m.stack| + 1)
    ensures Last(a.stack).frame.Win32Frame? && Last(a.stack).frame.win32FS == m.fs
  {
    hide KeptBelow;
    var h := |m.stack|;
    InstallStep(env, m, m.ctl.s);
    var m1 := Step(env, m);
    assert Whole(m1) == m1.stack;
    KeptBelowCell(Whole(m1), Whole(a), h + 1, h);
    assert Last(a.stack) == a.stack[h] && Last(m1.stack) == m1.stack[h];
  }

  // ----- code that raises nothing -----

  /** The code above the frame in cell h - 1, and its own, has no raise in it. */
  predicate Free(h: nat, m: Mach) {
    && (m.ctl.Exec? ==> RaiseFree(m.ctl.s))
    && forall i :: 0 <= h - 1 <= i < |m.stack| ==> FreeSlot(m.stack[i])
  }

  predicate FreeSlot(k: Slot) {
    match k
    case KSeq(next) => RaiseFree(next)
    case KTry(_, _, body, handler, _) => RaiseFree(body) && RaiseFree(handler)
    case _ => true
  }

  lemma FreeStep(env: Env, h: nat, m: Mach)
    requires env.variant.Win32Tib? && Free(h, m) && Calm(h, m) && !Removes(h, m)
    ensures Free(h, Step(env, m))
  {
    hide Head, Depth;
    CalmTop(h, m);
    assert FreeSlot(m.stack[|m.stack| - 1]);
    if m.ctl.Exec? && m.ctl.s.Try? { InstallStep(env, m, m.ctl.s); }
    assert forall i :: 0 <= i < |Step(env, m).stack| && i < |m.stack| - 1 ==> Step(env, m).stack[i] == m.stack[i];
  }

  /** A condition on the text under which nothing is raised. */
  lemma RaiseFreeRaisesNone(env: Env, s: Stmt, m: Mach)
    requires env.Valid() && env.variant.Win32Tib? && s.Try? && m.ctl == Exec(s) && RaiseFree(s)
    ensures NoneRaised(env, |m.stack| + 1, Step(env, m))
  {
    hide Calm, Free, Raises, Removes, Parallel;
    var h := |m.stack| + 1;
    var m1 := Step(env, m);
    TryIsCalm(env, s, m);
    TryIsFree(env, s, m);
    forall j: nat | Raises(Steps(env, j, m1)) ensures exists i: nat :: i <= j && Removes(h, Steps(env, i, m1)) {
      var i := FreeRun(env, h, m1, j);
    }
  }

  lemma TryIsFree(env: Env, s: Stmt, m: Mach)
    requires s.Try? && m.ctl == Exec(s) && RaiseFree(s)
    ensures Free(|m.stack| + 1, Step(env, m))
  {
    InstallStep(env, m, s);
  }

  lemma {:induction false} FreeRun(env: Env, h: nat, m: Mach, j: nat) returns (i: nat)
    requires env.Valid() && env.variant.Win32Tib? && Free(h, m) && Calm(h, m) && Parallel(env, h, m, m)
    requires Raises(Steps(env, j, m))
    ensures i <= j && Removes(h, Steps(env, i, m))
    decreases j
  {
    hide Calm, Free, Removes, Parallel, Step;
    i := 0;
    FreeIsCalm(h, m);
    if !Removes(h, m) {
      assert j > 0;
      var m1 := Step(env, m);
      ParallelStep(env, h, m, m);
      FreeStep(env, h, m);
      if m1.ctl == Halted(Crashed) {
        HaltedStays(env, j - 1, m1);
        assert false;
      }
      i := FreeRun(env, h, m1, j - 1);
      i := i + 1;
    }
  }

  lemma FreeIsCalm(h: nat, m: Mach)
    requires Free(h, m)
    ensures !Raises(m)
  {
  }
}
