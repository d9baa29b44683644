/** The thread that runs the lowered program, changing its registers, TIB cells and stack in
    place. Every method is tied to the step function of Machine that it carries out. */
module Thread {
  import opened Selectors
  import opened Programs
  import opened Machine
  import opened Invariant
  import opened CallStack
  import Correctness
  import Lowering
  import Links
  import Reference

  class Thread {
    const env: Env

    var ctl: Control
    var stack: Stack
    var heads: Heads
    var fs: Selector
    var callStack: CallStack
    var trace: Trace
    ghost var Repr: set<object>

    /** The thread as a machine state. */
    ghost function View(): Mach
      reads this, callStack
    {
      Mach(ctl, stack, heads, fs, callStack.calls, trace)
    }

    ghost predicate Fit()
      reads this, Repr
    {
      && env.Valid() && this in Repr && callStack in Repr && callStack.Repr <= Repr
      && this !in callStack.Repr && callStack.Valid()
    }

    /** Fit, and in a state that keeps the invariant of Invariant. */
    ghost predicate Valid()
      reads this, Repr
      ensures Valid() ==> this in Repr
    {
      Fit() && Inv(env, View())
    }

    constructor (env: Env, s: Stmt, fs: Selector)
      requires env.Valid()
      ensures Valid() && fresh(Repr) && this.env == env
      ensures View() == Mach(Exec(s), [], map[OS2_SEL := env.baseOs2, env.tebSel := env.baseWin32], fs, [], [])
    {
      this.env := env;
      ctl, stack, this.fs, trace := Exec(s), [], fs, [];
      heads := map[OS2_SEL := env.baseOs2, env.tebSel := env.baseWin32];
      callStack := new CallStack();
      new;
      Repr := {this} + callStack.Repr;
    }

    // ----- include/os2sel.h -----

    method GetFS() returns (sel: Selector)
      ensures sel == fs
    {
      var res := fs;                       // mov %fs, %eax
      sel := ToUShort(res);
    }

    method SetFS(sel: Selector)
      modifies this`fs
      ensures fs == sel
    {
      fs := sel;
    }

    /** Switches to the OS/2 selector and returns the old one as a C `short`. */
    method RestoreOS2FS() returns (sel: int)
      modifies this`fs
      ensures fs == 0x150b
      ensures ToUShort(sel) == old(fs) && -0x8000 <= sel < 0x8000
    {
      SelectorSurvivesShort(fs);
      var res := fs;
      fs := OS2_SEL;
      sel := ToShort(res);
    }

    /** Switches to `to` and returns the old selector as a C `short`. */
    method SetReturnFS(to: Selector) returns (sel: int)
      modifies this`fs
      ensures fs == to
      ensures ToUShort(sel) == old(fs) && -0x8000 <= sel < 0x8000
    {
      SelectorSurvivesShort(fs);
      var res := fs;
      fs := to;
      sel := ToShort(res);
    }

    // ----- machine instructions -----

    method PushL(v: int)
      modifies this`stack
      ensures stack == old(stack) + [KWord(v)]
    {
      stack := stack + [KWord(v)];
    }

    method PopFS()
      requires stack != [] && Last(stack).KWord?
      modifies this`stack, this`fs
      ensures stack == Init(old(stack)) && fs == ToUShort(Last(old(stack)).value)
    {
      fs := ToUShort(stack[|stack| - 1].value);
      stack := stack[..|stack| - 1];
    }

    /** mov %fs:0, %eax */
    method ReadHead() returns (p: Ptr)
      ensures p == Head(heads, fs)
    {
      p := Head(heads, fs);
    }

    /** mov %eax, %fs:0 */
    method WriteHead(p: Ptr)
      modifies this`heads
      ensures heads == old(heads)[fs := p]
    {
      heads := heads[fs := p];
    }

    method WriteFrame(p: Ptr, f: Frame)
      requires IsFrame(stack, p)
      modifies this`stack
      ensures stack == SetFrame(old(stack), p, f)
    {
      stack := stack[p := stack[p].(frame := f)];
    }

    // ----- include/excpt.h -----

    /** The assembler block of __try, Win32-TIB variant. */
    method InstallWin32()
      requires env.variant.Win32Tib? && stack != [] && Last(stack).KTry? && Last(stack).frame == NewFrame(env)
      modifies this`stack, this`heads, this`fs
      ensures View() == Install(env, old(View()))
      ensures heads == old(heads)[0x150b := |stack| - 1][fs := |stack| - 1] && fs == old(fs)
    {
      var ecx := |stack| - 1;
      SaveForWin32(ecx);
      LinkForWin32(ecx);
    }

    /** Its first part: FS, the Win32 chain's head, and ESP go into the frame. */
    method SaveForWin32(ecx: Ptr)
      requires IsFrame(stack, ecx) && stack[ecx].frame.Win32Frame?
      modifies this`stack
      ensures stack == SetFrame(old(stack), ecx,
        old(stack)[ecx].frame.(win32FS := fs, prevWin32 := Head(heads, fs))
          .WithPrev(Head(heads, fs)).WithEsp(Esp(old(stack))))
    {
      WriteFrame(ecx, stack[ecx].frame.(win32FS := fs));
      var eax := ReadHead();
      WriteFrame(ecx, stack[ecx].frame.WithPrev(eax));
      WriteFrame(ecx, stack[ecx].frame.(prevWin32 := eax));
      WriteFrame(ecx, stack[ecx].frame.WithEsp(Esp(stack)));
    }

    /** Its second part: the frame goes on the OS/2 chain, then on the Win32 chain. */
    method LinkForWin32(ecx: Ptr)
      requires IsFrame(stack, ecx) && stack[ecx].frame.Win32Frame?
      modifies this`stack, this`heads, this`fs
      ensures stack == SetFrame(old(stack), ecx, old(stack)[ecx].frame.(prevOs2 := Head(old(heads), OS2_SEL)))
      ensures heads == old(heads)[OS2_SEL := ecx][fs := ecx] && fs == old(fs)
    {
      hide ToUShort;
      PushL(fs);
      PushL(OS2_SEL);
      PopFS();
      assert stack == old(stack) + [KWord(old(fs))];
      var eax := ReadHead();
      WriteFrame(ecx, stack[ecx].frame.(prevOs2 := eax));
      assert Init(stack) == SetFrame(old(stack), ecx, old(stack)[ecx].frame.(prevOs2 := eax));
      WriteHead(ecx);
      PopFS();
      WriteHead(ecx);
    }

    /** The assembler block of __try, OS/2 variant: ESP is saved under one pushed word and
        corrected by four. */
    method InstallOs2()
      requires env.variant.Os2Only? && stack != [] && Last(stack).KTry? && Last(stack).frame == NewFrame(env)
      modifies this`stack, this`heads, this`fs
      ensures View() == Install(env, old(View()))
      ensures heads == old(heads)[0x150b := |stack| - 1] && fs == old(fs)
    {
      hide ToUShort;
      var ecx := |stack| - 1;
      PushL(fs);
      PushL(OS2_SEL);
      PopFS();
      assert stack == old(stack) + [KWord(old(fs))];
      SaveForOs2(ecx);
      WriteHead(ecx);
      PopFS();
      assert stack == Install(env, old(View())).stack;
    }

    method SaveForOs2(ecx: Ptr)
      requires IsFrame(stack, ecx)
      modifies this`stack
      ensures stack == SetFrame(old(stack), ecx,
        old(stack)[ecx].frame.WithPrev(Head(heads, fs)).WithEsp(Esp(old(stack)) + 4))
    {
      var eax := ReadHead();
      WriteFrame(ecx, stack[ecx].frame.WithPrev(eax));
      WriteFrame(ecx, stack[ecx].frame.WithEsp(Esp(stack)));
      WriteFrame(ecx, stack[ecx].frame.WithEsp(stack[ecx].frame.esp + 4));
    }

    /** The assembler block of state 3, in either variant. */
    method RemoveFrame()
      requires stack != [] && Last(stack).KTry?
      modifies this`stack, this`heads, this`fs
      ensures View() == Remove(old(View()))
      ensures var f := old(Last(stack).frame);
        if f.Win32Frame? then fs == f.win32FS && heads == old(heads)[fs := f.prevWin32][0x150b := f.prevOs2]
        else fs == old(fs) && heads == old(heads)[0x150b := f.prev]
    {
      hide ToUShort;
      var f := stack[|stack| - 1].frame;
      if f.Win32Frame? {
        SetFS(f.win32FS);
        WriteHead(f.prevWin32);
      }
      PushL(fs);
      PushL(OS2_SEL);
      PopFS();
      WriteHead(if f.Win32Frame? then f.prevOs2 else f.prev);
      PopFS();
    }

    /** One turn of the state loop: the test, and the branch for the frame's state. */
    method StateLoop()
      requires Valid() && ctl == Loop
      modifies this`ctl, this`stack, this`heads, this`fs, this`trace
      ensures View() == StepLoop(env, old(View()))
    {
      var p := |stack| - 1;
      var k := stack[p];
      var f := k.frame;
      ghost var outer := Init(stack);
      var d := OpenTries(p);
      if f.state > 3 {
        stack := stack[..p];
        ctl := Return;
      } else if f.state == 0 {
        stack := stack[p := k.(at := InBody)];
        trace := trace + [Enter(d)];
        ctl := Exec(k.body);
      } else if f.state == 1 {
        var answer := Verdict(env, k.clause, f.record, trace);
        WriteFrame(p, f.(filterResult := answer));
        trace := trace + [Asked(d, f.record, answer)];
        ctl := Callback;
      } else if f.state == 3 {
        RemoveFrame();
        trace := trace + [Removed(d)];
        WriteFrame(p, f.(state := f.state + 1));
      } else {
        stack := stack[p := k.(at := InHandler)];
        trace := trace + [Handling(d)];
        ctl := Exec(k.handler);
      }
    }

    /** The number of open __try statements in the lowest `n` cells. */
    method OpenTries(n: nat) returns (d: nat)
      requires n <= |stack|
      ensures d == Depth(stack[..n])
    {
      d := 0;
      for i := 0 to n
        invariant d == Depth(stack[..i])
      {
        assert Init(stack[..i + 1]) == stack[..i];
        if stack[i].KTry? { d := d + 1; }
      }
    }

    /** The end of a guarded body, and of a handler block: the macro's assignment to the state
        and the loop's increment. */
    method EndBlock()
      requires Valid() && ctl == Return && stack != [] && Last(stack).KTry?
      modifies this`ctl, this`stack
      ensures View() == StepReturn(old(View()))
    {
      var p := |stack| - 1;
      if stack[p].at.InBody? {
        WriteFrame(p, stack[p].frame.(state := if stack[p].clause.Except? then 2 else 1));
      }
      WriteFrame(p, stack[p].frame.(state := stack[p].frame.state + 1));
      ctl := Loop;
    }

    /** __leave: the assignment and `continue`, which increments. */
    method LeaveTry()
      requires Valid() && ctl == Leaving
      modifies this`ctl, this`stack
      ensures View() == StepLeave(old(View()))
    {
      if stack == [] {
        ctl := Halted(Crashed);
        return;
      }
      var p := |stack| - 1;
      if stack[p].KSeq? {
        stack := stack[..p];
      } else if stack[p].KTry? {
        WriteFrame(p, stack[p].frame.(state := 1));
        WriteFrame(p, stack[p].frame.(state := stack[p].frame.state + 1));
        ctl := Loop;
      } else {
        ctl := Halted(Crashed);
      }
    }

    // ----- src/kernel32: raising, dispatching, unwinding -----

    /** The kernel calls the frames' handlers along the OS/2 chain. */
    method WalkOs2Chain()
      modifies this`stack
      ensures stack == WalkOs2(old(stack), Head(heads, OS2_SEL))
      ensures env.Valid() && env.variant.Win32Tib? && Shape(env, old(stack)) && HeadsOk(env, old(stack), heads) ==>
        && |stack| == |old(stack)|
        && (forall i :: 0 <= i < |stack| ==>
              stack[i] == Links.Linked(old(stack)[i], Top(env, old(stack)[..i], Os2Chain)))
        && Links.PrevWalk(stack, Head(heads, 0x150b)) == (Correctness.Frames(env, old(stack), Os2Chain), env.baseOs2)
    {
      if env.Valid() && env.variant.Win32Tib? && Shape(env, stack) && HeadsOk(env, stack, heads) {
        Links.WalkRestoresChain(env, stack);
      }
      var p := Head(heads, OS2_SEL);
      while IsFrame(stack, p) && stack[p].frame.Win32Frame?
        invariant WalkOs2(stack, p) == WalkOs2(old(stack), Head(heads, OS2_SEL))
        decreases p
      {
        var next := stack[p].frame.prevOs2;
        WriteFrame(p, stack[p].frame.(prev := next));
        if next >= p { return; }
        p := next;
      }
    }

    method RaiseException(kind: Kind, code: int)
      requires Valid() && ctl == Exec(Raise(kind, code))
      modifies this`ctl, this`stack, this`fs
      ensures View() == StartSearch(env, old(View()), kind, code)
    {
      var why := Dispatch(kind, code, fs);
      if kind.Software? {
        ctl := Search(why, Head(heads, env.tebSel));
      } else if env.variant.Win32Tib? {
        WalkOs2Chain();
        var oldsel := SetReturnFS(env.tebSel);
        ctl := Search(why, Head(heads, env.tebSel));
      } else {
        SetFS(OS2_SEL);
        ctl := Search(why, Head(heads, OS2_SEL));
      }
    }

    /** The dispatcher at one frame, and the first half of the frame's handler. */
    method CallHandler(why: Dispatch, p: Ptr)
      requires Valid() && ctl == Search(why, p)
      modifies this`ctl, this`stack, this`trace
      ensures View() == StepSearch(env, old(View()), why, p)
    {
      if !IsFrame(stack, p) {
        trace := trace + [Escaped(why.code)];
        ctl := Halted(PassedOn(why.code));
        return;
      }
      FrameAt(env, stack, p);
      var f := stack[p].frame;
      if f.Win32Frame? && fs == OS2_SEL {
        WriteFrame(p, f.(prev := f.prevOs2));
        ctl := Return;
      } else {
        WriteFrame(p, f.(prev := NextLink(f)));
        var kept := stack[Cells(f.esp)..];
        WriteFrame(p, stack[p].frame.(context := Some(Context(kept, why))));
        WriteFrame(p, stack[p].frame.(record := why.code));
        stack := stack[..Cells(f.esp)];
        WriteFrame(p, stack[p].frame.(state := 1));
        ctl := Loop;
        assert stack == EnterFilter(old(View()), why, p).stack;
      }
    }

    /** RtlUnwind along the Win32 chain to the frame `target`, which is on it. */
    method UnwindTo(target: Ptr)
      requires env.Valid() && env.variant.Win32Tib? && Shape(env, stack)
      requires IsFrame(stack, target) && OnChain(env, stack[target], Win32Chain)
      requires Head(heads, env.tebSel) == Top(env, stack, Win32Chain)
      modifies this`heads
      ensures heads == old(heads)[env.tebSel := target]
      ensures RtlUnwind(stack, old(Head(heads, env.tebSel)), target) == Some(target)
    {
      assert stack[..|stack|] == stack;
      UnwindReaches(env, stack, |stack|, target);
      var h := Head(heads, env.tebSel);
      heads := heads[env.tebSel := h];
      while h != target
        invariant RtlUnwind(stack, h, target) == Some(target)
        invariant heads == old(heads)[env.tebSel := h]
        decreases h
      {
        var next := NextLink(stack[h].frame);
        heads := heads[env.tebSel := next];
        h := next;
      }
    }

    /** The second half of a handler, after the filter. */
    method HandlerCallback()
      requires Valid() && ctl == Callback
      modifies this`ctl, this`stack, this`heads, this`fs
      ensures View() == StepCallback(env, old(View()))
      ensures old(InFilter(View())) ==>
        var p, f := |old(stack)| - 1, old(Last(stack).frame);
        && trace == old(trace) && IsFrame(stack, p)
        && match f.filterResult
           case 1 => ctl == Loop && |stack| == p + 1 && stack[p].frame.state == 2 && fs == old(fs)
           case -1 => ctl == Return && stack[p].frame.state == 0 && fs == f.context.value.why.fs
           case _ =>
             && ctl == Search(f.context.value.why, if f.Win32Frame? then f.prevWin32 else f.prev)
             && stack[p].frame.state == f.state
    {
      var p := |stack| - 1;
      var f := stack[p].frame;
      if f.context.None? {
        ctl := Halted(Crashed);
        return;
      }
      ghost var was := View();
      var ctx := f.context.value;
      WriteFrame(p, f.(context := None));
      stack := stack + ctx.cells;
      assert stack == Whole(was);
      if f.filterResult == EXECUTE_HANDLER {
        Take(p, ctx.why.kind);
      } else if f.filterResult == CONTINUE_EXECUTION {
        WriteFrame(p, stack[p].frame.(state := 0));
        fs := ctx.why.fs;
        ctl := Return;
      } else {
        ctl := Search(ctx.why, NextLink(f));
      }
    }

    /** Unwinds both chains to the frame `p` and goes to its loop in state 2. */
    method Take(p: Ptr, kind: Kind)
      requires env.Valid() && Shape(env, stack) && HeadsOk(env, stack, heads)
      requires IsFrame(stack, p) && OnChain(env, stack[p], ChainOf(env, kind))
      modifies this`ctl, this`stack, this`heads, this`fs
      ensures View() == Accept(env, old(View()), p)
      ensures ctl == Loop && |stack| == p + 1 && IsFrame(stack, p) && stack[p].frame.state == 2 && fs == old(fs)
    {
      FrameAt(env, stack, p);
      var f := stack[p].frame;
      if f.Win32Frame? {
        UnwindTo(p);
        WriteFrame(p, f.(prev := f.prevOs2));
        var ebx := fs;
        SetFS(OS2_SEL);
        WriteHead(p);                      // DosUnwindException
        SetFS(ebx);
        WriteFrame(p, stack[p].frame.(prev := f.prevWin32));
      } else {
        heads := heads[OS2_SEL := p];      // DosUnwindException
      }
      stack := stack[..Cells(f.esp)];
      WriteFrame(p, stack[p].frame.(state := 2));
      ctl := Loop;
      assert stack == Accept(env, old(View()), p).stack;
    }

    // ----- include/os2wrap.h and include/odinwrap.h -----

    /** USHORT sel = RestoreOS2FS(), and the call. */
    method EnterWrapper(id: nat, callee: Stmt)
      requires Valid() && ctl == Exec(OS2Call(id, callee))
      modifies this`ctl, this`stack, this`fs, this`trace
      ensures View() == StepExec(env, old(View()), OS2Call(id, callee))
      ensures fs == 0x150b && trace == old(trace) + [Native(id, 0x150b)]
      ensures stack == old(stack) + [KWrap(id, old(fs), |old(trace)|)]
    {
      SelectorSurvivesShort(fs);
      var r := RestoreOS2FS();
      var sel := ToUShort(r);
      stack := stack + [KWrap(id, sel, |trace|)];
      trace := trace + [Native(id, fs)];
      ctl := Exec(callee);
    }

    /** SetFS(sel), and the return. */
    method LeaveWrapper()
      requires Valid() && ctl == Return && stack != [] && Last(stack).KWrap?
      modifies this`stack, this`fs, this`trace
      ensures View() == StepReturn(old(View()))
    {
      var k := stack[|stack| - 1];
      SetFS(k.sel);
      trace := trace + [NativeLeave(k.id, k.call)];
      stack := stack[..|stack| - 1];
    }

    /** FNPROLOGUE, and the call. */
    method Prologue(name: nat, callee: Stmt)
      requires Valid() && ctl == Exec(Traced(name, callee))
      modifies Repr
      ensures Fit() && fresh(Repr - old(Repr))
      ensures View() == StepExec(env, old(View()), Traced(name, callee))
    {
      var sel := GetFS();
      callStack.Push(name);
      Repr := Repr + callStack.Repr;
      stack := stack + [KFn(name, sel, |trace|)];
      trace := trace + [FnEnter(name)];
      ctl := Exec(callee);
    }

    /** FNEPILOGUE, and the return: FS is put back if the callee has not. */
    method Epilogue()
      requires Valid() && ctl == Return && stack != [] && Last(stack).KFn?
      modifies Repr
      ensures Fit() && fresh(Repr - old(Repr))
      ensures View() == StepReturn(old(View()))
    {
      var k := stack[|stack| - 1];
      assert Whole(View()) == stack;
      callStack.Pop();
      Repr := Repr + callStack.Repr;
      var cur := GetFS();
      if k.sel != cur {
        SetFS(k.sel);
      }
      trace := trace + [FnLeave(k.name, k.call)];
      stack := stack[..|stack| - 1];
    }

    // ----- running -----

    method EnterTry(body: Stmt, clause: Clause, handler: Stmt)
      requires Valid() && ctl == Exec(Try(body, clause, handler))
      modifies this`ctl, this`stack, this`heads, this`fs
      ensures View() == StepExec(env, old(View()), Try(body, clause, handler))
    {
      stack := stack + [KTry(NewFrame(env), clause, body, handler, InBody)];
      if env.variant.Win32Tib? { InstallWin32(); } else { InstallOs2(); }
      ctl := Loop;
    }

    /** One statement. */
    method Execute(s: Stmt)
      requires Valid() && ctl == Exec(s)
      modifies Repr
      ensures Fit() && fresh(Repr - old(Repr))
      ensures View() == StepExec(env, old(View()), s)
    {
      match s
      case Skip => ctl := Return;
      case Do(id) => trace := trace + [Did(id)]; ctl := Return;
      case LoadFS(sel) => SetFS(sel); trace := trace + [Loaded(sel)]; ctl := Return;
      case Leave => ctl := Leaving;
      case Raise(kind, code) => RaiseException(kind, code);
      case Seq(a, b) => stack := stack + [KSeq(b)]; ctl := Exec(a);
      case Choice(id, a, b) => ctl := Exec(if env.choose(id, trace) then a else b);
      case OS2Call(id, callee) => EnterWrapper(id, callee);
      case Traced(name, callee) => Prologue(name, callee);
      case Try(body, clause, handler) => EnterTry(body, clause, handler);
    }

    /** A statement is done. */
    method Continue()
      requires Valid() && ctl == Return
      modifies Repr
      ensures Fit() && fresh(Repr - old(Repr))
      ensures View() == StepReturn(old(View()))
    {
      if stack == [] {
        ctl := Halted(Finished);
        return;
      }
      match stack[|stack| - 1]
      case KSeq(next) => stack := stack[..|stack| - 1]; ctl := Exec(next);
      case KTry(_, _, _, _, _) => EndBlock();
      case KWrap(_, _, _) => LeaveWrapper();
      case KFn(_, _, _) => Epilogue();
      case KWord(_) => assert false;
    }

    method StepOnce()
      requires Valid()
      modifies Repr
      ensures Valid() && fresh(Repr - old(Repr))
      ensures View() == Step(env, old(View()))
    {
      StepKeepsInv(env, View());
      match ctl
      case Exec(s) => Execute(s);
      case Return => Continue();
      case Leaving => LeaveTry();
      case Loop => StateLoop();
      case Search(why, p) => CallHandler(why, p);
      case Callback => HandlerCallback();
      case Halted(_) =>
    }

    /** Runs at most `n` steps, in place. */
    method Run(n: nat)
      requires Valid()
      modifies Repr
      ensures Valid() && fresh(Repr - old(Repr))
      ensures View() == Steps(env, n, old(View()))
    {
      var i := 0;
      ghost var was := View();
      while i < n && !ctl.Halted?
        invariant i <= n && Valid() && fresh(Repr - old(Repr))
        invariant Steps(env, n - i, View()) == Steps(env, n, was)
      {
        StepOnce();
        i := i + 1;
      }
      if ctl.Halted? { HaltedStays(env, n - i, View()); }
    }

    /** Runs a program to its end. If the program is clean, it ends, and with the record, the
        call trace and the FS that its structured meaning gives; both chains are as they were. */
    method RunProgram(s: Stmt)
      requires Valid() && View() == Correctness.Start(env, s, fs, [])
      requires WellFormed(s, false) && Reference.Run(env, s, [], Reference.St([], fs, [], true)).st.clean
      modifies Repr
      ensures Valid() && fresh(Repr - old(Repr)) && ctl.Halted?
      ensures var r := Reference.Run(env, s, [], Reference.St([], old(fs), [], true));
        && trace == r.st.trace && callStack.calls == r.st.calls
        && (r.out.Normal? <==> ctl == Halted(Finished))
        && (ctl == Halted(Finished) ==>
              && stack == [] && fs == r.st.fs
              && Head(heads, OS2_SEL) == env.baseOs2 && Head(heads, env.tebSel) == env.baseWin32)
    {
      hide Inv, Step, Reference.Run, Reference.RunHandler;
      ghost var start := View();
      ghost var n := Correctness.ProgramHalts(env, s, fs, []);
      ghost var i: nat := 0;
      while !ctl.Halted?
        invariant Valid() && fresh(Repr - old(Repr))
        invariant i <= n && View() == Steps(env, i, start)
        decreases n - i
      {
        StepOnce();
        StepsAdd(env, i, 1, start);
        Lowering.ThreeSteps(env, Steps(env, i, start));
        i := i + 1;
      }
      StepsAdd(env, i, n - i, start);
      HaltedStays(env, n - i, View());
    }
  }
}
