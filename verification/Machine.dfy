/** The lowered program: frames on the stack, chain heads in the TIBs, the state loop, the
    handlers of src/kernel32/seh/sehutil.s and the dispatcher of src/kernel32/exceptions.cpp. */
module Machine {
  import opened Selectors
  import opened Programs

  datatype Option<+T> = None | Some(value: T)

  /** An address of a frame: the number of its stack cell, counted from the stack's bottom;
      a negative number lies outside the modelled stack. */
  type Ptr = int

  const CHAIN_END: Ptr := -1

  /** Which block of a __try statement control is in (its code position). */
  datatype Block = InBody | InHandler

  /** An exception being dispatched; `fs` is FS where it was raised. */
  datatype Dispatch = Dispatch(kind: Kind, code: int, fs: Selector)

  /** The copy of the stack above a frame that its handler keeps on the heap while the
      filter runs at the frame's own stack level (pHandlerContext). */
  datatype Context = Context(cells: seq<Slot>, why: Dispatch)

  /** The two layouts of __seh_EXCEPTION_FRAME. Offsets +0, +20, +40, +16, +44, +48, +56,
      +60, +64, and +0, +20, +40, +16, +44, +52. */
  datatype Frame =
    | Win32Frame(prev: Ptr, filterResult: int, esp: int, context: Option<Context>,
        prevOs2: Ptr, record: int, state: int, prevWin32: Ptr, win32FS: Selector)
    | Os2Frame(prev: Ptr, filterResult: int, esp: int, context: Option<Context>,
        record: int, state: int)
  {
    function WithPrev(p: Ptr): Frame { this.(prev := p) }
    function WithEsp(e: int): Frame { this.(esp := e) }
  }

  /** A cell of the stack: a pending continuation with the locals that belong to it. */
  datatype Slot =
    | KSeq(next: Stmt)
    | KTry(frame: Frame, clause: Clause, body: Stmt, handler: Stmt, at: Block)
    | KWrap(id: nat, sel: Selector, call: nat)  // an OS/2 wrapper: its `sel`, and where in the
                                                // record it was entered
    | KFn(name: nat, sel: Selector, call: nat)  // an instrumented function, likewise
    | KWord(value: int)                    // a word pushed by assembler code

  type Stack = seq<Slot>

  type Heads = map<Selector, Ptr>

  datatype Halt = Finished | PassedOn(code: int) | Crashed

  datatype Control =
    | Exec(s: Stmt)
    | Return                               // the statement is done
    | Leaving                              // `continue` on its way to the state loop
    | Loop                                 // label 0, and the test of the state loop
    | Search(why: Dispatch, at: Ptr)       // about to call the handler of the frame `at`
    | Callback                             // pHandlerCallback: back in the handler
    | Halted(how: Halt)

  datatype Mach = Mach(ctl: Control, stack: Stack, heads: Heads, fs: Selector,
      calls: seq<nat>, trace: Trace)
  {
    function Emit(e: Event): Mach { this.(trace := trace + [e]) }
    function Push(k: Slot): Mach { this.(stack := stack + [k]) }
    function Pop(): Mach requires stack != [] { this.(stack := Init(stack)) }
    function Go(c: Control): Mach { this.(ctl := c) }
    function Crash(): Mach { this.(ctl := Halted(Crashed)) }
    predicate AtTry() { stack != [] && Last(stack).KTry? }
    /** Writes the frame of the __try on top of the stack. */
    function SetTop(f: Frame): Mach requires AtTry() {
      this.(stack := SetFrame(stack, |stack| - 1, f))
    }
  }

  predicate IsFrame(stack: Stack, p: Ptr) { 0 <= p < |stack| && stack[p].KTry? }

  function SetFrame(stack: Stack, p: Ptr, f: Frame): (r: Stack)
    requires IsFrame(stack, p)
  {
    stack[p := stack[p].(frame := f)]
  }

  /** The fs:0 cell of a TIB. */
  function Head(heads: Heads, sel: Selector): Ptr {
    if sel in heads then heads[sel] else CHAIN_END
  }

  /** ESP, relative to the stack's bottom; the stack grows down, four bytes a cell. */
  function Esp(stack: Stack): int { -4 * |stack| }

  function Cells(esp: int): int { -esp / 4 }

  /** How many __try statements are open. */
  function Depth(stack: Stack): nat {
    if stack == [] then 0 else Depth(Init(stack)) + if Last(stack).KTry? then 1 else 0
  }

  // ----- include/excpt.h: installing and removing a frame -----

  /** The frame as the C assignments before the assembler block leave it. */
  function NewFrame(env: Env): Frame {
    match env.variant
    case Win32Tib => Win32Frame(0, 0, 0, None, 0, 0, 0, 0, 0)
    case Os2Only => Os2Frame(0, 0, 0, None, 0, 0)
  }

  /** Links the frame on top of the stack into the chain, or into both chains. */
  function Install(env: Env, m: Mach): Mach
    requires m.AtTry() && Last(m.stack).frame == NewFrame(env)
  {
    var p := |m.stack| - 1;
    var f := Last(m.stack).frame;
    match env.variant
    case Win32Tib =>
      var outer := Head(m.heads, m.fs);
      m.SetTop(f.(win32FS := m.fs, prev := outer, prevWin32 := outer, esp := Esp(m.stack),
                  prevOs2 := Head(m.heads, OS2_SEL)))
       .(heads := m.heads[OS2_SEL := p][m.fs := p])
    case Os2Only =>
      m.SetTop(f.(prev := Head(m.heads, OS2_SEL), esp := Esp(m.stack)))
       .(heads := m.heads[OS2_SEL := p])
  }

  /** Unlinks the frame on top of the stack. */
  function Remove(m: Mach): Mach
    requires m.AtTry()
  {
    match Last(m.stack).frame
    case Win32Frame(_, _, _, _, prevOs2, _, _, prevWin32, win32FS) =>
      m.(fs := win32FS, heads := m.heads[win32FS := prevWin32][OS2_SEL := prevOs2])
    case Os2Frame(prev, _, _, _, _, _) =>
      m.(heads := m.heads[OS2_SEL := prev])
  }

  // ----- include/excpt.h: the state loop -----

  /** The loop's test and the branch it takes. */
  function StepLoop(env: Env, m: Mach): Mach {
    if !m.AtTry() then m.Crash() else
    var k := Last(m.stack);
    var f := k.frame;
    var d := Depth(Init(m.stack));
    if f.state > 3 then
      m.Pop().Go(Return)
    else if f.state == 0 then
      m.(stack := Init(m.stack) + [k.(at := InBody)]).Emit(Enter(d)).Go(Exec(k.body))
    else if f.state == 1 then
      var answer := Verdict(env, k.clause, f.record, m.trace);
      m.SetTop(f.(filterResult := answer)).Emit(Asked(d, f.record, answer)).Go(Callback)
    else if f.state == 3 then
      Remove(m).SetTop(f.(state := 4)).Emit(Removed(d)).Go(Loop)
    else
      m.(stack := Init(m.stack) + [k.(at := InHandler)]).Emit(Handling(d)).Go(Exec(k.handler))
  }

  /** The end of the guarded body: the macro assigns the state and the loop increments it. */
  function AfterBody(clause: Clause): int {
    (if clause.Except? then 2 else 1) + 1
  }

  /** A statement is done: go on with what the top of the stack says. */
  function StepReturn(m: Mach): Mach {
    if m.stack == [] then m.Go(Halted(Finished)) else
    match Last(m.stack)
    case KSeq(next) => m.Pop().Go(Exec(next))
    case KTry(f, clause, _, _, at) =>
      m.SetTop(f.(state := if at.InBody? then AfterBody(clause) else f.state + 1)).Go(Loop)
    case KWrap(id, sel, call) => m.Pop().(fs := sel).Emit(NativeLeave(id, call))
    case KFn(name, sel, call) =>
      if m.calls == [] then m.Crash()
      else m.Pop().(calls := Init(m.calls), fs := sel).Emit(FnLeave(name, call))
    case KWord(_) => m.Crash()
  }

  /** __leave: the state of the innermost frame becomes 1, and `continue` increments it. */
  function StepLeave(m: Mach): Mach {
    if m.stack == [] then m.Crash() else
    match Last(m.stack)
    case KSeq(_) => m.Pop()
    case KTry(f, _, _, _, _) => m.SetTop(f.(state := 1 + 1)).Go(Loop)
    case _ => m.Crash()
  }

  // ----- src/kernel32: raising and dispatching -----

  /** The kernel's walk along the OS/2 chain in the Win32-TIB variant: every frame's
      handler puts its OS/2 link into pPrev and lets the search go on. */
  function WalkOs2(stack: Stack, p: Ptr): (r: Stack)
    ensures |r| == |stack|
    decreases p
  {
    if IsFrame(stack, p) && stack[p].frame.Win32Frame? then
      var f := stack[p].frame;
      var r := SetFrame(stack, p, f.(prev := f.prevOs2));
      if f.prevOs2 < p then WalkOs2(r, f.prevOs2) else r
    else stack
  }

  function StartSearch(env: Env, m: Mach, kind: Kind, code: int): Mach {
    var why := Dispatch(kind, code, m.fs);
    if kind.Software? then
      m.Go(Search(why, Head(m.heads, env.tebSel)))
    else if env.variant.Win32Tib? then
      m.(stack := WalkOs2(m.stack, Head(m.heads, OS2_SEL)), fs := env.tebSel)
       .Go(Search(why, Head(m.heads, env.tebSel)))
    else
      m.(fs := OS2_SEL).Go(Search(why, Head(m.heads, OS2_SEL)))
  }

  /** The next outer frame of a search. */
  function NextLink(f: Frame): Ptr {
    if f.Win32Frame? then f.prevWin32 else f.prev
  }

  /** The handler's first half: keep the stack above the frame, reload the frame's ESP and
      jump to label 0 in state 1. */
  function EnterFilter(m: Mach, why: Dispatch, p: Ptr): Mach
    requires IsFrame(m.stack, p)
  {
    var f := m.stack[p].frame;
    var n := Cells(f.esp);
    if n != p + 1 then m.Crash() else
    var ctx := Context(m.stack[n..], why);
    m.(stack := m.stack[..n])
     .SetTop(f.(prev := NextLink(f), context := Some(ctx), record := why.code, state := 1))
     .Go(Loop)
  }

  function StepSearch(env: Env, m: Mach, why: Dispatch, p: Ptr): Mach {
    if !IsFrame(m.stack, p) then
      m.Emit(Escaped(why.code)).Go(Halted(PassedOn(why.code)))
    else
      var f := m.stack[p].frame;
      if f.Win32Frame? && m.fs == OS2_SEL then
        // taken for a call along the OS/2 chain: returns 0, "continue execution" to the caller
        m.(stack := SetFrame(m.stack, p, f.(prev := f.prevOs2))).Go(Return)
      else
        EnterFilter(m, why, p)
  }

  /** RtlUnwind's effect on the Win32 chain head: from `h` outward to the frame `target`.
      None when the walk passes the target, where the thread is ended. */
  function RtlUnwind(stack: Stack, h: Ptr, target: Ptr): Option<Ptr>
    decreases h
  {
    if h == target then Some(target)
    else if h < target || !IsFrame(stack, h) then None
    else
      var next := NextLink(stack[h].frame);
      if next < h then RtlUnwind(stack, next, target) else None
  }

  /** The handler takes the exception: unwind both chains to the frame, reload its ESP and
      jump to label 0 in state 2. */
  function Accept(env: Env, m: Mach, p: Ptr): Mach
    requires IsFrame(m.stack, p)
  {
    var f := m.stack[p].frame;
    var n := Cells(f.esp);
    if n != p + 1 then m.Crash() else
    var taken := m.(stack := m.stack[..n]).SetTop(f.(prev := NextLink(f), state := 2)).Go(Loop);
    if f.Os2Frame? then
      taken.(heads := m.heads[OS2_SEL := p])
    else
      match RtlUnwind(m.stack, Head(m.heads, env.tebSel), p)
      case None => m.Crash()
      case Some(h) => taken.(heads := m.heads[env.tebSel := h][OS2_SEL := p])
  }

  /** The handler's second half, after the filter: bring the stack back and act on
      filterResult. Anything but 1 and -1 continues the search. */
  function StepCallback(env: Env, m: Mach): Mach {
    if !m.AtTry() || Last(m.stack).frame.context.None? then m.Crash() else
    var p := |m.stack| - 1;
    var f := Last(m.stack).frame;
    var ctx := f.context.value;
    var b := m.SetTop(f.(context := None));
    var back := b.(stack := b.stack + ctx.cells);
    if f.filterResult == EXECUTE_HANDLER then
      Accept(env, back, p)
    else if f.filterResult == CONTINUE_EXECUTION then
      back.(stack := SetFrame(back.stack, p, f.(context := None, state := 0)), fs := ctx.why.fs).Go(Return)
    else
      back.Go(Search(ctx.why, NextLink(f)))
  }

  // ----- whole steps -----

  function StepExec(env: Env, m: Mach, s: Stmt): Mach {
    match s
    case Skip => m.Go(Return)
    case Do(id) => m.Emit(Did(id)).Go(Return)
    case LoadFS(sel) => m.(fs := sel).Emit(Loaded(sel)).Go(Return)
    case Leave => m.Go(Leaving)
    case Raise(kind, code) => StartSearch(env, m, kind, code)
    case Seq(a, b) => m.Push(KSeq(b)).Go(Exec(a))
    case Choice(id, a, b) => m.Go(Exec(if env.choose(id, m.trace) then a else b))
    case OS2Call(id, callee) =>
      var switched := m.Push(KWrap(id, ToUShort(ToShort(m.fs)), |m.trace|)).(fs := OS2_SEL);
      switched.Emit(Native(id, switched.fs)).Go(Exec(callee))
    case Traced(name, callee) =>
      m.Push(KFn(name, m.fs, |m.trace|)).(calls := m.calls + [name]).Emit(FnEnter(name)).Go(Exec(callee))
    case Try(body, clause, handler) =>
      Install(env, m.Push(KTry(NewFrame(env), clause, body, handler, InBody))).Go(Loop)
  }

  function Step(env: Env, m: Mach): Mach {
    match m.ctl
    case Exec(s) => StepExec(env, m, s)
    case Return => StepReturn(m)
    case Leaving => StepLeave(m)
    case Loop => StepLoop(env, m)
    case Search(why, p) => StepSearch(env, m, why, p)
    case Callback => StepCallback(env, m)
    case Halted(_) => m
  }

  function Steps(env: Env, n: nat, m: Mach): Mach {
    if n == 0 then m else Steps(env, n - 1, Step(env, m))
  }

  lemma {:induction false} StepsAdd(env: Env, a: nat, b: nat, m: Mach)
    ensures Steps(env, a + b, m) == Steps(env, b, Steps(env, a, m))
  {
    if a > 0 { StepsAdd(env, a - 1, b, Step(env, m)); }
  }

  lemma {:induction false} HaltedStays(env: Env, n: nat, m: Mach)
    requires m.ctl.Halted?
    ensures Steps(env, n, m) == m
  {
    if n > 0 { HaltedStays(env, n - 1, m); }
  }
}
