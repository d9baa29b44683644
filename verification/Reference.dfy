/** What a program means, without frames, chains or jumps: a recursion over its structure
    that knows the __try statements open around the statement being run. */
module Reference {
  import opened Selectors
  import opened Programs

  /** An open __try. `live`: an exception search comes by it. `handling`: its except or
      finally block is running, so it no longer guards anything. */
  datatype Guard = Guard(clause: Clause, live: bool, handling: bool)

  /** `clean` is false once the run has done something whose structured meaning the
      macros do not promise (see Run and Ask). */
  datatype St = St(trace: Trace, fs: Selector, calls: seq<nat>, clean: bool) {
    function Emit(e: Event): St { this.(trace := trace + [e]) }
  }

  datatype Out = Normal | Left | Caught(depth: nat) | Gone

  datatype Res = Res(out: Out, st: St)

  predicate Hears(env: Env, kind: Kind, g: Guard) {
    g.live && (env.variant.Os2Only? ==> kind.Hardware?)
  }

  predicate AnyHears(env: Env, kind: Kind, gs: seq<Guard>) {
    exists i :: 0 <= i < |gs| && Hears(env, kind, gs[i])
  }

  /** FS in the block that takes an exception. */
  function CaughtFs(env: Env, kind: Kind, fs: Selector): Selector {
    match env.variant
    case Win32Tib => if kind.Hardware? then env.tebSel else fs
    case Os2Only => OS2_SEL
  }

  /** Asks the guards, innermost first, who takes the exception. A guard whose own handler
      block is running is passed over; that marks the run as not clean. */
  function Ask(env: Env, kind: Kind, code: int, gs: seq<Guard>, st: St): Res
    decreases |gs|
  {
    if gs == [] then
      Res(Gone, st.Emit(Escaped(code)))
    else
      var d := |gs| - 1;
      if !Hears(env, kind, gs[d]) then
        Ask(env, kind, code, gs[..d], st)
      else if gs[d].handling then
        Ask(env, kind, code, gs[..d], st.(clean := false))
      else
        var answer := Verdict(env, gs[d].clause, code, st.trace);
        var asked := st.Emit(Asked(d, code, answer));
        if answer == EXECUTE_HANDLER then
          Res(Caught(d), asked.(fs := CaughtFs(env, kind, st.fs)))
        else if answer == CONTINUE_EXECUTION then
          Res(Normal, asked)
        else
          Ask(env, kind, code, gs[..d], asked)
  }

  /** RaiseException called with FS on the OS/2 selector is answered "continue execution"
      by the first Win32 frame, without any filter being asked. */
  predicate Swallowed(env: Env, kind: Kind, gs: seq<Guard>, fs: Selector) {
    env.variant.Win32Tib? && kind.Software? && fs == OS2_SEL && AnyHears(env, kind, gs)
  }

  function Run(env: Env, s: Stmt, gs: seq<Guard>, st: St): Res
    decreases s, 1
  {
    match s
    case Skip => Res(Normal, st)
    case Do(id) => Res(Normal, st.Emit(Did(id)))
    case LoadFS(sel) => Res(Normal, st.(fs := sel).Emit(Loaded(sel)))
    case Leave => Res(Left, st)
    case Raise(kind, code) =>
      if Swallowed(env, kind, gs, st.fs) then Res(Normal, st) else Ask(env, kind, code, gs, st)
    case Seq(a, b) =>
      var r := Run(env, a, gs, st);
      if r.out.Normal? then Run(env, b, gs, r.st) else r
    case Choice(id, a, b) =>
      if env.choose(id, st.trace) then Run(env, a, gs, st) else Run(env, b, gs, st)
    case OS2Call(id, callee) =>
      var r := Run(env, callee, gs, st.(fs := OS2_SEL).Emit(Native(id, OS2_SEL)));
      if r.out.Normal? then Res(Normal, r.st.(fs := st.fs).Emit(NativeLeave(id, |st.trace|))) else r
    case Traced(name, callee) =>
      var r := Run(env, callee, gs, st.(calls := st.calls + [name]).Emit(FnEnter(name)));
      if r.out.Normal? then
        Res(Normal, Returned(name, st, r.st))
      else r
    case Try(body, clause, handler) =>
      var d := |gs|;
      var g := Guard(clause, LiveAt(env, st.fs), false);
      var r := Run(env, body, gs + [g], st.Emit(Enter(d)));
      match r.out
      case Gone => r
      case Normal =>
        if clause.Finally? then RunHandler(env, s, gs, st.fs, r.st)
        else Res(Normal, Close(env, d, st.fs, r.st))
      case Left =>
        if clause.Finally? then RunHandler(env, s, gs, st.fs, r.st)
        else Res(Normal, Close(env, d, st.fs, r.st.(clean := false)))
      case Caught(k) =>
        if k == d then RunHandler(env, s, gs, st.fs, r.st) else r
  }

  /** The except or finally block, after the body of `s`, entered with FS = `entryFs`. */
  function RunHandler(env: Env, s: Stmt, gs: seq<Guard>, entryFs: Selector, st: St): Res
    requires s.Try?
    decreases s, 0
  {
    var d := |gs|;
    var g := Guard(s.clause, LiveAt(env, entryFs), true);
    var h := Run(env, s.handler, gs + [g], st.Emit(Handling(d)));
    match h.out
    case Normal => Res(Normal, Close(env, d, entryFs, h.st))
    case Left => Res(Left, Close(env, d, entryFs, h.st.(clean := false)))
    case _ => h
  }

  /** The body of `s`, run with its own guard. */
  function BodyOf(env: Env, s: Stmt, gs: seq<Guard>, st: St): Res
    requires s.Try?
  {
    Run(env, s.body, gs + [Guard(s.clause, LiveAt(env, st.fs), false)], st.Emit(Enter(|gs|)))
  }

  /** The handler block is to run: its own frame took an exception, or it is a __finally
      whose body has come to its end or to a __leave. */
  predicate HandlerDue(s: Stmt, d: nat, body: Out)
    requires s.Try?
  {
    body == Caught(d) || (s.clause.Finally? && (body.Normal? || body.Left?))
  }

  /** A __try entered while FS is not the thread's Win32 selector is on no Win32 chain. */
  predicate LiveAt(env: Env, fs: Selector) {
    env.variant.Win32Tib? ==> fs == env.tebSel
  }

  /** The end of a __try statement: only the Win32-TIB variant puts FS back. */
  function Close(env: Env, d: nat, entryFs: Selector, st: St): St {
    st.(fs := if env.variant.Win32Tib? then entryFs else st.fs).Emit(Removed(d))
  }

  /** The end of an instrumented function that was entered at `before`: the newest entry of
      the call trace goes, and FS is what it was. */
  function Returned(name: nat, before: St, after: St): St {
    after.(fs := before.fs, calls := if after.calls == [] then [] else Init(after.calls))
      .Emit(FnLeave(name, |before.trace|))
  }
}
