/** Source programs that use the macros of include/excpt.h and the call wrappers,
    the events a run leaves behind, and the surroundings a run depends on. */
module Programs {
  import opened Selectors

  /** Which of the two macro sets of include/excpt.h is compiled in. */
  datatype Variant = Win32Tib | Os2Only

  /** A fault or other exception delivered by the OS/2 kernel, or a call of RaiseException. */
  datatype Kind = Hardware | Software

  /** What follows the guarded body. */
  datatype Clause = Except(filter: nat) | Finally

  datatype Stmt =
    | Skip
    | Do(id: nat)                                      // an observable action
    | Raise(kind: Kind, code: int)
    | Seq(first: Stmt, second: Stmt)
    | Choice(id: nat, yes: Stmt, no: Stmt)             // a data-dependent branch
    | Try(body: Stmt, clause: Clause, handler: Stmt)
    | Leave                                            // __leave
    | LoadFS(sel: Selector)                            // code that leaves FS changed
    | OS2Call(id: nat, callee: Stmt)                   // inline wrapper of include/os2wrap.h
    | Traced(name: nat, callee: Stmt)                  // ODINFUNCTIONn of include/odinwrap.h

  /** One entry of the record of a run. `depth` numbers the __try statements that are
      open around the one meant. Enter, Asked, Handling and Removed are the visits of the
      state loop in state 0, 1, 2 and 3. */
  datatype Event =
    | Did(id: nat)
    | Enter(depth: nat)
    | Asked(depth: nat, code: int, answer: int)
    | Handling(depth: nat)
    | Removed(depth: nat)
    | Loaded(sel: Selector)                            // code has left FS changed
    | Native(id: nat, fs: Selector)                    // a native callee starts, with this FS
    | NativeLeave(id: nat, call: nat)                  // its wrapper has returned
    | FnEnter(name: nat)
    | FnLeave(name: nat, call: nat)                    // `call`: where in the record it was entered
    | Escaped(code: int)                               // no frame of the program took it

  type Trace = seq<Event>

  function Init<T>(s: seq<T>): seq<T> requires s != [] { s[..|s| - 1] }
  function Last<T>(s: seq<T>): T requires s != [] { s[|s| - 1] }

  /** What a run depends on and does not change. Pointers are cell numbers of the
      modelled stack; the entry chains lie outside it and so have negative numbers. */
  datatype Env = Env(
    variant: Variant,
    tebSel: Selector,                                  // the thread's Win32 TIB selector
    baseOs2: int,                                      // OS/2 chain head at thread entry
    baseWin32: int,                                    // Win32 chain head at thread entry
    answer: (nat, int, Trace) -> int,                  // filter expressions
    choose: (nat, Trace) -> bool)
  {
    predicate Valid() {
      tebSel != OS2_SEL && baseOs2 < 0 && baseWin32 < 0
    }
  }

  /** What the C compiler itself demands: `continue`, which __leave expands to, needs an
      enclosing loop of the same function. */
  predicate WellFormed(s: Stmt, inTry: bool) {
    match s
    case Seq(a, b) => WellFormed(a, inTry) && WellFormed(b, inTry)
    case Choice(_, a, b) => WellFormed(a, inTry) && WellFormed(b, inTry)
    case Try(body, _, handler) => WellFormed(body, true) && WellFormed(handler, true)
    case Leave => inTry
    case OS2Call(_, callee) => WellFormed(callee, false)
    case Traced(_, callee) => WellFormed(callee, false)
    case _ => true
  }

  /** The value left in filterResult: the filter expression's, or
      EXCEPTION_EXECUTE_HANDLER for a __finally. */
  function Verdict(env: Env, clause: Clause, code: int, trace: Trace): int {
    match clause
    case Except(f) => env.answer(f, code, trace)
    case Finally => EXECUTE_HANDLER
  }

  const EXECUTE_HANDLER := 1
  const CONTINUE_EXECUTION := -1
}
