/** How often the blocks of a __try statement run, and in which order its state loop is
    visited. */
module Blocks {
  import opened Selectors
  import opened Programs
  import opened Reference
  import opened Machine
  import opened Invariant
  import opened Lowering

  /** The state in which the loop of the d-th open __try was visited, if `e` is such a visit. */
  function Visit(e: Event, d: nat): seq<int> {
    match e
    case Enter(k) => if k == d then [0] else []
    case Asked(k, _, _) => if k == d then [1] else []
    case Handling(k) => if k == d then [2] else []
    case Removed(k) => if k == d then [3] else []
    case _ => []
  }

  /** The visits of the state loop at nesting depth d, in the order of the record. */
  function States(t: Trace, d: nat): seq<int> {
    if t == [] then [] else States(Init(t), d) + Visit(Last(t), d)
  }

  function Ones(k: nat): seq<int> { seq(k, _ => 1) }

  lemma StatesAppend(t: Trace, e: Event, d: nat)
    ensures States(t + [e], d) == States(t, d) + Visit(e, d)
  {
    assert Init(t + [e]) == t;
  }

  /** `after` has, beyond `before`, k visits at depth d, all in state 1. */
  predicate AsksOnly(before: St, after: St, d: nat, k: nat) {
    States(after.trace, d) == States(before.trace, d) + Ones(k)
  }

  lemma AsksOnlyTrans(a: St, b: St, c: St, d: nat, j: nat, k: nat)
    requires AsksOnly(a, b, d, j) && AsksOnly(b, c, d, k)
    ensures AsksOnly(a, c, d, j + k)
  {
    assert Ones(j) + Ones(k) == Ones(j + k);
  }

  /** What `k` questions to the guard at depth d, asked during a run ending in `out`, mean. */
  predicate KOk(g: Guard, d: nat, out: Out, k: nat) {
    && (g.handling || !g.live ==> k == 0)
    && (out == Caught(d) ==> k > 0)
    && (g.clause.Finally? && !g.handling ==> k == if out == Caught(d) then 1 else 0)
  }

  lemma {:induction false} AskStates(env: Env, kind: Kind, code: int, gs: seq<Guard>, st: St, d: nat)
      returns (k: nat)
    ensures var r := Ask(env, kind, code, gs, st);
      && AsksOnly(st, r.st, d, k)
      && (if d < |gs| then KOk(gs[d], d, r.out, k) else k == 0)
    decreases |gs|
  {
    hide AsksOnly, Verdict;
    if gs == [] {
      k := 0;
      NothingAsked(st, d);
      AsksOnlyThen(st, st, Escaped(code), st.Emit(Escaped(code)), d, 0);
      return;
    }
    var i := |gs| - 1;
    if !Hears(env, kind, gs[i]) {
      k := AskStates(env, kind, code, gs[..i], st, d);
    } else if gs[i].handling {
      k := AskStates(env, kind, code, gs[..i], st.(clean := false), d);
      SameRecordBefore(st, st.(clean := false), Ask(env, kind, code, gs, st).st, d, k);
    } else {
      var answer := Verdict(env, gs[i].clause, code, st.trace);
      var asked := st.Emit(Asked(i, code, answer));
      k := AskedOnce(st, i, code, answer, d);
      FinallyTakes(env, gs[i].clause, code, st.trace);
      if answer != EXECUTE_HANDLER && answer != CONTINUE_EXECUTION {
        var j := AskStates(env, kind, code, gs[..i], asked, d);
        AsksOnlyTrans(st, asked, Ask(env, kind, code, gs, st).st, d, k, j);
        k := k + j;
      } else {
        SameRecord(st, asked, Ask(env, kind, code, gs, st).st, d, k);
      }
    }
    AskCaught(env, kind, code, gs, st);
    AskCaught(env, kind, code, gs[..i], st);
  }

  lemma AskedOnce(st: St, i: nat, code: int, answer: int, d: nat) returns (k: nat)
    ensures k == (if i == d then 1 else 0) && AsksOnly(st, st.Emit(Asked(i, code, answer)), d, k)
  {
    StatesAppend(st.trace, Asked(i, code, answer), d);
    k := if i == d then 1 else 0;
    assert Ones(1) == [1] && Ones(0) == [];
  }

  lemma FinallyTakes(env: Env, clause: Clause, code: int, t: Trace)
    ensures clause.Finally? ==> Verdict(env, clause, code, t) == EXECUTE_HANDLER
  {
  }

  lemma SameRecordBefore(a: St, b: St, c: St, d: nat, k: nat)
    requires AsksOnly(b, c, d, k) && a.trace == b.trace
    ensures AsksOnly(a, c, d, k)
  {
  }

  /** What runs inside an open __try never visits its loop but to ask it. */
  lemma {:induction false} RunStates(env: Env, s: Stmt, gs: seq<Guard>, st: St, d: nat) returns (k: nat)
    requires d < |gs|
    ensures var r := Run(env, s, gs, st); AsksOnly(st, r.st, d, k) && KOk(gs[d], d, r.out, k)
    decreases s, 1
  {
    hide AsksOnly;
    NothingAsked(st, d);
    match s
    case Raise(kind, code) =>
      if Swallowed(env, kind, gs, st.fs) { k := 0; } else { k := AskStates(env, kind, code, gs, st, d); }
    case Seq(a, b) =>
      var ra := Run(env, a, gs, st);
      k := RunStates(env, a, gs, st, d);
      if ra.out.Normal? {
        var j := RunStates(env, b, gs, ra.st, d);
        AsksOnlyTrans(st, ra.st, Run(env, b, gs, ra.st).st, d, k, j);
        k := k + j;
      }
    case Choice(id, a, b) =>
      k := RunStates(env, if env.choose(id, st.trace) then a else b, gs, st, d);
    case OS2Call(id, callee) =>
      var st1 := st.(fs := OS2_SEL).Emit(Native(id, OS2_SEL));
      var r1 := Run(env, callee, gs, st1);
      k := RunStates(env, callee, gs, st1, d);
      AsksOnlyAround(st, st1, Native(id, OS2_SEL), r1.st, d, k);
      if r1.out.Normal? { AsksOnlyThen(st, r1.st, NativeLeave(id, |st.trace|), Run(env, s, gs, st).st, d, k); }
    case Traced(name, callee) =>
      var st1 := st.(calls := st.calls + [name]).Emit(FnEnter(name));
      var r1 := Run(env, callee, gs, st1);
      k := RunStates(env, callee, gs, st1, d);
      AsksOnlyAround(st, st1, FnEnter(name), r1.st, d, k);
      if r1.out.Normal? { AsksOnlyThen(st, r1.st, FnLeave(name, |st.trace|), Run(env, s, gs, st).st, d, k); }
    case Try(_, _, _) => k := TryInside(env, s, gs, st, d);
    case Do(id) =>
      k := 0;
      AsksOnlyThen(st, st, Did(id), st.Emit(Did(id)), d, 0);
    case LoadFS(sel) =>
      k := 0;
      AsksOnlyThen(st, st, Loaded(sel), Run(env, s, gs, st).st, d, 0);
    case _ => k := 0;
  }

  lemma NothingAsked(st: St, d: nat)
    ensures AsksOnly(st, st, d, 0)
  {
  }

  lemma SameRecord(a: St, b: St, c: St, d: nat, k: nat)
    requires AsksOnly(a, b, d, k) && c.trace == b.trace
    ensures AsksOnly(a, c, d, k)
  {
  }

  lemma AsksOnlyThen(a: St, b: St, e: Event, c: St, d: nat, k: nat)
    requires AsksOnly(a, b, d, k) && c.trace == b.trace + [e] && Visit(e, d) == []
    ensures AsksOnly(a, c, d, k)
  {
    StatesAppend(b.trace, e, d);
  }

  lemma AsksOnlyAround(a: St, b: St, e: Event, c: St, d: nat, k: nat)
    requires b.trace == a.trace + [e] && Visit(e, d) == [] && AsksOnly(b, c, d, k)
    ensures AsksOnly(a, c, d, k)
  {
    StatesAppend(a.trace, e, d);
  }

  /** A __try nested deeper than d. */
  lemma {:induction false} TryInside(env: Env, s: Stmt, gs: seq<Guard>, st: St, d: nat) returns (k: nat)
    requires d < |gs| && s.Try?
    ensures var r := Run(env, s, gs, st); AsksOnly(st, r.st, d, k) && KOk(gs[d], d, r.out, k)
    decreases s, 0, 1
  {
    hide AsksOnly;
    var g := Guard(s.clause, LiveAt(env, st.fs), false);
    var st1 := st.Emit(Enter(|gs|));
    var rb := Run(env, s.body, gs + [g], st1);
    var r := Run(env, s, gs, st);
    k := RunStates(env, s.body, gs + [g], st1, d);
    AsksOnlyAround(st, st1, Enter(|gs|), rb.st, d, k);
    if rb.out.Gone? || (rb.out.Caught? && rb.out.depth != |gs|) {
    } else if rb.out.Caught? || s.clause.Finally? {
      var j := HandlerInside(env, s, gs, st.fs, rb.st, d);
      AsksOnlyTrans(st, rb.st, r.st, d, k, j);
      k := k + j;
    } else {
      AsksOnlyThen(st, rb.st, Removed(|gs|), r.st, d, k);
    }
  }

  lemma {:induction false} HandlerInside(env: Env, s: Stmt, gs: seq<Guard>, entryFs: Selector, st: St, d: nat)
      returns (k: nat)
    requires d < |gs| && s.Try?
    ensures var r := RunHandler(env, s, gs, entryFs, st); AsksOnly(st, r.st, d, k) && KOk(gs[d], d, r.out, k)
    decreases s, 0, 0
  {
    hide AsksOnly;
    var g := Guard(s.clause, LiveAt(env, entryFs), true);
    var st1 := st.Emit(Handling(|gs|));
    var h := Run(env, s.handler, gs + [g], st1);
    var r := RunHandler(env, s, gs, entryFs, st);
    k := RunStates(env, s.handler, gs + [g], st1, d);
    AsksOnlyAround(st, st1, Handling(|gs|), h.st, d, k);
    if h.out.Normal? || h.out.Left? {
      AsksOnlyThen(st, h.st, Removed(|gs|), r.st, d, k);
    }
  }

  // ----- one __try statement -----

  /** The loop of a __try is visited in state 0 once, then once in state 1 for each exception
      it is asked about, then in state 2 exactly if the handler block is due (once), and in
      state 3 (once) exactly if the statement is completed. An except block therefore runs
      once if its own filter accepts an exception of its body and otherwise not at all; a
      finally block runs once if its body ends, is left, or has its exception claimed. */
  lemma StateDiscipline(env: Env, s: Stmt, gs: seq<Guard>, st: St) returns (k: nat)
    requires s.Try?
    ensures var d := |gs|;
      var r := Run(env, s, gs, st);
      var body := BodyOf(env, s, gs, st).out;
      && States(r.st.trace, d) == States(st.trace, d) + [0] + Ones(k)
           + (if HandlerDue(s, d, body) then [2] else [])
           + (if r.out.Normal? || r.out.Left? then [3] else [])
      && (body == Caught(d) ==> k > 0)
      && (s.clause.Finally? ==> k == if body == Caught(d) then 1 else 0)
      && (!LiveAt(env, st.fs) ==> k == 0 && body != Caught(d))
      && (!HandlerDue(s, d, body) && (body.Gone? || body.Caught?) ==> r.out == body)
  {
    hide AsksOnly, Run, RunHandler, States;
    var d := |gs|;
    var st1 := st.Emit(Enter(d));
    var gs1 := gs + [Guard(s.clause, LiveAt(env, st.fs), false)];
    var rb := BodyOf(env, s, gs, st);
    var r := Run(env, s, gs, st);
    RunTryRest(env, s, gs, st);
    TryExtends(env, s, gs, st);
    k := RunStates(env, s.body, gs1, st1, d);
    StatesAppend(st.trace, Enter(d), d);
    AsksOnlyUse(st1, rb.st, d, k);
    if HandlerDue(s, d, rb.out) {
      HandlerVisits(env, s, gs, st.fs, rb.st);
    } else if rb.out.Normal? || rb.out.Left? {
      StatesAppend(rb.st.trace, Removed(d), d);
      assert r.st.trace == rb.st.Emit(Removed(d)).trace;
    }
  }

  lemma AsksOnlyUse(a: St, b: St, d: nat, k: nat)
    requires AsksOnly(a, b, d, k)
    ensures States(b.trace, d) == States(a.trace, d) + Ones(k)
  {
  }

  lemma HandlerVisits(env: Env, s: Stmt, gs: seq<Guard>, entryFs: Selector, st: St)
    requires s.Try?
    ensures var d := |gs|;
      var r := RunHandler(env, s, gs, entryFs, st);
      States(r.st.trace, d) == States(st.trace, d) + [2] + if r.out.Normal? || r.out.Left? then [3] else []
  {
    hide AsksOnly, Run, States;
    var d := |gs|;
    var g := Guard(s.clause, LiveAt(env, entryFs), true);
    var st1 := st.Emit(Handling(d));
    var h := Run(env, s.handler, gs + [g], st1);
    var r := RunHandler(env, s, gs, entryFs, st);
    var k := RunStates(env, s.handler, gs + [g], st1, d);
    StatesAppend(st.trace, Handling(d), d);
    AsksOnlyUse(st1, h.st, d, k);
    if h.out.Normal? || h.out.Left? {
      StatesAppend(h.st.trace, Removed(d), d);
      assert r.st.trace == h.st.Emit(Removed(d)).trace;
    }
  }

  // ----- a __finally that can be reached claims every exception of its body -----

  /** No call of RaiseException: exceptions come from the kernel only. */
  predicate HardwareOnly(s: Stmt) {
    match s
    case Raise(kind, _) => kind.Hardware?
    case Seq(a, b) => HardwareOnly(a) && HardwareOnly(b)
    case Choice(_, a, b) => HardwareOnly(a) && HardwareOnly(b)
    case Try(body, _, handler) => HardwareOnly(body) && HardwareOnly(handler)
    case OS2Call(_, callee) => HardwareOnly(callee)
    case Traced(_, callee) => HardwareOnly(callee)
    case _ => true
  }

  /** Every exception that `s` can raise comes by the guard `g`, a __finally. */
  predicate Claims(env: Env, s: Stmt, g: Guard) {
    g.clause.Finally? && g.live && !g.handling && (env.variant.Win32Tib? || HardwareOnly(s))
  }

  lemma {:induction false} ClaimedAsk(env: Env, kind: Kind, code: int, gs: seq<Guard>, st: St, d: nat)
    requires d < |gs| && gs[d].clause.Finally? && !gs[d].handling && Hears(env, kind, gs[d])
    ensures var out := Ask(env, kind, code, gs, st).out; out.Normal? || (out.Caught? && out.depth >= d)
    decreases |gs|
  {
    var i := |gs| - 1;
    if i > d {
      if !Hears(env, kind, gs[i]) {
        ClaimedAsk(env, kind, code, gs[..i], st, d);
      } else if gs[i].handling {
        ClaimedAsk(env, kind, code, gs[..i], st.(clean := false), d);
      } else {
        var answer := Verdict(env, gs[i].clause, code, st.trace);
        ClaimedAsk(env, kind, code, gs[..i], st.Emit(Asked(i, code, answer)), d);
      }
    }
  }

  /** Nothing raised under such a guard gets past it. */
  lemma {:induction false} ClaimedRun(env: Env, s: Stmt, gs: seq<Guard>, st: St, d: nat)
    requires d < |gs| && Claims(env, s, gs[d])
    ensures var out := Run(env, s, gs, st).out; !out.Gone? && (out.Caught? ==> out.depth >= d)
    decreases s, 1
  {
    match s
    case Raise(kind, code) =>
      if !Swallowed(env, kind, gs, st.fs) { ClaimedAsk(env, kind, code, gs, st, d); }
    case Seq(a, b) =>
      ClaimedRun(env, a, gs, st, d);
      ClaimedRun(env, b, gs, Run(env, a, gs, st).st, d);
    case Choice(id, a, b) =>
      ClaimedRun(env, a, gs, st, d);
      ClaimedRun(env, b, gs, st, d);
    case OS2Call(id, callee) =>
      ClaimedRun(env, callee, gs, st.(fs := OS2_SEL).Emit(Native(id, OS2_SEL)), d);
    case Traced(name, callee) =>
      ClaimedRun(env, callee, gs, st.(calls := st.calls + [name]).Emit(FnEnter(name)), d);
    case Try(body, clause, handler) =>
      var g := Guard(clause, LiveAt(env, st.fs), false);
      ClaimedRun(env, body, gs + [g], st.Emit(Enter(|gs|)), d);
      ClaimedHandler(env, s, gs, st.fs, Run(env, body, gs + [g], st.Emit(Enter(|gs|))).st, d);
    case _ =>
  }

  lemma {:induction false} ClaimedHandler(env: Env, s: Stmt, gs: seq<Guard>, entryFs: Selector, st: St, d: nat)
    requires s.Try? && d < |gs| && Claims(env, s, gs[d])
    ensures var out := RunHandler(env, s, gs, entryFs, st).out; !out.Gone? && (out.Caught? ==> out.depth >= d)
    decreases s, 0
  {
    var g := Guard(s.clause, LiveAt(env, entryFs), true);
    ClaimedRun(env, s.handler, gs + [g], st.Emit(Handling(|gs|)), d);
  }

  /** The handler block of a __finally that hears all exceptions of its body comes to run. */
  lemma FinallyIsDue(env: Env, s: Stmt, gs: seq<Guard>, st: St)
    requires s.Try? && s.clause.Finally? && LiveAt(env, st.fs)
    requires env.variant.Win32Tib? || HardwareOnly(s.body)
    ensures HandlerDue(s, |gs|, BodyOf(env, s, gs, st).out)
  {
    var g := Guard(s.clause, LiveAt(env, st.fs), false);
    ClaimedRun(env, s.body, gs + [g], st.Emit(Enter(|gs|)), |gs|);
    RunCaught(env, s.body, gs + [g], st.Emit(Enter(|gs|)));
  }

  // ----- the machine, in clean runs -----

  /** The machine comes to where a clean __try ends, and from the __try on its record visits the
      loop of that frame in state 0, in state 1 once for each exception it is asked about, in
      state 2 (once) exactly if the handler block is due, in state 3 (once) exactly if the
      statement is completed. So an except block runs once if its own filter accepts an
      exception of its body and otherwise not at all. */
  lemma MachineStateDiscipline(env: Env, s: Stmt, m: Mach) returns (n: nat, k: nat)
    requires env.Valid() && Inv(env, m) && m.ctl == Exec(s) && s.Try? && WellFormed(s, false)
    requires RunFrom(env, s, m).st.clean
    ensures var m' := Steps(env, n, m);
      var d := Depth(m.stack);
      var out := RunFrom(env, s, m).out;
      var body := BodyOf(env, s, Guards(env, m.stack), StOf(m)).out;
      && Lands(env, m.stack, RunFrom(env, s, m), m')
      && States(m'.trace, d) == States(m.trace, d) + [0] + Ones(k)
           + (if HandlerDue(s, d, body) then [2] else [])
           + (if out.Normal? || out.Left? then [3] else [])
      && (body == Caught(d) ==> k > 0)
      && (s.clause.Finally? ==> k == if body == Caught(d) then 1 else 0)
      && (!LiveAt(env, m.fs) ==> k == 0 && body != Caught(d))
      && (!HandlerDue(s, d, body) && (body.Gone? || body.Caught?) ==> out == body)
  {
    n := SimTry(env, s, m);
    k := StateDiscipline(env, s, Guards(env, m.stack), StOf(m));
  }

  /** In a clean run a finally block runs exactly once on every way out of its body: normal
      end, __leave, or an exception raised at any depth inside and not claimed further in. What
      it needs: FS is the thread's Win32 selector where the __try is entered (Win32-TIB
      variant), or the exceptions are the kernel's (OS/2 variant). For runs that are not clean
      see FinallyRuns.FinallyWord. */
  lemma FinallyRunsOnce(env: Env, s: Stmt, m: Mach) returns (n: nat, k: nat)
    requires env.Valid() && Inv(env, m) && m.ctl == Exec(s) && s.Try? && WellFormed(s, false)
    requires RunFrom(env, s, m).st.clean
    requires s.clause.Finally? && LiveAt(env, m.fs) && (env.variant.Win32Tib? || HardwareOnly(s.body))
    ensures var m' := Steps(env, n, m);
      var d := Depth(m.stack);
      var out := RunFrom(env, s, m).out;
      && Lands(env, m.stack, RunFrom(env, s, m), m') && k <= 1
      && States(m'.trace, d) == States(m.trace, d) + [0] + Ones(k) + [2] + if out.Normal? then [3] else []
  {
    n, k := MachineStateDiscipline(env, s, m);
    FinallyIsDue(env, s, Guards(env, m.stack), StOf(m));
    NoLeft(env, s, Guards(env, m.stack), StOf(m));
  }
}
