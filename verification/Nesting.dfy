/** Calls in the record of a structured run: wrapped OS/2 calls and instrumented functions
    return in the order of a stack. */
module Nesting {
  import opened Selectors
  import opened Programs
  import opened Reference

  /** The return of the call that was entered at `e.call`. */
  predicate Returns(e: Event) { e.FnLeave? || e.NativeLeave? }

  /** The structured run has added no return of a call entered before it, and its calls and
      returns are nested. */
  predicate Late(a: St, b: St) {
    && a.trace <= b.trace
    && (forall l :: |a.trace| <= l < |b.trace| && Returns(b.trace[l]) ==> |a.trace| <= b.trace[l].call < l)
    && NestedFrom(b.trace, |a.trace|)
  }

  /** What returns inside a call was entered inside it. */
  predicate NestedFrom(t: Trace, b: nat) {
    forall k, l :: b <= k < l < |t| && Returns(t[k]) && Returns(t[l]) && t[l].call <= k ==> t[l].call < t[k].call
  }

  lemma LateTrans(a: St, b: St, c: St)
    requires Late(a, b) && Late(b, c)
    ensures Late(a, c)
  {
    forall l | |a.trace| <= l < |c.trace| && Returns(c.trace[l]) ensures |a.trace| <= c.trace[l].call < l {
      if l < |b.trace| { assert b.trace[l] == c.trace[l]; }
    }
    forall k, l | |a.trace| <= k < l < |c.trace| && Returns(c.trace[k]) && Returns(c.trace[l]) && c.trace[l].call <= k
      ensures c.trace[l].call < c.trace[k].call
    {
      if l < |b.trace| { assert b.trace[l] == c.trace[l] && b.trace[k] == c.trace[k]; }
    }
  }

  lemma LateEmit(a: St, b: St, c: St, e: Event)
    requires Late(a, b) && c.trace == b.trace + [e] && !Returns(e)
    ensures Late(a, c)
  {
    forall k, l | |a.trace| <= k < l < |c.trace| && Returns(c.trace[k]) && Returns(c.trace[l]) && c.trace[l].call <= k
      ensures c.trace[l].call < c.trace[k].call
    {
      assert b.trace[l] == c.trace[l] && b.trace[k] == c.trace[k];
    }
  }

  /** A call from its entry to its return. */
  lemma LateCall(a: St, b: St, c: St, d: St, e: Event)
    requires |b.trace| == |a.trace| + 1 && a.trace <= b.trace && !Returns(b.trace[|a.trace|])
    requires Late(b, c) && d.trace == c.trace + [e] && Returns(e) && e.call == |a.trace|
    ensures Late(a, d)
  {
    forall k, l | |a.trace| <= k < l < |d.trace| && Returns(d.trace[k]) && Returns(d.trace[l]) && d.trace[l].call <= k
      ensures d.trace[l].call < d.trace[k].call
    {
      assert c.trace[k] == d.trace[k] && k >= |b.trace|;
      if l < |c.trace| { assert c.trace[l] == d.trace[l]; }
    }
    forall l | |a.trace| <= l < |d.trace| && Returns(d.trace[l]) ensures |a.trace| <= d.trace[l].call < l {
      if l < |c.trace| { assert c.trace[l] == d.trace[l] && l >= |b.trace|; }
    }
  }

  lemma LateSelf(a: St, b: St)
    requires a.trace == b.trace
    ensures Late(a, b)
  {
  }

  lemma {:induction false} AskLate(env: Env, kind: Kind, code: int, gs: seq<Guard>, st: St)
    ensures Late(st, Ask(env, kind, code, gs, st).st)
    decreases |gs|
  {
    if gs != [] {
      var d := |gs| - 1;
      var asked := st.Emit(Asked(d, code, Verdict(env, gs[d].clause, code, st.trace)));
      AskLate(env, kind, code, gs[..d], st);
      AskLate(env, kind, code, gs[..d], st.(clean := false));
      AskLate(env, kind, code, gs[..d], asked);
      LateTrans(st, asked, Ask(env, kind, code, gs[..d], asked).st);
    }
  }

  lemma {:induction false} RunLate(env: Env, s: Stmt, gs: seq<Guard>, st: St)
    ensures Late(st, Run(env, s, gs, st).st)
    decreases s, 1
  {
    hide Late, RunHandler;
    var r := Run(env, s, gs, st).st;
    LateSelf(st, st);
    match s
    case Do(id) => LateEmit(st, st, r, Did(id));
    case LoadFS(sel) => LateEmit(st, st, r, Loaded(sel));
    case Raise(kind, code) => AskLate(env, kind, code, gs, st);
    case Seq(a, b) =>
      var ra := Run(env, a, gs, st).st;
      RunLate(env, a, gs, st);
      RunLate(env, b, gs, ra);
      LateTrans(st, ra, Run(env, b, gs, ra).st);
    case Choice(id, a, b) => RunLate(env, if env.choose(id, st.trace) then a else b, gs, st);
    case OS2Call(id, callee) =>
      var st1 := st.(fs := OS2_SEL).Emit(Native(id, OS2_SEL));
      LateEmit(st, st, st1, Native(id, OS2_SEL));
      var r1 := Run(env, callee, gs, st1);
      RunLate(env, callee, gs, st1);
      LateTrans(st, st1, r1.st);
      if r1.out.Normal? { LateCall(st, st1, r1.st, r, NativeLeave(id, |st.trace|)); }
    case Traced(name, callee) =>
      var st1 := st.(calls := st.calls + [name]).Emit(FnEnter(name));
      var r1 := Run(env, callee, gs, st1);
      LateEmit(st, st, st1, FnEnter(name));
      RunLate(env, callee, gs, st1);
      LateTrans(st, st1, r1.st);
      if r1.out.Normal? { LateCall(st, st1, r1.st, r, FnLeave(name, |st.trace|)); }
    case Try(_, _, _) => TryLate(env, s, gs, st);
    case _ =>
  }

  lemma {:induction false} TryLate(env: Env, s: Stmt, gs: seq<Guard>, st: St)
    requires s.Try?
    ensures Late(st, Run(env, s, gs, st).st)
    decreases s, 0, 1
  {
    hide Late, RunHandler;
    var st1 := st.Emit(Enter(|gs|));
    var rb := Run(env, s.body, gs + [Guard(s.clause, LiveAt(env, st.fs), false)], st1);
    LateSelf(st, st);
    LateEmit(st, st, st1, Enter(|gs|));
    RunLate(env, s.body, gs + [Guard(s.clause, LiveAt(env, st.fs), false)], st1);
    LateTrans(st, st1, rb.st);
    HandlerLate(env, s, gs, st.fs, rb.st);
    LateTrans(st, rb.st, RunHandler(env, s, gs, st.fs, rb.st).st);
    var c := Close(env, |gs|, st.fs, rb.st);
    LateEmit(st, rb.st, c, Removed(|gs|));
    LateEmit(st, rb.st, c.(clean := false), Removed(|gs|));
  }

  lemma {:induction false} HandlerLate(env: Env, s: Stmt, gs: seq<Guard>, entryFs: Selector, st: St)
    requires s.Try?
    ensures Late(st, RunHandler(env, s, gs, entryFs, st).st)
    decreases s, 0, 0
  {
    hide Late;
    var st1 := st.Emit(Handling(|gs|));
    var h := Run(env, s.handler, gs + [Guard(s.clause, LiveAt(env, entryFs), true)], st1);
    LateSelf(st, st);
    LateEmit(st, st, st1, Handling(|gs|));
    RunLate(env, s.handler, gs + [Guard(s.clause, LiveAt(env, entryFs), true)], st1);
    LateTrans(st, st1, h.st);
    var c := Close(env, |gs|, entryFs, h.st);
    LateEmit(st, h.st, c, Removed(|gs|));
    LateEmit(st, h.st, c.(clean := false), Removed(|gs|));
  }
}
