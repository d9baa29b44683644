/** When a run is clean: as a predicate of the structured run, a condition on the text of the
    program that is enough, and one under which it never is. */
module Orderly {
  import opened Selectors
  import opened Programs
  import opened Reference
  import opened Machine
  import opened Invariant
  import opened Lowering
  import opened Correctness

  // ----- the exact condition -----

  /** The search meets no frame whose handler block is running. */
  predicate AskOrderly(env: Env, kind: Kind, code: int, gs: seq<Guard>, st: St)
    decreases |gs|
  {
    if gs == [] then true
    else
      var d := |gs| - 1;
      if !Hears(env, kind, gs[d]) then AskOrderly(env, kind, code, gs[..d], st)
      else
        var answer := Verdict(env, gs[d].clause, code, st.trace);
        && !gs[d].handling
        && (answer == EXECUTE_HANDLER || answer == CONTINUE_EXECUTION ||
              AskOrderly(env, kind, code, gs[..d], st.Emit(Asked(d, code, answer))))
  }

  /** No exception is offered to a __try whose except or finally block is running, and no
      __leave ends anything but the body of a __try/__finally. */
  predicate OrderlyRun(env: Env, s: Stmt, gs: seq<Guard>, st: St)
    decreases s, 1
  {
    match s
    case Raise(kind, code) => Swallowed(env, kind, gs, st.fs) || AskOrderly(env, kind, code, gs, st)
    case Seq(a, b) =>
      && OrderlyRun(env, a, gs, st)
      && var r := Run(env, a, gs, st); (r.out.Normal? ==> OrderlyRun(env, b, gs, r.st))
    case Choice(id, a, b) =>
      if env.choose(id, st.trace) then OrderlyRun(env, a, gs, st) else OrderlyRun(env, b, gs, st)
    case OS2Call(id, callee) => OrderlyRun(env, callee, gs, st.(fs := OS2_SEL).Emit(Native(id, OS2_SEL)))
    case Traced(name, callee) =>
      OrderlyRun(env, callee, gs, st.(calls := st.calls + [name]).Emit(FnEnter(name)))
    case Try(body, clause, handler) =>
      var r := BodyOf(env, s, gs, st);
      && OrderlyRun(env, body, gs + [Guard(clause, LiveAt(env, st.fs), false)], st.Emit(Enter(|gs|)))
      && (r.out.Left? ==> clause.Finally?)
      && (HandlerDue(s, |gs|, r.out) ==> OrderlyHandler(env, s, gs, st.fs, r.st))
    case _ => true
  }

  predicate OrderlyHandler(env: Env, s: Stmt, gs: seq<Guard>, entryFs: Selector, st: St)
    requires s.Try?
    decreases s, 0
  {
    var g := Guard(s.clause, LiveAt(env, entryFs), true);
    var st1 := st.Emit(Handling(|gs|));
    OrderlyRun(env, s.handler, gs + [g], st1) && !Run(env, s.handler, gs + [g], st1).out.Left?
  }

  lemma {:induction false} AskIsOrderly(env: Env, kind: Kind, code: int, gs: seq<Guard>, st: St)
    ensures Ask(env, kind, code, gs, st).st.clean <==> st.clean && AskOrderly(env, kind, code, gs, st)
    decreases |gs|
  {
    if gs != [] {
      var d := |gs| - 1;
      AskIsOrderly(env, kind, code, gs[..d], st);
      AskUnclean(env, kind, code, gs[..d], st.(clean := false));
      AskIsOrderly(env, kind, code, gs[..d], st.Emit(Asked(d, code, Verdict(env, gs[d].clause, code, st.trace))));
    }
  }

  /** The flag that a structured run carries says just this of the run. */
  lemma {:induction false} CleanIsOrderly(env: Env, s: Stmt, gs: seq<Guard>, st: St)
    ensures Run(env, s, gs, st).st.clean <==> st.clean && OrderlyRun(env, s, gs, st)
    decreases s, 1
  {
    hide RunHandler, OrderlyHandler, Ask, AskOrderly;
    match s
    case Raise(kind, code) => AskIsOrderly(env, kind, code, gs, st);
    case Seq(a, b) =>
      CleanIsOrderly(env, a, gs, st);
      CleanIsOrderly(env, b, gs, Run(env, a, gs, st).st);
    case Choice(id, a, b) => CleanIsOrderly(env, if env.choose(id, st.trace) then a else b, gs, st);
    case OS2Call(id, callee) => CleanIsOrderly(env, callee, gs, st.(fs := OS2_SEL).Emit(Native(id, OS2_SEL)));
    case Traced(name, callee) =>
      CleanIsOrderly(env, callee, gs, st.(calls := st.calls + [name]).Emit(FnEnter(name)));
    case Try(body, clause, handler) =>
      var g := Guard(clause, LiveAt(env, st.fs), false);
      var r := Run(env, body, gs + [g], st.Emit(Enter(|gs|)));
      CleanIsOrderly(env, body, gs + [g], st.Emit(Enter(|gs|)));
      HandlerIsOrderly(env, s, gs, st.fs, r.st);
    case _ =>
  }

  lemma {:induction false} HandlerIsOrderly(env: Env, s: Stmt, gs: seq<Guard>, entryFs: Selector, st: St)
    requires s.Try?
    ensures RunHandler(env, s, gs, entryFs, st).st.clean <==> st.clean && OrderlyHandler(env, s, gs, entryFs, st)
    decreases s, 0
  {
    var g := Guard(s.clause, LiveAt(env, entryFs), true);
    CleanIsOrderly(env, s.handler, gs + [g], st.Emit(Handling(|gs|)));
  }

  /** The machine comes to where the structured run ends if and only if that run is orderly. */
  lemma MeansWhatItSays(env: Env, s: Stmt, inTry: bool, m: Mach)
    requires env.Valid() && Inv(env, m) && m.ctl == Exec(s) && WellFormed(s, inTry)
    ensures OrderlyRun(env, s, Guards(env, m.stack), StOf(m)) <==>
      exists n: nat :: Lands(env, m.stack, RunFrom(env, s, m), Steps(env, n, m))
  {
    hide Inv, OrderlyRun, Lands;
    LoweringPreservesMeaning(env, s, inTry, m);
    CleanIsOrderly(env, s, Guards(env, m.stack), StOf(m));
  }

  // ----- programs that are always clean -----

  predicate RaiseFree(s: Stmt) {
    match s
    case Raise(_, _) => false
    case Seq(a, b) => RaiseFree(a) && RaiseFree(b)
    case Choice(_, a, b) => RaiseFree(a) && RaiseFree(b)
    case Try(body, _, handler) => RaiseFree(body) && RaiseFree(handler)
    case OS2Call(_, callee) => RaiseFree(callee)
    case Traced(_, callee) => RaiseFree(callee)
    case _ => true
  }

  /** Except and finally blocks raise nothing, and __leave only ends bodies of a
      __try/__finally (`leaves`: the innermost __try of this function is one). */
  predicate Quiet(s: Stmt, leaves: bool) {
    match s
    case Leave => leaves
    case Seq(a, b) => Quiet(a, leaves) && Quiet(b, leaves)
    case Choice(_, a, b) => Quiet(a, leaves) && Quiet(b, leaves)
    case Try(body, clause, handler) =>
      Quiet(body, clause.Finally?) && Quiet(handler, false) && RaiseFree(handler)
    case OS2Call(_, callee) => Quiet(callee, false)
    case Traced(_, callee) => Quiet(callee, false)
    case _ => true
  }

  predicate NoneHandling(gs: seq<Guard>) {
    forall i :: 0 <= i < |gs| ==> !gs[i].handling
  }

  lemma {:induction false} AskClean(env: Env, kind: Kind, code: int, gs: seq<Guard>, st: St)
    requires NoneHandling(gs)
    ensures Ask(env, kind, code, gs, st).st.clean == st.clean
    decreases |gs|
  {
    if gs != [] {
      var d := |gs| - 1;
      AskClean(env, kind, code, gs[..d], st);
      AskClean(env, kind, code, gs[..d], st.Emit(Asked(d, code, Verdict(env, gs[d].clause, code, st.trace))));
    }
  }

  /** A condition on the text of the program alone under which every run stays clean,
      whatever the filters answer. */
  lemma {:induction false} QuietIsClean(env: Env, s: Stmt, leaves: bool, gs: seq<Guard>, st: St)
    requires Quiet(s, leaves) && (RaiseFree(s) || NoneHandling(gs))
    ensures var r := Run(env, s, gs, st); r.st.clean == st.clean && (r.out.Left? ==> leaves)
    ensures RaiseFree(s) ==> var r := Run(env, s, gs, st); r.out.Normal? || r.out.Left?
  {
    match s
    case Raise(kind, code) =>
      AskClean(env, kind, code, gs, st);
      AskCaught(env, kind, code, gs, st);
    case Seq(a, b) =>
      QuietIsClean(env, a, leaves, gs, st);
      QuietIsClean(env, b, leaves, gs, Run(env, a, gs, st).st);
    case Choice(id, a, b) =>
      QuietIsClean(env, a, leaves, gs, st);
      QuietIsClean(env, b, leaves, gs, st);
    case OS2Call(id, callee) =>
      QuietIsClean(env, callee, false, gs, st.(fs := OS2_SEL).Emit(Native(id, OS2_SEL)));
    case Traced(name, callee) =>
      QuietIsClean(env, callee, false, gs, st.(calls := st.calls + [name]).Emit(FnEnter(name)));
    case Try(body, clause, handler) =>
      var g := Guard(clause, LiveAt(env, st.fs), false);
      var st1 := st.Emit(Enter(|gs|));
      QuietIsClean(env, body, clause.Finally?, gs + [g], st1);
      var rb := Run(env, body, gs + [g], st1);
      var h := Guard(clause, LiveAt(env, st.fs), true);
      QuietIsClean(env, handler, false, gs + [h], rb.st.Emit(Handling(|gs|)));
    case _ =>
  }

  // ----- handler blocks that never are -----

  /** Raises nothing and comes to its end. */
  predicate Harmless(s: Stmt) { RaiseFree(s) && Quiet(s, false) }

  /** Comes to a fault whatever the filters and branches do, under no __try of its own. */
  predicate AlwaysRaises(s: Stmt) {
    match s
    case Raise(kind, _) => kind.Hardware?
    case Seq(a, b) => AlwaysRaises(a) || (Harmless(a) && AlwaysRaises(b))
    case Choice(_, a, b) => AlwaysRaises(a) && AlwaysRaises(b)
    case OS2Call(_, callee) => AlwaysRaises(callee)
    case Traced(_, callee) => AlwaysRaises(callee)
    case _ => false
  }

  lemma HarmlessEnds(env: Env, s: Stmt, gs: seq<Guard>, st: St)
    requires Harmless(s)
    ensures var r := Run(env, s, gs, st); r.out.Normal? && r.st.clean == st.clean
  {
    QuietIsClean(env, s, false, gs, st);
  }

  lemma {:induction false} RaiserIsUnclean(env: Env, s: Stmt, gs: seq<Guard>, st: St)
    requires AlwaysRaises(s) && gs != [] && Last(gs).handling && Hears(env, Hardware, Last(gs))
    ensures !Run(env, s, gs, st).st.clean
  {
    match s
    case Raise(kind, code) => AskUnclean(env, kind, code, gs[..|gs| - 1], st.(clean := false));
    case Seq(a, b) =>
      var ra := Run(env, a, gs, st);
      if AlwaysRaises(a) {
        RaiserIsUnclean(env, a, gs, st);
        RunExtends(env, b, gs, ra.st);
      } else {
        HarmlessEnds(env, a, gs, st);
        RaiserIsUnclean(env, b, gs, ra.st);
      }
    case Choice(id, a, b) => RaiserIsUnclean(env, if env.choose(id, st.trace) then a else b, gs, st);
    case OS2Call(id, callee) => RaiserIsUnclean(env, callee, gs, st.(fs := OS2_SEL).Emit(Native(id, OS2_SEL)));
    case Traced(name, callee) =>
      RaiserIsUnclean(env, callee, gs, st.(calls := st.calls + [name]).Emit(FnEnter(name)));
  }

  /** The other way round from QuietIsClean: a __try whose handler block comes to run and is
      bound to fault is never clean, whatever its filter answers, if its frame hears faults. */
  lemma RaisingHandlerIsUnclean(env: Env, s: Stmt, gs: seq<Guard>, entryFs: Selector, st: St)
    requires s.Try? && AlwaysRaises(s.handler) && LiveAt(env, entryFs)
    ensures !RunHandler(env, s, gs, entryFs, st).st.clean
  {
    RaiserIsUnclean(env, s.handler, gs + [Guard(s.clause, true, true)], st.Emit(Handling(|gs|)));
  }
}
