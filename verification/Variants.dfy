/** The two macro sets of include/excpt.h against each other on the structured runs: when their
    records are the same. */
module Variants {
  import opened Selectors
  import opened Programs
  import opened Reference
  import opened Machine
  import opened Invariant
  import opened Lowering
  import opened Correctness
  import opened Laws
  import opened Blocks
  import opened Lockstep

  // ----- when the two mean the same -----

  /** The search for a fault comes to no frame that it passes over, one that was installed
      while FS was not the thread's Win32 selector. */
  predicate AskAligned(env: Env, code: int, gs: seq<Guard>, st: St)
    decreases |gs|
  {
    if gs == [] then true
    else
      var d := |gs| - 1;
      var answer := Verdict(env, gs[d].clause, code, st.trace);
      var asked := if gs[d].handling then st else st.Emit(Asked(d, code, answer));
      && gs[d].live
      && ((!gs[d].handling && (answer == EXECUTE_HANDLER || answer == CONTINUE_EXECUTION)) ||
            AskAligned(env, code, gs[..d], asked))
  }

  /** A run of the Win32-TIB variant in which no search passes a frame over, and every call of
      RaiseException is heard by nobody. */
  predicate AlignedRun(env: Env, s: Stmt, gs: seq<Guard>, st: St)
    decreases s, 1
  {
    match s
    case Raise(kind, code) =>
      if kind.Hardware? then AskAligned(env, code, gs, st) else !AnyHears(env, Software, gs)
    case Seq(a, b) =>
      && AlignedRun(env, a, gs, st)
      && var r := Run(env, a, gs, st); (r.out.Normal? ==> AlignedRun(env, b, gs, r.st))
    case Choice(id, a, b) =>
      if env.choose(id, st.trace) then AlignedRun(env, a, gs, st) else AlignedRun(env, b, gs, st)
    case OS2Call(id, callee) => AlignedRun(env, callee, gs, st.(fs := OS2_SEL).Emit(Native(id, OS2_SEL)))
    case Traced(name, callee) =>
      AlignedRun(env, callee, gs, st.(calls := st.calls + [name]).Emit(FnEnter(name)))
    case Try(body, clause, handler) =>
      var r := BodyOf(env, s, gs, st);
      && AlignedRun(env, body, gs + [Guard(clause, LiveAt(env, st.fs), false)], st.Emit(Enter(|gs|)))
      && (HandlerDue(s, |gs|, r.out) ==> AlignedHandler(env, s, gs, st.fs, r.st))
    case _ => true
  }

  predicate AlignedHandler(env: Env, s: Stmt, gs: seq<Guard>, entryFs: Selector, st: St)
    requires s.Try?
    decreases s, 0
  {
    AlignedRun(env, s.handler, gs + [Guard(s.clause, LiveAt(env, entryFs), true)], st.Emit(Handling(|gs|)))
  }

  /** Equal but for FS. */
  predicate Agree(a: Res, b: Res) {
    a.out == b.out && AgreeSt(a.st, b.st)
  }

  predicate AgreeSt(a: St, b: St) {
    (a.trace, a.calls, a.clean) == (b.trace, b.calls, b.clean)
  }

  /** The same open __try statements, in the OS/2 variant, where all of them are on the chain. */
  function Enlivened(gs: seq<Guard>): (r: seq<Guard>)
    ensures |r| == |gs|
  {
    seq(|gs|, i requires 0 <= i < |gs| => gs[i].(live := true))
  }

  lemma EnlivenedMore(gs: seq<Guard>, g: Guard)
    ensures Enlivened(gs + [g]) == Enlivened(gs) + [g.(live := true)]
  {
  }

  lemma EnlivenedLess(gs: seq<Guard>)
    requires gs != []
    ensures Enlivened(gs[..|gs| - 1]) == Enlivened(gs)[..|gs| - 1]
  {
  }

  lemma {:induction false} AskAgrees(env: Env, code: int, gs: seq<Guard>, a: St, b: St)
    requires env.variant.Win32Tib? && AgreeSt(a, b) && AskAligned(env, code, gs, a)
    ensures Agree(Ask(env, Hardware, code, gs, a), Ask(Other(env), Hardware, code, Enlivened(gs), b))
    decreases |gs|
  {
    if gs != [] {
      var d := |gs| - 1;
      EnlivenedLess(gs);
      var answer := Verdict(env, gs[d].clause, code, a.trace);
      if gs[d].handling {
        AskOnlyTrace(env, code, gs[..d], a, a.(clean := false));
        AskAgrees(env, code, gs[..d], a.(clean := false), b.(clean := false));
      } else if answer != EXECUTE_HANDLER && answer != CONTINUE_EXECUTION {
        AskAgrees(env, code, gs[..d], a.Emit(Asked(d, code, answer)), b.Emit(Asked(d, code, answer)));
      }
    }
  }

  lemma {:induction false} AskOnlyTrace(env: Env, code: int, gs: seq<Guard>, a: St, b: St)
    requires a.trace == b.trace
    ensures AskAligned(env, code, gs, a) == AskAligned(env, code, gs, b)
    decreases |gs|
  {
    if gs != [] {
      var d := |gs| - 1;
      var e := Asked(d, code, Verdict(env, gs[d].clause, code, a.trace));
      AskOnlyTrace(env, code, gs[..d], a, b);
      AskOnlyTrace(env, code, gs[..d], a.Emit(e), b.Emit(e));
    }
  }

  /** Where nobody hears, the exception goes to the given chain unasked. */
  lemma {:induction false} AskNobody(env: Env, kind: Kind, code: int, gs: seq<Guard>, st: St)
    requires !AnyHears(env, kind, gs)
    ensures Ask(env, kind, code, gs, st) == Res(Gone, st.Emit(Escaped(code)))
    decreases |gs|
  {
    if gs != [] {
      var d := |gs| - 1;
      assert !Hears(env, kind, gs[d]);
      assert forall i :: 0 <= i < d ==> gs[..d][i] == gs[i];
      AskNobody(env, kind, code, gs[..d], st);
    }
  }

  lemma RaiseAgrees(env: Env, kind: Kind, code: int, gs: seq<Guard>, a: St, b: St)
    requires env.variant.Win32Tib? && AgreeSt(a, b) && AlignedRun(env, Raise(kind, code), gs, a)
    ensures Agree(Run(env, Raise(kind, code), gs, a), Run(Other(env), Raise(kind, code), Enlivened(gs), b))
  {
    if kind.Hardware? {
      AskAgrees(env, code, gs, a, b);
    } else {
      AskNobody(env, kind, code, gs, a);
      AskNobody(Other(env), kind, code, Enlivened(gs), b);
    }
  }

  /** Whatever FS is in either, an aligned run means the same in both variants: same outcome,
      record, call trace and cleanness. */
  lemma {:induction false} AlignedAgrees(env: Env, s: Stmt, gs: seq<Guard>, a: St, b: St)
    requires env.variant.Win32Tib? && AgreeSt(a, b) && AlignedRun(env, s, gs, a)
    ensures Agree(Run(env, s, gs, a), Run(Other(env), s, Enlivened(gs), b))
    decreases s, 1
  {
    hide RunHandler, AlignedHandler, Ask, AskAligned, Enlivened;
    match s
    case Raise(kind, code) => RaiseAgrees(env, kind, code, gs, a, b);
    case Seq(x, y) =>
      AlignedAgrees(env, x, gs, a, b);
      if Run(env, x, gs, a).out.Normal? {
        AlignedAgrees(env, y, gs, Run(env, x, gs, a).st, Run(Other(env), x, Enlivened(gs), b).st);
      }
    case Choice(id, x, y) => AlignedAgrees(env, if env.choose(id, a.trace) then x else y, gs, a, b);
    case OS2Call(id, callee) =>
      AlignedAgrees(env, callee, gs, a.(fs := OS2_SEL).Emit(Native(id, OS2_SEL)),
        b.(fs := OS2_SEL).Emit(Native(id, OS2_SEL)));
    case Traced(name, callee) =>
      AlignedAgrees(env, callee, gs, a.(calls := a.calls + [name]).Emit(FnEnter(name)),
        b.(calls := b.calls + [name]).Emit(FnEnter(name)));
    case Try(_, _, _) => TryAgrees(env, s, gs, a, b);
    case _ =>
  }

  lemma {:induction false} TryAgrees(env: Env, s: Stmt, gs: seq<Guard>, a: St, b: St)
    requires env.variant.Win32Tib? && AgreeSt(a, b) && s.Try? && AlignedRun(env, s, gs, a)
    ensures Agree(Run(env, s, gs, a), Run(Other(env), s, Enlivened(gs), b))
    decreases s, 0, 1
  {
    hide RunHandler, AlignedHandler, Enlivened, Run;
    var d := |gs|;
    var g := Guard(s.clause, LiveAt(env, a.fs), false);
    EnlivenedMore(gs, g);
    var ra, rb := BodyOf(env, s, gs, a), BodyOf(Other(env), s, Enlivened(gs), b);
    AlignedAgrees(env, s.body, gs + [g], a.Emit(Enter(d)), b.Emit(Enter(d)));
    TryEnds(env, s, gs, a);
    TryEnds(Other(env), s, Enlivened(gs), b);
    if HandlerDue(s, d, ra.out) { HandlerAgrees(env, s, gs, a.fs, b.fs, ra.st, rb.st); }
  }

  /** How a __try goes on after its body. */
  lemma TryEnds(env: Env, s: Stmt, gs: seq<Guard>, st: St)
    requires s.Try?
    ensures var rb := BodyOf(env, s, gs, st);
      Run(env, s, gs, st) ==
        if HandlerDue(s, |gs|, rb.out) then RunHandler(env, s, gs, st.fs, rb.st)
        else if rb.out.Normal? then Res(Normal, Close(env, |gs|, st.fs, rb.st))
        else if rb.out.Left? then Res(Normal, Close(env, |gs|, st.fs, rb.st.(clean := false)))
        else rb
  {
    hide RunHandler;
  }

  lemma {:induction false} HandlerAgrees(env: Env, s: Stmt, gs: seq<Guard>, fsA: Selector, fsB: Selector, a: St, b: St)
    requires env.variant.Win32Tib? && AgreeSt(a, b) && s.Try? && AlignedHandler(env, s, gs, fsA, a)
    ensures Agree(RunHandler(env, s, gs, fsA, a), RunHandler(Other(env), s, Enlivened(gs), fsB, b))
    decreases s, 0, 0
  {
    hide Enlivened;
    var g := Guard(s.clause, LiveAt(env, fsA), true);
    EnlivenedMore(gs, g);
    AlignedAgrees(env, s.handler, gs + [g], a.Emit(Handling(|gs|)), b.Emit(Handling(|gs|)));
  }

  // ----- and that they do not otherwise -----

  predicate HasLive(gs: seq<Guard>) {
    exists i :: 0 <= i < |gs| && gs[i].live
  }

  /** The OS/2 run has passed an exception on, of which the Win32-TIB one, where the first
      frame has swallowed it, has nothing on record. */
  predicate Lags(gs: seq<Guard>, a: Res, b: Res) {
    && b.out.Gone? && b.st.trace != [] && Last(b.st.trace).Escaped? && a.st.trace == Init(b.st.trace)
    && (a.out.Normal? || a.out.Left?) && HasLive(gs)
  }

  /** The records part for good, or will as soon as the first run goes on. */
  predicate Parted(hw: bool, gs: seq<Guard>, a: Res, b: Res) {
    Differs(a.st.trace, b.st.trace) || (!hw && Lags(gs, a, b))
  }

  lemma PartedExtends(a: Trace, a': Trace, b: Trace, b': Trace)
    requires Differs(a, b) && a <= a' && b <= b'
    ensures Differs(a', b')
  {
  }

  /** A search that somebody hears, in a clean run, records a question next. */
  lemma {:induction false} AskHeard(env: Env, kind: Kind, code: int, gs: seq<Guard>, st: St)
    requires AnyHears(env, kind, gs) && Ask(env, kind, code, gs, st).st.clean
    ensures var t := Ask(env, kind, code, gs, st).st.trace;
      st.trace <= t && |st.trace| < |t| && t[|st.trace|].Asked?
    decreases |gs|
  {
    var d := |gs| - 1;
    if !Hears(env, kind, gs[d]) {
      var i :| 0 <= i < |gs| && Hears(env, kind, gs[i]);
      assert gs[..d][i] == gs[i];
      AskHeard(env, kind, code, gs[..d], st);
    } else if gs[d].handling {
      AskUnclean(env, kind, code, gs[..d], st.(clean := false));
    } else {
      AskExtends(env, kind, code, gs[..d], st.Emit(Asked(d, code, Verdict(env, gs[d].clause, code, st.trace))));
    }
  }

  /** The run has gone on with something else than passing an exception on, or not at all. */
  predicate GoesOn(st: St, r: Res) {
    || (r.st.trace == st.trace && (r.out.Normal? || r.out.Left?))
    || (st.trace <= r.st.trace && |st.trace| < |r.st.trace| && !r.st.trace[|st.trace|].Escaped?)
  }

  /** Under a live frame, a clean run of the Win32-TIB variant does so. */
  lemma {:induction false} LiveGoesOn(env: Env, s: Stmt, gs: seq<Guard>, st: St)
    requires env.variant.Win32Tib? && HasLive(gs) && Run(env, s, gs, st).st.clean
    ensures GoesOn(st, Run(env, s, gs, st))
  {
    hide RunHandler, Ask;
    RunExtends(env, s, gs, st);
    match s
    case Raise(kind, code) =>
      LiveHears(env, kind, gs);
      if !Swallowed(env, kind, gs, st.fs) { AskHeard(env, kind, code, gs, st); }
    case Seq(a, b) =>
      var ra := Run(env, a, gs, st);
      RunExtends(env, b, gs, ra.st);
      LiveGoesOn(env, a, gs, st);
      if ra.out.Normal? { LiveGoesOn(env, b, gs, ra.st); }
    case Choice(id, a, b) => LiveGoesOn(env, if env.choose(id, st.trace) then a else b, gs, st);
    case OS2Call(id, callee) => RunExtends(env, callee, gs, st.(fs := OS2_SEL).Emit(Native(id, OS2_SEL)));
    case Traced(name, callee) =>
      RunExtends(env, callee, gs, st.(calls := st.calls + [name]).Emit(FnEnter(name)));
    case Try(body, clause, _) =>
      RunExtends(env, body, gs + [Guard(clause, LiveAt(env, st.fs), false)], st.Emit(Enter(|gs|)));
      TryExtends(env, s, gs, st);
    case _ =>
  }

  lemma LiveHears(env: Env, kind: Kind, gs: seq<Guard>)
    requires env.variant.Win32Tib?
    ensures HasLive(gs) <==> AnyHears(env, kind, gs)
  {
    assert forall i :: 0 <= i < |gs| ==> (Hears(env, kind, gs[i]) <==> gs[i].live);
    if HasLive(gs) {
      var i :| 0 <= i < |gs| && gs[i].live;
      assert Hears(env, kind, gs[i]);
    }
  }

  lemma {:induction false} AskParts(env: Env, code: int, gs: seq<Guard>, a: St, b: St)
    requires env.variant.Win32Tib? && AgreeSt(a, b) && !AskAligned(env, code, gs, a)
    requires Ask(Other(env), Hardware, code, Enlivened(gs), b).st.clean
    ensures Differs(Ask(env, Hardware, code, gs, a).st.trace,
      Ask(Other(env), Hardware, code, Enlivened(gs), b).st.trace)
    decreases |gs|
  {
    var d := |gs| - 1;
    var hs := Enlivened(gs);
    EnlivenedLess(gs);
    var answer := Verdict(env, gs[d].clause, code, a.trace);
    var e := Asked(d, code, answer);
    if gs[d].handling {
      AskUnclean(Other(env), Hardware, code, hs[..d], b.(clean := false));
    } else if !gs[d].live {
      AskNext(env, Hardware, code, gs[..d], a);
      AskExtends(Other(env), Hardware, code, hs[..d], b.Emit(e));
      var t, u := Ask(env, Hardware, code, gs, a).st.trace, Ask(Other(env), Hardware, code, hs, b).st.trace;
      assert u[|b.trace|] == e && t[|a.trace|] != e;
    } else {
      AskParts(env, code, gs[..d], a.Emit(e), b.Emit(e));
    }
  }

  lemma RaiseParts(env: Env, hw: bool, kind: Kind, code: int, gs: seq<Guard>, a: St, b: St)
    requires env.variant.Win32Tib? && AgreeSt(a, b) && !AlignedRun(env, Raise(kind, code), gs, a)
    requires Run(Other(env), Raise(kind, code), Enlivened(gs), b).st.clean
    requires if hw then kind.Hardware? else Run(env, Raise(kind, code), gs, a).st.clean
    ensures Parted(hw, gs, Run(env, Raise(kind, code), gs, a), Run(Other(env), Raise(kind, code), Enlivened(gs), b))
  {
    if kind.Hardware? {
      AskParts(env, code, gs, a, b);
    } else {
      LiveHears(env, kind, gs);
      AskNobody(Other(env), kind, code, Enlivened(gs), b);
      if !Swallowed(env, kind, gs, a.fs) { AskHeard(env, kind, code, gs, a); }
      var ra := Run(env, Raise(kind, code), gs, a);
      var u := b.trace + [Escaped(code)];
      assert u[|b.trace|] == Escaped(code);
      assert Init(u) == b.trace;
    }
  }

  /** What a run adds after it has parted does not bring the records together again. */
  lemma PartedThen(hw: bool, gs: seq<Guard>, outer: seq<Guard>, a: Res, b: Res, a': Res, b': Res)
    requires Parted(hw, gs, a, b) && a.st.trace <= a'.st.trace && b.st.trace <= b'.st.trace
    requires b.out.Gone? ==> b' == b
    requires !hw && Lags(gs, a, b) ==>
      Lags(outer, a', b) || (|a'.st.trace| > |a.st.trace| && !a'.st.trace[|a.st.trace|].Escaped?)
    ensures Parted(hw, outer, a', b')
  {
    if Differs(a.st.trace, b.st.trace) {
      PartedExtends(a.st.trace, a'.st.trace, b.st.trace, b'.st.trace);
    } else if !Lags(outer, a', b) {
      var k := |a.st.trace|;
      assert b.st.trace[k] == Last(b.st.trace) && a'.st.trace[k] != b.st.trace[k];
    }
  }

  /** If a run is not aligned, the records part, and so they stay. `hw`: all exceptions are the
      kernel's, so that nothing needs to be known of the Win32-TIB run. */
  lemma {:induction false} RunParts(env: Env, hw: bool, s: Stmt, gs: seq<Guard>, a: St, b: St)
    requires env.variant.Win32Tib? && AgreeSt(a, b) && !AlignedRun(env, s, gs, a)
    requires Run(Other(env), s, Enlivened(gs), b).st.clean
    requires if hw then HardwareOnly(s) else Run(env, s, gs, a).st.clean
    ensures Parted(hw, gs, Run(env, s, gs, a), Run(Other(env), s, Enlivened(gs), b))
    decreases s, 1
  {
    hide RunHandler, AlignedHandler, Ask, AskAligned, Enlivened, Parted;
    match s
    case Raise(kind, code) => RaiseParts(env, hw, kind, code, gs, a, b);
    case Seq(x, y) => SeqParts(env, hw, s, gs, a, b);
    case Choice(id, x, y) => RunParts(env, hw, if env.choose(id, a.trace) then x else y, gs, a, b);
    case OS2Call(id, callee) =>
      var a1, b1 := a.(fs := OS2_SEL).Emit(Native(id, OS2_SEL)), b.(fs := OS2_SEL).Emit(Native(id, OS2_SEL));
      RunParts(env, hw, callee, gs, a1, b1);
      CallParts(hw, gs, Run(env, callee, gs, a1), Run(Other(env), callee, Enlivened(gs), b1),
        Run(env, s, gs, a), Run(Other(env), s, Enlivened(gs), b));
    case Traced(name, callee) =>
      var a1 := a.(calls := a.calls + [name]).Emit(FnEnter(name));
      var b1 := b.(calls := b.calls + [name]).Emit(FnEnter(name));
      RunParts(env, hw, callee, gs, a1, b1);
      CallParts(hw, gs, Run(env, callee, gs, a1), Run(Other(env), callee, Enlivened(gs), b1),
        Run(env, s, gs, a), Run(Other(env), s, Enlivened(gs), b));
    case Try(_, _, _) => TryParts(env, hw, s, gs, a, b);
  }

  /** A call returns with one event, or ends as its callee does. */
  lemma CallParts(hw: bool, gs: seq<Guard>, a: Res, b: Res, a': Res, b': Res)
    requires Parted(hw, gs, a, b)
    requires if a.out.Normal? then a'.st.trace != [] && Init(a'.st.trace) == a.st.trace && !Last(a'.st.trace).Escaped?
             else a' == a
    requires if b.out.Normal? then b'.st.trace != [] && Init(b'.st.trace) == b.st.trace else b' == b
    ensures Parted(hw, gs, a', b')
  {
    PartedThen(hw, gs, gs, a, b, a', b');
  }

  lemma {:induction false} SeqParts(env: Env, hw: bool, s: Stmt, gs: seq<Guard>, a: St, b: St)
    requires env.variant.Win32Tib? && AgreeSt(a, b) && s.Seq? && !AlignedRun(env, s, gs, a)
    requires Run(Other(env), s, Enlivened(gs), b).st.clean
    requires if hw then HardwareOnly(s) else Run(env, s, gs, a).st.clean
    ensures Parted(hw, gs, Run(env, s, gs, a), Run(Other(env), s, Enlivened(gs), b))
    decreases s, 0
  {
    hide RunHandler, Ask, Enlivened, Parted;
    var hs := Enlivened(gs);
    var ra, rb := Run(env, s.first, gs, a), Run(Other(env), s.first, hs, b);
    RunExtends(env, s.second, gs, ra.st);
    RunExtends(Other(env), s.second, hs, rb.st);
    if AlignedRun(env, s.first, gs, a) {
      AlignedAgrees(env, s.first, gs, a, b);
      RunParts(env, hw, s.second, gs, ra.st, rb.st);
    } else {
      RunParts(env, hw, s.first, gs, a, b);
      if !hw && Lags(gs, ra, rb) && ra.out.Normal? {
        LiveGoesOn(env, s.second, gs, ra.st);
      }
      PartedThen(hw, gs, gs, ra, rb, Run(env, s, gs, a), Run(Other(env), s, hs, b));
    }
  }

  lemma {:induction false} TryParts(env: Env, hw: bool, s: Stmt, gs: seq<Guard>, a: St, b: St)
    requires env.variant.Win32Tib? && AgreeSt(a, b) && s.Try? && !AlignedRun(env, s, gs, a)
    requires Run(Other(env), s, Enlivened(gs), b).st.clean
    requires if hw then HardwareOnly(s) else Run(env, s, gs, a).st.clean
    ensures Parted(hw, gs, Run(env, s, gs, a), Run(Other(env), s, Enlivened(gs), b))
    decreases s, 0, 1
  {
    hide RunHandler, AlignedHandler, Enlivened, Run, Parted;
    var d := |gs|;
    var hs := Enlivened(gs);
    var g := Guard(s.clause, LiveAt(env, a.fs), false);
    EnlivenedMore(gs, g);
    var ra, rb := BodyOf(env, s, gs, a), BodyOf(Other(env), s, hs, b);
    TryEnds(env, s, gs, a);
    TryEnds(Other(env), s, hs, b);
    RunHandlerExtends(env, s, gs, a.fs, ra.st);
    RunHandlerExtends(Other(env), s, hs, b.fs, rb.st);
    if AlignedRun(env, s.body, gs + [g], a.Emit(Enter(d))) {
      AlignedAgrees(env, s.body, gs + [g], a.Emit(Enter(d)), b.Emit(Enter(d)));
      HandlerParts(env, hw, s, gs, a.fs, b.fs, ra.st, rb.st);
    } else {
      RunParts(env, hw, s.body, gs + [g], a.Emit(Enter(d)), b.Emit(Enter(d)));
      HandlerEvent(env, s, gs, a.fs, ra.st);
      PartedThen(hw, gs + [g], gs, ra, rb, Run(env, s, gs, a), Run(Other(env), s, hs, b));
    }
  }

  lemma HandlerEvent(env: Env, s: Stmt, gs: seq<Guard>, entryFs: Selector, st: St)
    requires s.Try?
    ensures var t := RunHandler(env, s, gs, entryFs, st).st.trace;
      |t| > |st.trace| && st.trace <= t && t[|st.trace|] == Handling(|gs|)
  {
    RunExtends(env, s.handler, gs + [Guard(s.clause, LiveAt(env, entryFs), true)], st.Emit(Handling(|gs|)));
  }

  lemma {:induction false} HandlerParts(env: Env, hw: bool, s: Stmt, gs: seq<Guard>, fsA: Selector, fsB: Selector,
      a: St, b: St)
    requires env.variant.Win32Tib? && AgreeSt(a, b) && s.Try? && !AlignedHandler(env, s, gs, fsA, a)
    requires RunHandler(Other(env), s, Enlivened(gs), fsB, b).st.clean
    requires if hw then HardwareOnly(s) else RunHandler(env, s, gs, fsA, a).st.clean
    ensures Parted(hw, gs, RunHandler(env, s, gs, fsA, a), RunHandler(Other(env), s, Enlivened(gs), fsB, b))
    decreases s, 0, 0
  {
    hide Enlivened, Run, Parted;
    var hs := Enlivened(gs);
    var g := Guard(s.clause, LiveAt(env, fsA), true);
    EnlivenedMore(gs, g);
    var a1, b1 := a.Emit(Handling(|gs|)), b.Emit(Handling(|gs|));
    RunParts(env, hw, s.handler, gs + [g], a1, b1);
    PartedThen(hw, gs + [g], gs, Run(env, s.handler, gs + [g], a1), Run(Other(env), s.handler, Enlivened(gs + [g]), b1),
      RunHandler(env, s, gs, fsA, a), RunHandler(Other(env), s, hs, fsB, b));
  }

  /** The records of the two structured runs of a program are the same if and only if the
      Win32-TIB one is aligned; and then so is everything else but FS. */
  lemma SameRecordIffAligned(env: Env, s: Stmt, a: St, b: St)
    requires env.variant.Win32Tib? && AgreeSt(a, b)
    requires Run(Other(env), s, [], b).st.clean && (HardwareOnly(s) || Run(env, s, [], a).st.clean)
    ensures AlignedRun(env, s, [], a) <==> Run(env, s, [], a).st.trace == Run(Other(env), s, [], b).st.trace
    ensures AlignedRun(env, s, [], a) ==> Agree(Run(env, s, [], a), Run(Other(env), s, [], b))
  {
    assert Enlivened([]) == [];
    if AlignedRun(env, s, [], a) {
      AlignedAgrees(env, s, [], a, b);
    } else {
      RunParts(env, HardwareOnly(s), s, [], a, b);
    }
  }

  // ----- the two variants, on the machine -----

  /** A program that is clean in both variants, whatever it raises and wherever it loads FS,
      begun with any FS in either: the two machines halt, with the same record if and only if
      the Win32-TIB run is aligned, and then with the same call trace and the same end. The
      condition on the structured run is the one on the machine's steps, of which
      Lockstep.SameRecordsIffAligned speaks for all programs. An aligned program that is clean
      in the one variant is clean in the other. */
  lemma VariantsAreEquivalent(env: Env, s: Stmt, fs: Selector, fs': Selector, calls: seq<nat>)
      returns (n: nat, n': nat)
    requires env.Valid() && env.variant.Win32Tib? && WellFormed(s, false)
    requires Run(env, s, [], St([], fs, calls, true)).st.clean
    requires AlignedRun(env, s, [], St([], fs, calls, true)) ||
      Run(Other(env), s, [], St([], fs', calls, true)).st.clean
    ensures var m := Steps(env, n, Start(env, s, fs, calls));
      var m' := Steps(Other(env), n', Start(Other(env), s, fs', calls));
      && m.ctl.Halted? && m'.ctl.Halted?
      && (m.trace == m'.trace <==> AlignedRun(env, s, [], St([], fs, calls, true)))
      && (m.trace == m'.trace ==> m.calls == m'.calls && m.ctl.how.Finished? == m'.ctl.how.Finished?)
    ensures AlwaysAligned(env, Start(env, s, fs, calls)) <==> AlignedRun(env, s, [], St([], fs, calls, true))
    ensures AlignedRun(env, s, [], St([], fs, calls, true)) ==>
      Run(Other(env), s, [], St([], fs', calls, true)).st.clean
  {
    hide Steps, Run, AlignedRun, AlwaysAligned, SameRecords, FollowedBy;
    var a, b := St([], fs, calls, true), St([], fs', calls, true);
    assert Enlivened([]) == [];
    if AlignedRun(env, s, [], a) { AlignedAgrees(env, s, [], a, b); }
    SameRecordIffAligned(env, s, a, b);
    n := ProgramHalts(env, s, fs, calls);
    n' := ProgramHalts(Other(env), s, fs', calls);
    SameRecordsIffAligned(env, s, fs, fs', calls);
    SameEnds(env, Start(env, s, fs, calls), n, Start(Other(env), s, fs', calls), n');
  }

  /** Of runs that halt, the last records say it all. */
  lemma SameEnds(env: Env, a: Mach, n: nat, b: Mach, n': nat)
    requires Steps(env, n, a).ctl.Halted? && Steps(Other(env), n', b).ctl.Halted?
    ensures SameRecords(env, b, a) ==> Steps(env, n, a).trace == Steps(Other(env), n', b).trace
    ensures Steps(env, n, a).trace == Steps(Other(env), n', b).trace ==> FollowedBy(env, b, a)
  {
    hide Steps;
    StaysHalted(env, n, n + n', a);
    StaysHalted(Other(env), n', n + n', b);
    if Steps(env, n, a).trace == Steps(Other(env), n', b).trace {
      forall k: nat ensures Records(env, Steps(Other(env), k, b).trace, a) {
        TraceGrows(Other(env), k, k + n', b);
        StaysHalted(Other(env), n', k + n', b);
        assert Steps(Other(env), k, b).trace <= Steps(env, n, a).trace;
      }
    }
  }

  lemma StaysHalted(env: Env, n: nat, k: nat, m: Mach)
    requires Steps(env, n, m).ctl.Halted? && n <= k
    ensures Steps(env, k, m) == Steps(env, n, m)
  {
    StepsAdd(env, n, k - n, m);
    HaltedStays(env, k - n, Steps(env, n, m));
  }

  /** An exception that cuts off a wrapped OS/2 call does not set the variants apart. */
  lemma CutOffCallIsAligned(env: Env, id: nat, code: int, filter: nat, handler: Stmt, calls: seq<nat>)
    requires env.variant.Win32Tib? && AlignedRun(env, handler, [Guard(Except(filter), true, true)],
      St([Enter(0), Native(id, OS2_SEL), Asked(0, code, EXECUTE_HANDLER), Handling(0)], env.tebSel, calls, true))
    requires env.answer(filter, code, [Enter(0), Native(id, OS2_SEL)]) == EXECUTE_HANDLER
    ensures AlignedRun(env, Try(OS2Call(id, Raise(Hardware, code)), Except(filter), handler), [],
      St([], env.tebSel, calls, true))
  {
    var g := Guard(Except(filter), true, false);
    var st2 := St([Enter(0), Native(id, OS2_SEL)], OS2_SEL, calls, true);
    assert [] + [g] == [g] && [] + [g.(handling := true)] == [g.(handling := true)];
    assert St([], env.tebSel, calls, true).Emit(Enter(0)).(fs := OS2_SEL).Emit(Native(id, OS2_SEL)) == st2;
    var r := Run(env, Raise(Hardware, code), [g], st2);
    assert r == Ask(env, Hardware, code, [g], st2);
    assert r.st.Emit(Handling(0)).trace ==
      [Enter(0), Native(id, OS2_SEL), Asked(0, code, EXECUTE_HANDLER), Handling(0)];
  }

  /** Every exception that a frame accepts in the OS/2 variant, at any point of any run: the
      frame's block begins with FS on the OS/2 selector, whatever FS was at the fault or when
      the frame was installed. */
  lemma Os2VariantLosesFs(env: Env, m: Mach, code: int) returns (n: nat)
    requires env.Valid() && env.variant.Os2Only? && Inv(env, m) && m.ctl == Exec(Raise(Hardware, code))
    requires Ask(env, Hardware, code, Unmarked(Guards(env, m.stack)), StOf(m)).out.Caught?
    ensures var m' := Steps(env, n, m);
      var d := Ask(env, Hardware, code, Unmarked(Guards(env, m.stack)), StOf(m)).out.depth;
      TakenAt(env, m.stack, At(m.stack, d), m') && m'.fs == 0x150b
  {
    hide Inv, TakenAt, Guards;
    var j;
    n, j := MachineFilterSelection(env, m, Hardware, code);
    AskCaughtFs(env, code, Unmarked(Guards(env, m.stack)), StOf(m));
  }

  lemma {:induction false} AskCaughtFs(env: Env, code: int, gs: seq<Guard>, st: St)
    requires env.variant.Os2Only?
    ensures var r := Ask(env, Hardware, code, gs, st); r.out.Caught? ==> r.st.fs == OS2_SEL
    decreases |gs|
  {
    if gs != [] {
      var d := |gs| - 1;
      AskCaughtFs(env, code, gs[..d], st);
      AskCaughtFs(env, code, gs[..d], st.(clean := false));
      AskCaughtFs(env, code, gs[..d], st.Emit(Asked(d, code, Verdict(env, gs[d].clause, code, st.trace))));
    }
  }
}
