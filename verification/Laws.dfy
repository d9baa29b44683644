/** Who is asked about an exception: in the structured meaning, and on the machine. */
module Laws {
  import opened Selectors
  import opened Programs
  import opened Reference
  import opened Machine
  import opened Invariant
  import opened Lowering

  // ----- filter selection -----

  predicate Stops(answer: int) {
    answer == EXECUTE_HANDLER || answer == CONTINUE_EXECUTION
  }

  predicate MayAsk(env: Env, kind: Kind, g: Guard) {
    Hears(env, kind, g) && !g.handling
  }

  /** The guards that may be asked, innermost first. */
  function Candidates(env: Env, kind: Kind, gs: seq<Guard>): (ds: seq<nat>)
    ensures forall i :: 0 <= i < |ds| ==> ds[i] < |gs| && MayAsk(env, kind, gs[ds[i]])
    ensures forall i, j :: 0 <= i < j < |ds| ==> ds[j] < ds[i]
    ensures forall d :: 0 <= d < |gs| && MayAsk(env, kind, gs[d]) ==> d in ds
  {
    if gs == [] then []
    else
      var d := |gs| - 1;
      var inner := Candidates(env, kind, gs[..d]);
      if MayAsk(env, kind, gs[d]) then [d] + inner else inner
  }

  /** The events a run adds to a record. */
  function Added(before: St, after: St): Trace {
    if |before.trace| <= |after.trace| then after.trace[|before.trace|..] else []
  }

  /** `j` candidates are asked, innermost first, each with the record up to then; all but
      the last let the exception pass, and the last one's answer is the outcome. */
  predicate Selected(env: Env, code: int, gs: seq<Guard>, ds: seq<nat>, st: St, r: Res, j: nat)
    requires forall i :: 0 <= i < |ds| ==> ds[i] < |gs|
  {
    var added := Added(st, r.st);
    && r.st.trace == st.trace + added
    && j <= |ds|
    && |added| == j + (if r.out.Gone? then 1 else 0)
    && (forall i :: 0 <= i < j ==>
          added[i] == Asked(ds[i], code, Verdict(env, gs[ds[i]].clause, code, st.trace + added[..i])))
    && (forall i :: 0 <= i < j - 1 ==> !Stops(added[i].answer))
    && match r.out
       case Gone => j == |ds| && added[j] == Escaped(code) && (j > 0 ==> !Stops(added[j - 1].answer))
       case Caught(d) => j > 0 && d == ds[j - 1] && added[j - 1].answer == EXECUTE_HANDLER
       case Normal => j > 0 && added[j - 1].answer == CONTINUE_EXECUTION
       case Left => false
  }

  lemma SelectedAfterPass(env: Env, code: int, gs: seq<Guard>, ds: seq<nat>, st: St, r: Res, j: nat)
    requires forall i :: 0 <= i < |ds| ==> ds[i] < |gs| - 1
    requires gs != []
    requires var d := |gs| - 1;
      var answer := Verdict(env, gs[d].clause, code, st.trace);
      !Stops(answer) && Selected(env, code, gs[..d], ds, st.Emit(Asked(d, code, answer)), r, j)
    ensures Selected(env, code, gs, [|gs| - 1] + ds, st, r, j + 1)
  {
    hide Verdict, Stops;
    var d := |gs| - 1;
    var all := [d] + ds;
    var e := Asked(d, code, Verdict(env, gs[d].clause, code, st.trace));
    var rest := Added(st.Emit(e), r.st);
    var added := Added(st, r.st);
    assert r.st.trace == st.trace + ([e] + rest);
    assert added == [e] + rest;
    forall i | 0 <= i < j + 1
      ensures added[i] == Asked(all[i], code, Verdict(env, gs[all[i]].clause, code, st.trace + added[..i]))
    {
      SelectedEvent(env, code, gs, ds, st, e, rest, i);
    }
    forall i | 0 <= i < j ensures !Stops(added[i].answer) {
      if i > 0 { assert added[i] == rest[i - 1]; }
    }
    assert j > 0 ==> added[j] == rest[j - 1] && all[j] == ds[j - 1];
  }

  lemma SelectedEvent(env: Env, code: int, gs: seq<Guard>, ds: seq<nat>, st: St, e: Event, rest: Trace, i: nat)
    requires forall k :: 0 <= k < |ds| ==> ds[k] < |gs| - 1
    requires gs != [] && e == Asked(|gs| - 1, code, Verdict(env, gs[|gs| - 1].clause, code, st.trace))
    requires i <= |rest| && i <= |ds|
    requires i > 0 ==> (rest[i - 1] ==
      Asked(ds[i - 1], code, Verdict(env, gs[ds[i - 1]].clause, code, st.Emit(e).trace + rest[..i - 1])))
    ensures var added := [e] + rest;
      var all := [|gs| - 1] + ds;
      added[i] == Asked(all[i], code, Verdict(env, gs[all[i]].clause, code, st.trace + added[..i]))
  {
    var added := [e] + rest;
    if i > 0 {
      assert added[..i] == [e] + rest[..i - 1];
      assert st.trace + added[..i] == st.Emit(e).trace + rest[..i - 1];
    } else {
      assert st.trace + added[..0] == st.trace;
    }
  }

  lemma SelectedShorter(env: Env, code: int, gs: seq<Guard>, ds: seq<nat>, st: St, r: Res, j: nat)
    requires gs != [] && forall i :: 0 <= i < |ds| ==> ds[i] < |gs| - 1
    requires Selected(env, code, gs[..|gs| - 1], ds, st, r, j)
    ensures Selected(env, code, gs, ds, st, r, j)
  {
  }

  lemma SelectedAtOnce(env: Env, kind: Kind, code: int, gs: seq<Guard>, st: St)
    requires gs != [] && MayAsk(env, kind, gs[|gs| - 1])
    requires Stops(Verdict(env, gs[|gs| - 1].clause, code, st.trace))
    ensures Selected(env, code, gs, Candidates(env, kind, gs), st, Ask(env, kind, code, gs, st), 1)
  {
    var r := Ask(env, kind, code, gs, st);
    var e := Asked(|gs| - 1, code, Verdict(env, gs[|gs| - 1].clause, code, st.trace));
    assert Added(st, r.st) == [e];
    assert st.trace + [e][..0] == st.trace;
  }

  lemma SelectedUnmarked(env: Env, code: int, gs: seq<Guard>, ds: seq<nat>, st: St, r: Res, j: nat)
    requires forall i :: 0 <= i < |ds| ==> ds[i] < |gs|
    requires Selected(env, code, gs, ds, st.(clean := false), r, j)
    ensures Selected(env, code, gs, ds, st, r, j)
  {
  }

  lemma {:induction false} AskSelects(env: Env, kind: Kind, code: int, gs: seq<Guard>, st: St) returns (j: nat)
    ensures Selected(env, code, gs, Candidates(env, kind, gs), st, Ask(env, kind, code, gs, st), j)
    decreases |gs|
  {
    hide Selected;
    var r := Ask(env, kind, code, gs, st);
    var ds := Candidates(env, kind, gs);
    if gs == [] {
      j := 0;
      NobodySelected(env, kind, code, st);
      return;
    }
    var d := |gs| - 1;
    var answer := Verdict(env, gs[d].clause, code, st.trace);
    if !Hears(env, kind, gs[d]) {
      j := AskSelects(env, kind, code, gs[..d], st);
      SelectedShorter(env, code, gs, ds, st, r, j);
    } else if gs[d].handling {
      j := AskSelects(env, kind, code, gs[..d], st.(clean := false));
      SelectedUnmarked(env, code, gs[..d], ds, st, r, j);
      SelectedShorter(env, code, gs, ds, st, r, j);
    } else if Stops(answer) {
      j := 1;
      SelectedAtOnce(env, kind, code, gs, st);
    } else {
      j := AskSelects(env, kind, code, gs[..d], st.Emit(Asked(d, code, answer)));
      SelectedAfterPass(env, code, gs, Candidates(env, kind, gs[..d]), st, r, j);
      j := j + 1;
    }
  }

  lemma NobodySelected(env: Env, kind: Kind, code: int, st: St)
    ensures Selected(env, code, [], Candidates(env, kind, []), st, Ask(env, kind, code, [], st), 0)
  {
  }

  /** Filters are asked innermost outward, each at most once, up to the first answer that
      is not "search on"; so nothing outside a __finally that hears the exception is asked. */
  lemma FilterSelection(env: Env, kind: Kind, code: int, gs: seq<Guard>, st: St) returns (j: nat)
    ensures var ds := Candidates(env, kind, gs);
      && Selected(env, code, gs, ds, st, Ask(env, kind, code, gs, st), j)
      && (forall i :: 0 <= i < j - 1 ==> gs[ds[i]].clause.Except?)
      && (forall i, d :: 0 <= i < j && ds[i] < d < |gs| && MayAsk(env, kind, gs[d]) ==> gs[d].clause.Except?)
  {
    j := AskSelects(env, kind, code, gs, st);
    var ds := Candidates(env, kind, gs);
    var added := Added(st, Ask(env, kind, code, gs, st).st);
    forall i | 0 <= i < j - 1 ensures gs[ds[i]].clause.Except? {
      assert added[i] == Asked(ds[i], code, Verdict(env, gs[ds[i]].clause, code, st.trace + added[..i]));
      assert !Stops(added[i].answer);
    }
    forall i, d | 0 <= i < j && ds[i] < d < |gs| && MayAsk(env, kind, gs[d]) ensures gs[d].clause.Except? {
      var i' :| 0 <= i' < |ds| && ds[i'] == d;
      assert i' < i;
    }
  }

  // ----- the machine -----

  /** The machine's handlers do not ask whether a frame's own handler block is running. */
  function Unmarked(gs: seq<Guard>): (r: seq<Guard>)
    ensures |r| == |gs|
  {
    seq(|gs|, i requires 0 <= i < |gs| => gs[i].(handling := false))
  }

  /** The open __try statements below stack level `q`, asked from inside out. */
  function AskAll(env: Env, m: Mach, why: Dispatch, q: nat): Res
    requires q <= |m.stack|
  {
    Ask(env, why.kind, why.code, Unmarked(Guards(env, m.stack[..q])), St(m.trace, why.fs, m.calls, true))
  }

  /** The search from `stack` has ended as `r` says: resumed with the stack as it was, or at
      the loop of the frame that takes the exception in state 2, or passed on. */
  predicate SearchEnds(env: Env, stack: Stack, r: Res, m: Mach) {
    && m.trace == r.st.trace && m.calls == r.st.calls
    && match r.out
       case Normal => m.ctl == Return && Same(stack, m.stack) && m.fs == r.st.fs
       case Caught(d) => TakenAt(env, stack, At(stack, d), m) && m.fs == r.st.fs
       case Gone => m.ctl.Halted? && m.ctl.how.PassedOn?
       case Left => false
  }

  predicate TakenAt(env: Env, stack: Stack, p: Ptr, m: Mach) {
    0 <= p < |stack| && AtLoop(env, m, 2) && Same(stack[..p + 1], m.stack)
  }

  /** The search asks the frame `p` in three steps, none of which halts; if it accepts, the
      machine is at its loop in state 2. */
  lemma TakenInThree(env: Env, m: Mach, why: Dispatch, p: Ptr)
    requires env.Valid() && Inv(env, m) && Asks(env, m, why, p)
    requires OnChain(env, m.stack[p], ChainOf(env, why.kind)) && Answer(env, m, why, p) == EXECUTE_HANDLER
    ensures var m' := Steps(env, 3, m);
      && TakenAt(env, m.stack, p, m')
      && (m'.fs, m'.calls) == (m.fs, m.calls) && m'.trace == m.trace + [AskedEvent(env, m, why, p)]
    ensures !Steps(env, 1, m).ctl.Halted? && !Steps(env, 2, m).ctl.Halted? && !Steps(env, 3, m).ctl.Halted?
  {
    hide Inv, HeadsOk, Shape, Fns;
    ThreeSteps(env, m);
    AskFrame(env, m, why, p);
    AnswerFrame(env, m, why, p);
    var r := Restored(env, m, why, p);
    InvShape(env, m);
    InvStates(env, m);
    SlotKeeps(env, m.stack, p, r.stack[p], m.heads);
    AcceptKeeps(env, r, why.kind, p);
  }

  lemma UnmarkedSplit(env: Env, stack: Stack, q: nat)
    requires 0 < q <= |stack|
    ensures Unmarked(Guards(env, stack[..q])) == Unmarked(Guards(env, stack[..q - 1])) +
      if stack[q - 1].KTry? then [GuardOf(env, stack[q - 1]).(handling := false)] else []
  {
    GuardsSplit(env, stack, q);
  }

  /** A slot that is not on the search's chain makes no difference. */
  lemma AskAllSkips(env: Env, m: Mach, why: Dispatch, q: nat)
    requires env.Valid() && Shape(env, m.stack) && 0 < q <= |m.stack|
    requires !OnChain(env, m.stack[q - 1], ChainOf(env, why.kind))
    ensures AskAll(env, m, why, q) == AskAll(env, m, why, q - 1)
  {
    UnmarkedSplit(env, m.stack, q);
    var gs := Unmarked(Guards(env, m.stack[..q]));
    if m.stack[q - 1].KTry? {
      assert gs[..|gs| - 1] == Unmarked(Guards(env, m.stack[..q - 1]));
      HearsIsOnChain(env, m.stack, q - 1, why.kind);
    } else {
      assert gs == Unmarked(Guards(env, m.stack[..q - 1]));
    }
  }

  /** One that is on it is asked, whether its handler block is running or not. */
  lemma AskAllHere(env: Env, m: Mach, why: Dispatch, p: Ptr)
    requires env.Valid() && Shape(env, m.stack) && IsFrame(m.stack, p)
    requires OnChain(env, m.stack[p], ChainOf(env, why.kind))
    ensures var asked := St(m.trace, why.fs, m.calls, true).Emit(AskedEvent(env, m, why, p));
      AskAll(env, m, why, p + 1) ==
        if Answer(env, m, why, p) == EXECUTE_HANDLER then
          Res(Caught(Depth(m.stack[..p])), asked.(fs := CaughtFs(env, why.kind, why.fs)))
        else if Answer(env, m, why, p) == CONTINUE_EXECUTION then Res(Normal, asked)
        else Ask(env, why.kind, why.code, Unmarked(Guards(env, m.stack[..p])), asked)
  {
    UnmarkedSplit(env, m.stack, p + 1);
    HearsIsOnChain(env, m.stack, p, why.kind);
    var gs := Unmarked(Guards(env, m.stack[..p + 1]));
    assert gs[..|gs| - 1] == Unmarked(Guards(env, m.stack[..p]));
  }

  lemma AsksFrame(env: Env, m: Mach, why: Dispatch, p: Ptr)
    requires Asks(env, m, why, p)
    ensures m.ctl == Search(why, p) && IsFrame(m.stack, p)
  {
  }

  /** From level `q` up, the stacks are the same. */
  predicate SameAbove(a: Stack, b: Stack, q: nat) {
    |a| == |b| && q <= |a| && a[q..] == b[q..]
  }

  lemma SameAboveLess(a: Stack, b: Stack, p: nat, q: nat)
    requires SameAbove(a, b, p) && p <= q <= |a|
    ensures SameAbove(a, b, q)
    ensures p < q ==> a[p] == b[p]
  {
    assert a[q..] == a[p..][q - p..] && b[q..] == b[p..][q - p..];
    if p < q { assert a[p] == a[p..][0] && b[p] == b[p..][0]; }
  }

  lemma SameAboveIs(a: Stack, b: Stack, p: nat, q: nat)
    requires SameAbove(a, b, p) && p <= q <= |b|
    ensures SameAbove(a, b, q)
  {
    SameAboveLess(a, b, p, q);
  }

  lemma SearchTaken(env: Env, m: Mach, why: Dispatch, p: Ptr)
    requires env.Valid() && Inv(env, m) && Asks(env, m, why, p) && m.fs == SearchFs(env, why)
    requires OnChain(env, m.stack[p], ChainOf(env, why.kind)) && Answer(env, m, why, p) == EXECUTE_HANDLER
    ensures SearchEnds(env, m.stack, AskAll(env, m, why, p + 1), Steps(env, 3, m))
  {
    hide Inv, Steps, Asks, TakenAt;
    AsksFrame(env, m, why, p);
    InvShape(env, m);
    AskAllHere(env, m, why, p);
    TakenInThree(env, m, why, p);
    AtOf(m.stack, p);
    FrameAt(env, m.stack, p);
  }

  lemma SearchResumed(env: Env, m: Mach, why: Dispatch, p: Ptr)
    requires env.Valid() && Inv(env, m) && Asks(env, m, why, p)
    requires OnChain(env, m.stack[p], ChainOf(env, why.kind)) && Answer(env, m, why, p) == CONTINUE_EXECUTION
    ensures SearchEnds(env, m.stack, AskAll(env, m, why, p + 1), Steps(env, 3, m))
    ensures AskAll(env, m, why, p + 1).out.Normal?
    ensures SameAbove(Steps(env, 3, m).stack, m.stack, p + 1)
    ensures Steps(env, 3, m).stack[p] ==
      m.stack[p].(frame := AskedFrame(m.stack[p].frame, why.code, CONTINUE_EXECUTION).(state := 0))
  {
    AnswerFrame(env, m, why, p);
    AskAllHere(env, m, why, p);
  }

  /** The dispatcher's walk down from stack level `q`, whichever handler blocks are running. */
  lemma {:induction false} SearchWalks(env: Env, m: Mach, why: Dispatch, q: nat) returns (n: nat)
    requires env.Valid() && Inv(env, m) && q <= |m.stack|
    requires m.ctl == Search(why, Top(env, m.stack[..q], ChainOf(env, why.kind)))
    requires m.fs == SearchFs(env, why)
    requires env.variant.Win32Tib? && m.fs == OS2_SEL ==> !IsFrame(m.stack, m.ctl.at)
    ensures var m' := Steps(env, n, m);
      var r := AskAll(env, m, why, q);
      SearchEnds(env, m.stack, r, m') && (r.out.Normal? ==> SameAbove(m'.stack, m.stack, q))
    decreases q, 1
  {
    hide SearchEnds, Inv, AskAll, Steps, SameAbove;
    var p := q - 1;
    if q == 0 {
      n := 1;
      NobodyLeft(env, m, why);
    } else {
      InvShape(env, m);
      GuardsSplit(env, m.stack, q);
      if !OnChain(env, m.stack[p], ChainOf(env, why.kind)) {
        n := SearchWalks(env, m, why, p);
        AskAllSkips(env, m, why, q);
        if AskAll(env, m, why, q).out.Normal? { SameAboveIs(Steps(env, n, m).stack, m.stack, p, q); }
      } else {
        FrameAt(env, m.stack, p);
        if Answer(env, m, why, p) == EXECUTE_HANDLER {
          n := 3;
          SearchTaken(env, m, why, p);
          AskAllHere(env, m, why, p);
        } else if Answer(env, m, why, p) == CONTINUE_EXECUTION {
          n := 3;
          SearchResumed(env, m, why, p);
        } else {
          n := SearchPassed(env, m, why, p);
        }
      }
    }
  }

  lemma NobodyLeft(env: Env, m: Mach, why: Dispatch)
    requires env.Valid() && m.ctl == Search(why, Top(env, m.stack[..0], ChainOf(env, why.kind)))
    ensures SearchEnds(env, m.stack, AskAll(env, m, why, 0), Steps(env, 1, m))
    ensures !AskAll(env, m, why, 0).out.Normal?
  {
    ThreeSteps(env, m);
    assert m.stack[..0] == [];
  }

  /** The frame `p` has let the exception pass: it is left in state 1, and the walk goes on
      below it. */
  lemma {:induction false} SearchPassed(env: Env, m: Mach, why: Dispatch, p: Ptr) returns (n: nat)
    requires env.Valid() && Inv(env, m) && Asks(env, m, why, p) && m.fs == SearchFs(env, why)
    requires OnChain(env, m.stack[p], ChainOf(env, why.kind))
    requires Answer(env, m, why, p) != EXECUTE_HANDLER && Answer(env, m, why, p) != CONTINUE_EXECUTION
    ensures var m' := Steps(env, n, m);
      var r := AskAll(env, m, why, p + 1);
      && SearchEnds(env, m.stack, r, m')
      && (r.out.Normal? ==>
            && SameAbove(m'.stack, m.stack, p + 1)
            && m'.stack[p] == m.stack[p].(frame := AskedFrame(m.stack[p].frame, why.code, Answer(env, m, why, p))))
    decreases p + 1, 0
  {
    hide Inv, Same, SearchEnds, Guards, Asks, Steps, SameAbove, AskAll;
    AsksFrame(env, m, why, p);
    InvShape(env, m);
    var m3 := Steps(env, 3, m);
    PassedThree(env, m, why, p);
    StepsKeepInv(env, 3, m);
    var k := SearchWalks(env, m3, why, p);
    n := 3 + k;
    StepsAdd(env, 3, k, m);
    var r := AskAll(env, m3, why, p);
    SearchEndsSame(env, m.stack, m3.stack, r, Steps(env, n, m));
    if r.out.Normal? {
      SameAboveBoth(Steps(env, n, m).stack, m3.stack, m.stack, p);
    }
  }

  lemma SameAboveBoth(a: Stack, b: Stack, c: Stack, p: nat)
    requires SameAbove(a, b, p) && p < |b| && SameAbove(b, c, p + 1)
    ensures SameAbove(a, c, p + 1) && a[p] == b[p]
  {
    SameAboveLess(a, b, p, p + 1);
  }

  /** The three steps in which `p` lets the exception pass. */
  lemma PassedThree(env: Env, m: Mach, why: Dispatch, p: Ptr)
    requires env.Valid() && Inv(env, m) && Asks(env, m, why, p)
    requires OnChain(env, m.stack[p], ChainOf(env, why.kind))
    requires Answer(env, m, why, p) != EXECUTE_HANDLER && Answer(env, m, why, p) != CONTINUE_EXECUTION
    ensures env.variant.Win32Tib? ==> m.fs != OS2_SEL
    ensures var m3 := Steps(env, 3, m);
      && |m3.stack| == |m.stack| && p < |m.stack|
      && m3.ctl == Search(why, Top(env, m3.stack[..p], ChainOf(env, why.kind))) && m3.fs == m.fs
      && Same(m.stack, m3.stack) && SameAbove(m3.stack, m.stack, p + 1)
      && m3.stack[p] == m.stack[p].(frame := AskedFrame(m.stack[p].frame, why.code, Answer(env, m, why, p)))
      && AskAll(env, m, why, p + 1) == AskAll(env, m3, why, p)
  {
    hide Inv, Steps;
    InvShape(env, m);
    AnswerFrame(env, m, why, p);
    FrameAt(env, m.stack, p);
    var m3 := Steps(env, 3, m);
    SlotKeeps(env, m.stack, p, m3.stack[p], m.heads);
    assert m3.stack[..p] == m.stack[..p];
    AskAllHere(env, m, why, p);
  }

  lemma {:induction false} SameAt(a: Stack, b: Stack, d: nat)
    requires Same(a, b)
    ensures At(a, d) == At(b, d) && Depth(a) == Depth(b)
  {
    if a != [] {
      SameInit(a, b);
      SameAt(Init(a), Init(b), d);
    }
  }

  lemma SearchEndsSame(env: Env, a: Stack, b: Stack, r: Res, m: Mach)
    requires Same(a, b) && SearchEnds(env, b, r, m)
    ensures SearchEnds(env, a, r, m)
  {
    match r.out
    case Normal => SameTrans(a, b, m.stack);
    case Caught(d) =>
      SameAt(a, b, d);
      var p := At(b, d);
      assert Same(a[..p + 1], b[..p + 1]) by {
        assert forall i :: 0 <= i < |a| ==> Core(a[i]) == Core(b[i]);
      }
      SameTrans(a[..p + 1], b[..p + 1], m.stack);
    case _ =>
  }

  lemma SameTrans(a: Stack, b: Stack, c: Stack)
    requires Same(a, b) && Same(b, c)
    ensures Same(a, c)
  {
    forall i | 0 <= i < |a| ensures Core(a[i]) == Core(c[i]) {
      assert Core(a[i]) == Core(b[i]);
    }
  }

  /** Who is asked on the machine, for a raise at any point of any run, clean or not: the
      frames on the search's chain, innermost outward and each once, also those whose handler
      block is running, each with the record up to then; up to the first answer that is not
      "search on", which decides where the machine goes. */
  lemma MachineFilterSelection(env: Env, m: Mach, kind: Kind, code: int) returns (n: nat, j: nat)
    requires env.Valid() && Inv(env, m) && m.ctl == Exec(Raise(kind, code))
    requires !Swallowed(env, kind, Guards(env, m.stack), m.fs)
    ensures var gs := Unmarked(Guards(env, m.stack));
      var ds := Candidates(env, kind, gs);
      var r := Ask(env, kind, code, gs, StOf(m));
      && SearchEnds(env, m.stack, r, Steps(env, n, m))
      && Selected(env, code, gs, ds, StOf(m), r, j)
      && (forall i :: 0 <= i < j - 1 ==> gs[ds[i]].clause.Except?)
  {
    hide Inv, Alike, SearchEnds, Selected;
    var why := Dispatch(kind, code, m.fs);
    var m1 := Step(env, m);
    RaiseStarts(env, m, kind, code);
    ThreeSteps(env, m);
    assert m1.stack[..|m1.stack|] == m1.stack;
    var k := SearchWalks(env, m1, why, |m1.stack|);
    n := 1 + k;
    StepsAdd(env, 1, k, m);
    AlikeIsSame(m.stack, m1.stack);
    SearchEndsSame(env, m.stack, m1.stack, AskAll(env, m1, why, |m1.stack|), Steps(env, n, m));
    j := FilterSelection(env, kind, code, Unmarked(Guards(env, m.stack)), StOf(m));
  }

  lemma AlikeIsSame(a: Stack, b: Stack)
    requires Alike(a, b)
    ensures Same(a, b)
  {
  }
}
