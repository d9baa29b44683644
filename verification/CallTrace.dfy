/** The debug call trace (include/odinwrap.h): what it has kept when calls have been cut off by
    exceptions. A call is known by where in the record it was entered, so that equal names do
    not matter. */
module CallTrace {
  import opened Selectors
  import opened Programs
  import opened Machine
  import opened Invariant
  import opened Levels
  import opened Lowering
  import opened Correctness
  import opened Nesting

  // ----- calls in a record -----

  predicate Increasing(u: seq<nat>) { forall i, j :: 0 <= i < j < |u| ==> u[i] < u[j] }

  /** The call entered at `j` has returned. */
  predicate LeftIn(t: Trace, j: nat) {
    exists l :: j < l < |t| && t[l].FnLeave? && t[l].call == j
  }

  /** Where `c` is in `u`, or the length of `u`. */
  function Place(u: seq<nat>, c: nat): (k: nat)
    ensures k <= |u| && (k < |u| ==> u[k] == c) && forall i :: 0 <= i < k ==> u[i] != c
  {
    if u == [] then 0 else
    var k := Place(Init(u), c);
    if k < |u| - 1 || Last(u) == c then k else |u|
  }

  /** `u` without the call `c`. */
  function Without(u: seq<nat>, c: nat): (r: seq<nat>) {
    var k := Place(u, c);
    if k < |u| then u[..k] + u[k + 1..] else u
  }

  /** The calls entered in `t` from event `b` on that have not returned, oldest first. */
  function Unreturned(t: Trace, b: nat): (u: seq<nat>)
    ensures Increasing(u)
    ensures forall k :: 0 <= k < |u| ==> b <= u[k] < |t|
  {
    if |t| <= b then [] else
    var u := Unreturned(Init(t), b);
    match Last(t)
    case FnEnter(_) => u + [|t| - 1]
    case FnLeave(_, call) => Without(u, call)
    case _ => u
  }

  lemma {:induction false} UnreturnedAre(t: Trace, b: nat, j: nat)
    ensures Place(Unreturned(t, b), j) < |Unreturned(t, b)| <==> b <= j < |t| && t[j].FnEnter? && !LeftIn(t, j)
  {
    hide Place, LeftIn, Without;
    if |t| > b {
      var s := Init(t);
      UnreturnedAre(s, b, j);
      LeftInLast(t, j);
      PlaceLast(Unreturned(s, b), |s|, j);
      NotYetLeft(s, |s|);
      match Last(t)
      case FnLeave(_, call) => PlaceWithout(Unreturned(s, b), call, j);
      case _ =>
    } else {
      PlaceNone(j);
    }
  }

  lemma NotYetLeft(t: Trace, j: nat)
    requires j >= |t|
    ensures !LeftIn(t, j)
  {
  }

  lemma PlaceNone(j: nat)
    ensures Place([], j) == 0
  {
  }

  lemma LeftInLast(t: Trace, j: nat)
    requires t != []
    ensures LeftIn(t, j) <==> LeftIn(Init(t), j) || (j < |t| - 1 && Last(t).FnLeave? && Last(t).call == j)
  {
    var s := Init(t);
    assert forall l :: 0 <= l < |s| ==> s[l] == t[l];
    assert t[|s|] == Last(t);
  }

  lemma PlaceIs(u: seq<nat>, k: nat)
    requires Increasing(u) && k < |u|
    ensures Place(u, u[k]) == k
  {
  }

  lemma PlaceLast(u: seq<nat>, x: nat, j: nat)
    ensures Place(u + [x], j) < |u| + 1 <==> Place(u, j) < |u| || j == x
  {
    assert Init(u + [x]) == u;
  }

  lemma PlaceWithout(u: seq<nat>, c: nat, j: nat)
    requires Increasing(u)
    ensures Place(Without(u, c), j) < |Without(u, c)| <==> Place(u, j) < |u| && j != c
  {
    var r := Without(u, c);
    var k := Place(u, c);
    var i := Place(u, j);
    if i < |u| && j != c { assert r[if i < k then i else i - 1] == j; }
  }

  /** The calls whose entries a trace that is popped at every return, whoever returns, still
      has. */
  function Remaining(t: Trace, b: nat): (r: seq<nat>)
    ensures forall k :: 0 <= k < |r| ==> b <= r[k] < |t|
  {
    if |t| <= b then [] else
    var r := Remaining(Init(t), b);
    match Last(t)
    case FnEnter(_) => r + [|t| - 1]
    case FnLeave(_, _) => if r == [] then [] else Init(r)
    case _ => r
  }

  /** Whenever a call returns, every call entered inside it has returned before. */
  predicate Tidy(t: Trace, b: nat) {
    forall l, j :: b <= l < |t| && t[l].FnLeave? && t[l].call < j < l && t[j].FnEnter? ==> LeftIn(t[..l], j)
  }

  /** A call that returns is one that has not returned, and both accounts have it in the same
      place: nothing entered before it has returned ahead of it. */
  predicate Proper(t: Trace, b: nat) {
    |t| <= b ||
    (Proper(Init(t), b) && (Last(t).FnLeave? ==> InPlace(Unreturned(Init(t), b), Remaining(Init(t), b), Last(t).call)))
  }

  predicate InPlace(u: seq<nat>, r: seq<nat>, c: nat) {
    var k := Place(u, c);
    k < |u| && k < |r| && r[k] == c
  }

  lemma TidyLast(t: Trace, b: nat)
    requires |t| > b
    ensures Tidy(t, b) <==> Tidy(Init(t), b) && (Last(t).FnLeave? ==> Inside(Init(t), Last(t).call))
  {
    var s := Init(t);
    assert forall l :: 0 <= l < |s| ==> s[l] == t[l] && s[..l] == t[..l];
    assert t[..|s|] == s && t[|s|] == Last(t);
    if Tidy(t, b) {
      forall l, j | b <= l < |s| && s[l].FnLeave? && s[l].call < j < l && s[j].FnEnter? ensures LeftIn(s[..l], j) {
        assert t[l].FnLeave? && t[j].FnEnter?;
      }
    }
  }

  /** Every call entered after `c` has returned. */
  predicate Inside(t: Trace, c: nat) {
    forall j :: c < j < |t| && t[j].FnEnter? ==> LeftIn(t, j)
  }

  /** A returning call is the last unreturned one exactly if nothing inside it is unreturned. */
  lemma LastOne(t: Trace, b: nat, c: nat)
    requires Place(Unreturned(t, b), c) < |Unreturned(t, b)|
    ensures Last(Unreturned(t, b)) == c <==> Inside(t, c)
  {
    hide LeftIn;
    var u := Unreturned(t, b);
    if Last(u) == c {
      forall j | c < j < |t| && t[j].FnEnter? ensures LeftIn(t, j) {
        UnreturnedAre(t, b, j);
      }
    } else {
      PlaceIs(u, |u| - 1);
      UnreturnedAre(t, b, Last(u));
      assert t[Last(u)].FnEnter? && c < Last(u);
    }
  }

  /** One return: the accounts go on agreeing exactly if the call was the last unreturned
      one, and once they disagree they never agree again. */
  lemma ReturnAgrees(u: seq<nat>, r: seq<nat>, c: nat)
    requires Increasing(u) && |u| == |r| && InPlace(u, r, c)
    ensures |Without(u, c)| == |u| - 1
    ensures Init(r) == Without(u, c) <==> r == u && Last(u) == c
  {
    var k := Place(u, c);
    var w := Without(u, c);
    if k == |u| - 1 {
      assert w == Init(u);
      assert r == Init(r) + [c] && u == Init(u) + [c];
    } else {
      assert w[k] == u[k + 1] != c;
      assert Init(r)[k] == c;
    }
  }

  /** The entries kept are those of the unreturned calls, and not only as many, if and only if
      no call has returned over one that had not. */
  lemma {:induction false} TidyIffExact(t: Trace, b: nat)
    requires Proper(t, b)
    ensures |Remaining(t, b)| == |Unreturned(t, b)|
    ensures Remaining(t, b) == Unreturned(t, b) <==> Tidy(t, b)
  {
    hide Tidy, LeftIn;
    if |t| > b {
      var s := Init(t);
      TidyIffExact(s, b);
      TidyLast(t, b);
      var u, r := Unreturned(s, b), Remaining(s, b);
      match Last(t)
      case FnEnter(_) =>
        assert (r + [|s|])[..|r|] == r && (u + [|s|])[..|u|] == u;
      case FnLeave(_, c) =>
        LastOne(s, b, c);
        ReturnAgrees(u, r, c);
      case _ =>
    } else {
      TidyNothing(t, b);
    }
  }

  lemma TidyNothing(t: Trace, b: nat)
    requires |t| <= b
    ensures Tidy(t, b)
  {
  }

  // ----- the machine's call trace -----

  function NameAt(t: Trace, j: nat): nat {
    if j < |t| && t[j].FnEnter? then t[j].name else 0
  }

  function Names(t: Trace, u: seq<nat>): seq<nat> {
    seq(|u|, i requires 0 <= i < |u| => NameAt(t, u[i]))
  }

  /** A step that enters no instrumented call and returns from none. */
  predicate Silent(m: Mach, m': Mach) {
    && m'.calls == m.calls
    && (m'.trace == m.trace ||
          (m'.trace != [] && Init(m'.trace) == m.trace && !Last(m'.trace).FnEnter? && !Last(m'.trace).FnLeave?))
    && (|Whole(m')| > |Whole(m)| ==> !Last(Whole(m')).KFn?)
  }

  predicate Enters(m: Mach, m': Mach) {
    && m'.trace != [] && Init(m'.trace) == m.trace && Last(m'.trace).FnEnter?
    && m'.calls == m.calls + [Last(m'.trace).name]
    && |Whole(m')| == |Whole(m)| + 1 && Last(Whole(m')).KFn? && Last(Whole(m')).call == |m.trace|
  }

  predicate Leaves(m: Mach, m': Mach) {
    && Whole(m) != [] && Last(Whole(m)).KFn? && Whole(m') == Init(Whole(m))
    && m'.trace != [] && Init(m'.trace) == m.trace && Last(m'.trace).FnLeave?
    && Last(m'.trace).call == Last(Whole(m)).call
    && m.calls != [] && m'.calls == Init(m.calls)
  }

  lemma LoopIsSilent(env: Env, m: Mach)
    requires Sane(m) && m.ctl == Loop
    ensures Silent(m, Step(env, m))
  {
    hide Whole, Step, NoContexts;
    LoopEvents(env, m);
    LoopCells(env, m);
  }

  lemma LoopEvents(env: Env, m: Mach)
    requires m.ctl == Loop
    ensures var m' := Step(env, m);
      && m'.calls == m.calls
      && (m'.trace == m.trace ||
            (m'.trace != [] && Init(m'.trace) == m.trace && !Last(m'.trace).FnEnter? && !Last(m'.trace).FnLeave?))
  {
    hide Depth, Head, Verdict;
  }

  lemma LoopCells(env: Env, m: Mach)
    requires Sane(m) && m.ctl == Loop
    ensures |Whole(Step(env, m))| <= |Whole(m)|
  {
    hide Depth, Head, Verdict, StepCallback, StepExec, StepSearch, StepReturn, StepLeave;
    if InFilter(m) {
      FilterWhole(env, m);
    } else if m.AtTry() {
      assert m.stack[|m.stack| - 1].frame.context.None?;
      assert !InFilter(Step(env, m));
    }
  }

  lemma CallbackIsSilent(env: Env, m: Mach)
    requires m.ctl == Callback
    ensures Silent(m, Step(env, m))
  {
    hide Depth, Head, RtlUnwind, StepLoop, StepExec, StepSearch, StepReturn, StepLeave;
  }

  lemma SearchIsSilent(env: Env, m: Mach)
    requires m.ctl.Search?
    ensures Silent(m, Step(env, m))
  {
    if IsFrame(m.stack, m.ctl.at) {
      var n := Cells(m.stack[m.ctl.at].frame.esp);
      if n == m.ctl.at + 1 { assert |m.stack[..n] + m.stack[n..]| == |m.stack|; }
    }
  }

  lemma ExecCalls(env: Env, m: Mach, s: Stmt)
    requires m.ctl == Exec(s)
    ensures var m' := Step(env, m); Silent(m, m') || Enters(m, m')
  {
    hide Head, StepLoop, StepCallback, StepSearch, StepReturn, StepLeave, Install;
    match s
    case Try(_, _, _) => TryIsSilent(env, m, s);
    case Seq(a, b) => PushedLast(m.stack, KSeq(b));
    case OS2Call(id, _) => PushedLast(m.stack, KWrap(id, ToUShort(ToShort(m.fs)), |m.trace|));
    case Traced(name, _) => TracedEnters(env, m, s);
    case _ =>
  }

  lemma PushedLast(stack: Stack, k: Slot)
    ensures Last(stack + [k]) == k && Init(stack + [k]) == stack
  {
  }

  lemma TryIsSilent(env: Env, m: Mach, s: Stmt)
    requires m.ctl == Exec(s) && s.Try?
    ensures Silent(m, StepExec(env, m, s))
  {
    hide StepExec;
    InstallStep(env, m, s);
    var m' := StepExec(env, m, s);
    PushedLast(m.stack, Last(m'.stack));
    assert !InFilter(m');
  }

  lemma TracedEnters(env: Env, m: Mach, s: Stmt)
    requires m.ctl == Exec(s) && s.Traced?
    ensures Enters(m, StepExec(env, m, s))
  {
    var m' := StepExec(env, m, s);
    var k := KFn(s.name, m.fs, |m.trace|);
    PushedLast(m.stack, k);
    assert m'.stack == m.stack + [k] && m'.trace == m.trace + [FnEnter(s.name)];
  }

  lemma ReturnCalls(env: Env, m: Mach)
    requires Sane(m) && (m.ctl == Return || m.ctl == Leaving || m.ctl.Halted?)
    ensures var m' := Step(env, m); Silent(m, m') || Leaves(m, m')
  {
    hide Head, StepLoop, StepCallback, StepSearch, StepExec;
    if m.AtTry() {
      assert m.stack[|m.stack| - 1].frame.context.None?;
      assert !InFilter(Step(env, m));
    }
  }

  lemma StepCalls(env: Env, m: Mach)
    requires Sane(m)
    ensures var m' := Step(env, m); Silent(m, m') || Enters(m, m') || Leaves(m, m')
  {
    hide Silent, Enters, Leaves, Step, Sane;
    match m.ctl
    case Exec(s) => ExecCalls(env, m, s);
    case Loop => LoopIsSilent(env, m);
    case Callback => CallbackIsSilent(env, m);
    case Search(_, _) => SearchIsSilent(env, m);
    case _ => ReturnCalls(env, m);
  }

  /** Every pending call that was entered after event `b` is in its place in both accounts,
      and pending calls are in the order of their entry. */
  predicate PendingOk(w: Stack, t: Trace, b: nat) {
    && (forall p :: 0 <= p < |w| && w[p].KFn? ==>
          w[p].call < |t| && (w[p].call >= b ==> InPlace(Unreturned(t, b), Remaining(t, b), w[p].call)))
    && (forall p, q :: 0 <= p < q < |w| && w[p].KFn? && w[q].KFn? && b <= w[q].call ==> w[p].call < w[q].call)
  }

  predicate Account(m: Mach, b: nat, base: seq<nat>) {
    && b <= |m.trace| && Proper(m.trace, b)
    && m.calls == base + Names(m.trace, Remaining(m.trace, b))
    && PendingOk(Whole(m), m.trace, b)
  }

  lemma KeptFns(a: Stack, b: Stack, p: nat)
    requires Kept(a, b) && p < |a| && p < |b|
    ensures a[p].KFn? <==> b[p].KFn?
    ensures b[p].KFn? ==> a[p] == b[p]
  {
    assert Core(a[p]) == Core(b[p]);
  }

  lemma NamesGrow(t: Trace, e: Event, u: seq<nat>)
    requires forall k :: 0 <= k < |u| ==> u[k] < |t|
    ensures Names(t + [e], u) == Names(t, u)
  {
    assert forall k :: 0 <= k < |u| ==> NameAt(t + [e], u[k]) == NameAt(t, u[k]);
  }

  lemma SilentAccount(env: Env, m: Mach, b: nat, base: seq<nat>)
    requires Account(m, b, base) && Silent(m, Step(env, m)) && Kept(Whole(m), Whole(Step(env, m)))
    ensures Account(Step(env, m), b, base)
  {
    hide Step, Whole, Kept, Place, InPlace;
    var m' := Step(env, m);
    forall p | 0 <= p < |Whole(m')| && Whole(m')[p].KFn? ensures p < |Whole(m)| && Whole(m)[p] == Whole(m')[p] {
      KeptShorter(Whole(m), Whole(m'));
      KeptFns(Whole(m), Whole(m'), p);
    }
    if m'.trace != m.trace {
      assert m'.trace == m.trace + [Last(m'.trace)];
      NamesGrow(m.trace, Last(m'.trace), Remaining(m.trace, b));
    }
  }

  lemma KeptShorter(a: Stack, b: Stack)
    requires Kept(a, b)
    ensures |b| <= |a| + 1
  {
  }

  lemma InPlaceGrows(u: seq<nat>, r: seq<nat>, c: nat, x: nat)
    requires InPlace(u, r, c)
    ensures InPlace(u + [x], r + [x], c)
  {
    assert Init(u + [x]) == u;
  }

  lemma InPlaceLast(u: seq<nat>, r: seq<nat>, x: nat)
    requires |u| == |r| && forall k :: 0 <= k < |u| ==> u[k] < x
    ensures InPlace(u + [x], r + [x], x)
  {
    assert Init(u + [x]) == u;
  }

  lemma EntersAccount(env: Env, m: Mach, b: nat, base: seq<nat>)
    requires Account(m, b, base) && Enters(m, Step(env, m)) && Kept(Whole(m), Whole(Step(env, m)))
    ensures Account(Step(env, m), b, base)
  {
    hide Step, Whole, Kept, Place, InPlace, PendingOk;
    var m' := Step(env, m);
    var t, x := m.trace, |m.trace|;
    var r := Remaining(t, b);
    EntersPending(Whole(m), Whole(m'), t, m'.trace, b);
    assert m'.trace == t + [Last(m'.trace)];
    NamesGrow(t, Last(m'.trace), r);
    assert Names(m'.trace, r + [x]) == Names(m'.trace, r) + [Last(m'.trace).name];
  }

  lemma EntersPending(w: Stack, w': Stack, t: Trace, t': Trace, b: nat)
    requires PendingOk(w, t, b) && Kept(w, w') && Proper(t, b) && b <= |t|
    requires t' != [] && Init(t') == t && Last(t').FnEnter?
    requires |w'| == |w| + 1 && Last(w').KFn? && Last(w').call == |t|
    ensures PendingOk(w', t', b)
  {
    hide Kept, Place, InPlace, Proper, Unreturned, Remaining;
    var u, r, x := Unreturned(t, b), Remaining(t, b), |t|;
    TidyIffExact(t, b);
    InPlaceLast(u, r, x);
    EnteredLast(t', b);
    forall p | 0 <= p < |w| && w'[p].KFn?
      ensures w[p] == w'[p] && w[p].call < x && (w[p].call >= b ==> InPlace(u + [x], r + [x], w[p].call))
    {
      KeptFns(w, w', p);
      if w[p].call >= b { InPlaceGrows(u, r, w[p].call, x); }
    }
    assert w'[|w|] == Last(w');
  }

  lemma EnteredLast(t: Trace, b: nat)
    requires |t| > b && Last(t).FnEnter?
    ensures Unreturned(t, b) == Unreturned(Init(t), b) + [|t| - 1]
    ensures Remaining(t, b) == Remaining(Init(t), b) + [|t| - 1]
  {
  }

  lemma Before(u: seq<nat>, i: nat, k: nat)
    requires Increasing(u) && i < |u| && k < |u| && u[i] < u[k]
    ensures i < k
  {
  }

  lemma InPlaceReturns(u: seq<nat>, r: seq<nat>, c: nat, x: nat)
    requires Increasing(u) && |u| == |r| && InPlace(u, r, c) && InPlace(u, r, x) && x < c
    ensures InPlace(Without(u, c), Init(r), x)
  {
    var k, i := Place(u, c), Place(u, x);
    Before(u, i, k);
    assert Without(u, c)[i] == x;
    PlaceIs(Without(u, c), i);
  }

  lemma LeavesAccount(env: Env, m: Mach, b: nat, base: seq<nat>)
    requires Account(m, b, base) && Leaves(m, Step(env, m)) && Last(Step(env, m).trace).call >= b
    ensures Account(Step(env, m), b, base)
  {
    hide Step, Whole, Kept, Place, InPlace, Without;
    var m' := Step(env, m);
    var w, w' := Whole(m), Whole(m');
    var t := m.trace;
    var u, r := Unreturned(t, b), Remaining(t, b);
    var c := Last(w).call;
    assert w[|w| - 1].KFn? && InPlace(u, r, c);
    TidyIffExact(t, b);
    InPlaceSome(u, r, c);
    forall p | 0 <= p < |w'| && w'[p].KFn?
      ensures w[p] == w'[p] && w[p].call < c && (w[p].call >= b ==> InPlace(Without(u, c), Init(r), w[p].call))
    {
      if w[p].call >= b { InPlaceReturns(u, r, c, w[p].call); }
    }
    assert m'.trace == t + [Last(m'.trace)];
    NamesGrow(t, Last(m'.trace), Init(r));
    assert Init(m.calls) == base + Names(t, Init(r));
  }

  lemma InPlaceSome(u: seq<nat>, r: seq<nat>, c: nat)
    requires InPlace(u, r, c)
    ensures r != []
  {
  }

  /** No call entered before event `b` has returned since. */
  predicate NoOldReturn(t: Trace, b: nat) {
    forall l :: b <= l < |t| && t[l].FnLeave? ==> b <= t[l].call
  }

  /** Pending calls have been entered in the record. */
  predicate Dated(m: Mach) {
    var w := Whole(m);
    forall p :: 0 <= p < |w| && w[p].KFn? ==> w[p].call < |m.trace|
  }

  lemma {:induction false} RunAccount(env: Env, n: nat, m: Mach, b: nat, base: seq<nat>)
    requires Sane(m) && Account(m, b, base) && NoOldReturn(Steps(env, n, m).trace, b)
    ensures Account(Steps(env, n, m), b, base)
  {
    hide Sane, Account, Kept, Step, NoOldReturn;
    if n > 0 {
      var m' := Step(env, m);
      StepKeeps(env, m);
      StepCalls(env, m);
      if Silent(m, m') {
        SilentAccount(env, m, b, base);
      } else if Enters(m, m') {
        EntersAccount(env, m, b, base);
      } else {
        TraceGrows(env, 0, n - 1, m');
        LateReturn(m, m', Steps(env, n - 1, m').trace, b, base);
        LeavesAccount(env, m, b, base);
      }
      RunAccount(env, n - 1, m', b, base);
    }
  }

  lemma LateReturn(m: Mach, m': Mach, t: Trace, b: nat, base: seq<nat>)
    requires Account(m, b, base) && Leaves(m, m') && m'.trace <= t && NoOldReturn(t, b)
    ensures Last(m'.trace).call >= b
  {
    assert t[|m.trace|] == Last(m'.trace);
  }

  /** What the call trace has beyond the one at `m`, at any later point of any run, clean or
      not, before a call that was pending at `m` returns: as many entries as calls were
      entered and have not returned; and they are the entries of exactly those calls if and
      only if no call has returned over one that was cut off. */
  lemma CallTraceLaw(env: Env, n: nat, m: Mach)
    requires Sane(m) && Dated(m)
    requires NoOldReturn(Steps(env, n, m).trace, |m.trace|)
    ensures var m' := Steps(env, n, m);
      var u := Unreturned(m'.trace, |m.trace|);
      var r := Remaining(m'.trace, |m.trace|);
      && m'.calls == m.calls + Names(m'.trace, r)
      && |r| == |u|
      && (r == u <==> Tidy(m'.trace, |m.trace|))
      && (m'.calls == m.calls <==> u == [])
  {
    hide Sane, Tidy, NoOldReturn, Step, Whole;
    var b := |m.trace|;
    assert m.calls == m.calls + Names(m.trace, []);
    assert Account(m, b, m.calls);
    RunAccount(env, n, m, b, m.calls);
    TidyIffExact(Steps(env, n, m).trace, b);
  }

  /** With different names for different calls, the names of the surplus are those of the calls
      that have not returned exactly if no call has returned over one that was cut off. */
  lemma NamesTell(env: Env, n: nat, m: Mach)
    requires Sane(m) && Dated(m)
    requires NoOldReturn(Steps(env, n, m).trace, |m.trace|)
    ensures var m' := Steps(env, n, m);
      var names := m.calls + Names(m'.trace, Unreturned(m'.trace, |m.trace|));
      && (Tidy(m'.trace, |m.trace|) ==> m'.calls == names)
      && (DistinctNames(m'.trace) && m'.calls == names ==> Tidy(m'.trace, |m.trace|))
  {
    hide Sane, Dated, Tidy, NoOldReturn;
    CallTraceLaw(env, n, m);
    var t, b := Steps(env, n, m).trace, |m.trace|;
    var u, r := Unreturned(t, b), Remaining(t, b);
    if DistinctNames(t) && Names(t, r) == Names(t, u) {
      forall k | 0 <= k < |u| ensures u[k] == r[k] {
        assert Names(t, r)[k] == Names(t, u)[k];
        EntriesAreEntered(t, b);
      }
      assert r == u;
    }
    assert forall x, y :: |x| == |y| && m.calls + x == m.calls + y ==> x == y by {
      forall x: seq<nat>, y: seq<nat> | |x| == |y| && m.calls + x == m.calls + y ensures x == y {
        assert x == (m.calls + x)[|m.calls|..] && y == (m.calls + y)[|m.calls|..];
      }
    }
  }

  predicate DistinctNames(t: Trace) {
    forall i, j :: 0 <= i < j < |t| && t[i].FnEnter? && t[j].FnEnter? ==> t[i].name != t[j].name
  }

  lemma {:induction false} EntriesAreEntered(t: Trace, b: nat)
    ensures forall k :: 0 <= k < |Unreturned(t, b)| ==> t[Unreturned(t, b)[k]].FnEnter?
    ensures forall k :: 0 <= k < |Remaining(t, b)| ==> t[Remaining(t, b)[k]].FnEnter?
  {
    if |t| > b {
      EntriesAreEntered(Init(t), b);
      assert forall k :: 0 <= k < |Init(t)| ==> Init(t)[k] == t[k];
      assert t[|t| - 1] == Last(t);
    }
  }

  /** The same of whole runs, from any start: at every moment of every program, clean or not,
      the call trace is the one given and the entries of as many calls as are unreturned, the
      very calls exactly if no call has returned over one that was cut off. */
  lemma WholeRunCallTrace(env: Env, s: Stmt, fs: Selector, calls: seq<nat>, n: nat)
    requires env.Valid()
    ensures var m := Steps(env, n, Start(env, s, fs, calls));
      var u, r := Unreturned(m.trace, 0), Remaining(m.trace, 0);
      && m.calls == calls + Names(m.trace, r) && |r| == |u|
      && (r == u <==> Tidy(m.trace, 0))
      && (m.calls == calls <==> u == [])
      && forall j :: j in u <==> 0 <= j < |m.trace| && m.trace[j].FnEnter? && !LeftIn(m.trace, j)
  {
    var m0 := Start(env, s, fs, calls);
    CallTraceLaw(env, n, m0);
    var t := Steps(env, n, m0).trace;
    forall j ensures j in Unreturned(t, 0) <==> 0 <= j < |t| && t[j].FnEnter? && !LeftIn(t, j) {
      if j >= 0 { UnreturnedAre(t, 0, j); }
    }
  }

  // ----- statements that come to their end -----

  /** A clean statement comes to its end, and there the law holds. */
  lemma CallTraceBalance(env: Env, s: Stmt, inTry: bool, m: Mach) returns (n: nat)
    requires env.Valid() && Inv(env, m) && Dated(m) && m.ctl == Exec(s) && WellFormed(s, inTry)
    requires RunFrom(env, s, m).st.clean
    ensures var m' := Steps(env, n, m);
      var u, r := Unreturned(m'.trace, |m.trace|), Remaining(m'.trace, |m.trace|);
      && Lands(env, m.stack, RunFrom(env, s, m), m')
      && m'.calls == m.calls + Names(m'.trace, r) && |r| == |u|
      && (r == u <==> Tidy(m'.trace, |m.trace|))
      && (m'.calls == m.calls <==> u == [])
  {
    hide Inv, Dated, Alike, Same, Tidy;
    n := Simulate(env, s, inTry, m);
    RunLate(env, s, Guards(env, m.stack), StOf(m));
    InvIsSane(env, m);
    CallTraceLaw(env, n, m);
  }

  /** Pending calls are always dated, in every run from a start. */
  lemma {:induction false} StepsDated(env: Env, n: nat, m: Mach)
    requires Sane(m) && Dated(m)
    ensures Dated(Steps(env, n, m))
  {
    hide Sane, Step, Whole, Kept;
    if n > 0 {
      var m' := Step(env, m);
      StepKeeps(env, m);
      StepCalls(env, m);
      KeptShorter(Whole(m), Whole(m'));
      forall p | 0 <= p < |Whole(m')| && Whole(m')[p].KFn? ensures Whole(m')[p].call < |m'.trace| {
        if p < |Whole(m)| {
          KeptFns(Whole(m), Whole(m'), p);
          assert Whole(m)[p].KFn?;
        }
      }
      StepsDated(env, n - 1, m');
    }
  }
}
