/** FS at any moment of any run, in either variant, as a function of what is on record. */
module FsRecord {
  import opened Selectors
  import opened Programs
  import opened Machine
  import opened Invariant
  import opened Levels
  import opened Lowering
  import opened Correctness
  import opened Nesting
  import opened Answers

  // ----- what the record says -----

  predicate Accepts(e: Event) { e.Asked? && e.answer == EXECUTE_HANDLER }

  /** FS while a filter runs, and in the block that takes an exception. */
  function FilterFs(env: Env): Selector {
    if env.variant.Win32Tib? then env.tebSel else OS2_SEL
  }

  /** Events that leave FS changed, and what they leave it at. */
  predicate SetsFs(e: Event) { Accepts(e) || e.Loaded? || e.Native? }

  function FsOf(env: Env, e: Event): Selector {
    if e.Loaded? then e.sel else if e.Native? then OS2_SEL else FilterFs(env)
  }

  /** Events that put FS back: returns, and in the Win32-TIB variant removals of frames. */
  predicate Restores(env: Env, e: Event) { Returns(e) || (e.Removed? && env.variant.Win32Tib?) }

  /** Where a frame of this depth was last entered, or -1. */
  function EnterOf(t: Trace, d: nat): int
    ensures -1 <= EnterOf(t, d) < |t|
  {
    if t == [] then -1 else if Last(t) == Enter(d) then |t| - 1 else EnterOf(Init(t), d)
  }

  /** The place in the record whose FS the last event brings back; for an event that brings
      nothing back, its own. */
  function Back(env: Env, t: Trace): nat
    requires t != []
    ensures Back(env, t) < |t|
  {
    var e := Last(t);
    var i := if Returns(e) then e.call else if Restores(env, e) then EnterOf(t, e.depth) else |t| - 1;
    if 0 <= i < |t| then i else |t| - 1
  }

  /** FS at the end of a record begun with `fs`. */
  function FsAfter(env: Env, t: Trace, fs: Selector): Selector {
    if t == [] then fs
    else if SetsFs(Last(t)) then FsOf(env, Last(t))
    else FsAfter(env, t[..Back(env, t)], fs)
  }

  // ----- the same in closed form -----

  /** Where event `l` goes back to. */
  function BackAt(env: Env, t: Trace, l: nat): nat
    requires l < |t|
    ensures BackAt(env, t, l) <= l
  {
    Back(env, t[..l + 1])
  }

  /** No event that puts FS back to before event `c` is on record after it. */
  predicate Open(env: Env, t: Trace, c: int) {
    forall l: nat :: c <= l < |t| && Restores(env, t[l]) ==> c < BackAt(env, t, l)
  }

  /** Calls and frames close in the order of a stack, but for those that are cut off. */
  predicate WellNested(env: Env, t: Trace) {
    forall l: nat :: l < |t| && Restores(env, t[l]) ==>
      BackAt(env, t, l) < l && Open(env, t[..l], BackAt(env, t, l))
  }

  /** Event `i` has changed FS, and nothing has put FS back to before it since. */
  predicate Stands(env: Env, t: Trace, i: int) {
    0 <= i < |t| && SetsFs(t[i]) && Open(env, t, i)
  }

  predicate LastStands(env: Env, t: Trace, i: int) {
    Stands(env, t, i) && forall j :: i < j < |t| ==> !Stands(env, t, j)
  }

  predicate NoneStands(env: Env, t: Trace) {
    forall j :: 0 <= j < |t| ==> !Stands(env, t, j)
  }

  lemma PrefixBack(env: Env, t: Trace, n: nat)
    requires n <= |t|
    ensures forall l: nat :: l < n ==> BackAt(env, t[..n], l) == BackAt(env, t, l)
  {
    forall l: nat | l < n ensures BackAt(env, t[..n], l) == BackAt(env, t, l) {
      assert t[..n][..l + 1] == t[..l + 1];
    }
  }

  lemma PrefixNested(env: Env, t: Trace, n: nat)
    requires WellNested(env, t) && n <= |t|
    ensures WellNested(env, t[..n])
  {
    hide Open;
    PrefixBack(env, t, n);
    forall l: nat | l < n && Restores(env, t[..n][l])
      ensures BackAt(env, t[..n], l) < l && Open(env, t[..n][..l], BackAt(env, t[..n], l))
    {
      assert t[..n][..l] == t[..l] && t[..n][l] == t[l];
    }
  }

  /** The last event, if it changes FS not itself, leaves standing what stood where it goes
      back to. */
  lemma StandsBefore(env: Env, t: Trace, i: int)
    requires WellNested(env, t) && t != [] && !SetsFs(Last(t))
    ensures Stands(env, t[..Back(env, t)], i) <==> Stands(env, t, i)
  {
    hide Open, WellNested;
    var n := Back(env, t);
    assert t[|t| - 1] == Last(t) && t[..|t|] == t && BackAt(env, t, |t| - 1) == n;
    if 0 <= i < n && Open(env, t[..n], i) { OpenThen(env, t, i); }
    if 0 <= i < |t| && Open(env, t, i) { OpenBefore(env, t, i); }
  }

  lemma OpenBefore(env: Env, t: Trace, i: nat)
    requires t != [] && i < |t| && Open(env, t, i) && !SetsFs(Last(t))
    ensures SetsFs(t[i]) ==> i < Back(env, t)
    ensures i < Back(env, t) ==> Open(env, t[..Back(env, t)], i)
  {
    hide Back;
    var n := Back(env, t);
    assert t[|t| - 1] == Last(t) && t[..|t|] == t && BackAt(env, t, |t| - 1) == n;
    if !Restores(env, Last(t)) { BackHere(env, t); }
    PrefixBack(env, t, n);
    forall l: nat | i <= l < n && Restores(env, t[..n][l]) ensures i < BackAt(env, t[..n], l) {
      assert Restores(env, t[l]);
    }
  }

  lemma BackHere(env: Env, t: Trace)
    requires t != [] && !Restores(env, Last(t))
    ensures Back(env, t) == |t| - 1
  {
  }

  lemma OpenThen(env: Env, t: Trace, i: nat)
    requires WellNested(env, t) && t != [] && i < Back(env, t) && Open(env, t[..Back(env, t)], i)
    ensures Open(env, t, i)
  {
    hide Back;
    var n := Back(env, t);
    var s := t[..|t| - 1];
    assert t[|t| - 1] == Last(t) && t[..|t|] == t && BackAt(env, t, |t| - 1) == n;
    PrefixBack(env, t, n);
    PrefixBack(env, t, |t| - 1);
    forall l: nat | i <= l < |t| && Restores(env, t[l]) ensures i < BackAt(env, t, l) {
      if l < n {
        assert Restores(env, t[..n][l]);
      } else if l < |t| - 1 {
        if !Restores(env, Last(t)) { BackHere(env, t); }
        assert Open(env, s, n) && Restores(env, s[l]);
      }
    }
  }

  /** FsAfter in closed form: what the last change that still stands has left, and the FS of the
      start if none does. */
  lemma {:induction false} StandingFs(env: Env, t: Trace, fs: Selector)
    requires WellNested(env, t)
    ensures NoneStands(env, t) ==> FsAfter(env, t, fs) == fs
    ensures forall i :: LastStands(env, t, i) ==> FsAfter(env, t, fs) == FsOf(env, t[i])
    ensures NoneStands(env, t) || exists i :: 0 <= i < |t| && LastStands(env, t, i)
    decreases |t|
  {
    hide Open, WellNested;
    if t != [] {
      assert t[|t| - 1] == Last(t);
      if SetsFs(Last(t)) {
        LastIsOpen(env, t);
        assert Stands(env, t, |t| - 1);
        assert LastStands(env, t, |t| - 1);
      } else {
        var n := Back(env, t);
        PrefixNested(env, t, n);
        StandingFs(env, t[..n], fs);
        forall i ensures Stands(env, t[..n], i) <==> Stands(env, t, i) { StandsBefore(env, t, i); }
        StandingPrefix(env, t, n);
      }
    }
  }

  lemma LastIsOpen(env: Env, t: Trace)
    requires t != [] && SetsFs(Last(t))
    ensures Open(env, t, |t| - 1)
  {
  }

  lemma StandingPrefix(env: Env, t: Trace, n: nat)
    requires n < |t| && forall i :: Stands(env, t[..n], i) <==> Stands(env, t, i)
    ensures NoneStands(env, t[..n]) <==> NoneStands(env, t)
    ensures forall i :: LastStands(env, t[..n], i) <==> LastStands(env, t, i)
    ensures forall i :: LastStands(env, t, i) ==> i < n && t[i] == t[..n][i]
  {
    hide Open;
    var s := t[..n];
    assert forall i :: Stands(env, t, i) ==> 0 <= i < n by {
      forall i | Stands(env, t, i) ensures 0 <= i < n { assert Stands(env, s, i); }
    }
    if NoneStands(env, s) {
      forall j | 0 <= j < |t| ensures !Stands(env, t, j) { assert Stands(env, s, j) <==> Stands(env, t, j); }
    }
    if NoneStands(env, t) {
      forall j | 0 <= j < |s| ensures !Stands(env, s, j) { assert Stands(env, s, j) <==> Stands(env, t, j); }
    }
    forall i ensures LastStands(env, s, i) <==> LastStands(env, t, i) {
      assert Stands(env, s, i) <==> Stands(env, t, i);
      if LastStands(env, s, i) {
        forall j | i < j < |t| ensures !Stands(env, t, j) { assert Stands(env, s, j) <==> Stands(env, t, j); }
      }
      if LastStands(env, t, i) {
        forall j | i < j < |s| ensures !Stands(env, s, j) { assert Stands(env, s, j) <==> Stands(env, t, j); }
      }
    }
  }

  // ----- what every step of the machine keeps -----

  /** A frame just installed, whose loop has not been entered. */
  predicate Fresh(m: Mach) {
    m.ctl.Loop? && m.AtTry() && !InFilter(m) && Last(m.stack).frame.state == 0
  }

  /** How many cells of the stack hold calls and frames that have been entered and not left. */
  function Pending(m: Mach): nat {
    if Fresh(m) || (Unlinked(m) && !InFilter(m)) then |m.stack| - 1 else |Whole(m)|
  }

  predicate Dates(k: Slot) { k.KWrap? || k.KFn? || k.KTry? }

  /** Where in the record the call or the frame of cell `i` was entered. */
  function Date(t: Trace, w: Stack, i: nat): int
    requires i < |w|
  {
    match w[i]
    case KWrap(_, _, call) => call
    case KFn(_, _, call) => call
    case KTry(_, _, _, _, _) => EnterOf(t, Depth(w[..i]))
    case _ => -1
  }

  /** The FS that is put back when cell `k` goes. */
  predicate Saves(k: Slot, fs: Selector) {
    match k
    case KWrap(_, sel, _) => sel == fs
    case KFn(_, sel, _) => sel == fs
    case KTry(f, _, _, _, _) => f.Win32Frame? ==> f.win32FS == fs
    case _ => true
  }

  /** Cell `i` has saved what FS was where it was entered, and nothing has gone back further. */
  predicate CellDated(env: Env, t: Trace, fs: Selector, w: Stack, i: nat)
    requires i < |w|
  {
    Dates(w[i]) ==>
      var c := Date(t, w, i);
      0 <= c < |t| && Open(env, t, c) && Saves(w[i], FsAfter(env, t[..c], fs))
  }

  predicate StackDated(env: Env, t: Trace, fs: Selector, w: Stack, n: nat) {
    && n <= |w|
    && (forall i: nat :: i < n ==> CellDated(env, t, fs, w, i))
    && (forall i: nat, j: nat :: i < j < n && Dates(w[i]) && Dates(w[j]) ==> Date(t, w, i) < Date(t, w, j))
  }

  /** FS, or what it is to be after a search, is what the record says. During a search FS is
      FilterFs, or the OS/2 selector of a RaiseException that is going to be swallowed. */
  predicate FsDated(env: Env, m: Mach, now: Selector) {
    match m.ctl
    case Search(why, p) =>
      why.fs == now && (IsFrame(m.stack, p) ==> m.fs == FilterFs(env) || m.fs == why.fs == OS2_SEL)
    case Loop =>
      if InFilter(m) then Last(m.stack).frame.context.value.why.fs == now && m.fs == FilterFs(env)
      else m.fs == now && (Fresh(m) ==> Saves(Last(m.stack), now))
    case Callback =>
      InFilter(m) ==>
        var f := Last(m.stack).frame;
        && m.fs == FilterFs(env)
        && now == if f.filterResult == EXECUTE_HANDLER then m.fs else f.context.value.why.fs
    case Halted(how) => how.Finished? ==> m.fs == now
    case _ => m.fs == now
  }

  /** `fs`: FS at the start of the record. */
  predicate FsKept(env: Env, m: Mach, fs: Selector) {
    && Inv(env, m)
    && WellNested(env, m.trace)
    && StackDated(env, m.trace, fs, Whole(m), Pending(m))
    && FsDated(env, m, FsAfter(env, m.trace, fs))
  }

  /** A RaiseException that is heard is called with FS on the Win32 selector, or on the OS/2
      one. With any other its frame's block begins with that, of which nothing is on record. */
  predicate KnownRaise(env: Env, m: Mach) {
    match m.ctl
    case Exec(Raise(Software, _)) =>
      env.variant.Win32Tib? && IsFrame(m.stack, Head(m.heads, env.tebSel)) ==> m.fs == env.tebSel || m.fs == OS2_SEL
    case _ => true
  }

  // ----- cells that stay -----

  lemma {:induction false} SameDepths(a: Stack, b: Stack, i: nat)
    requires i <= |a| && i <= |b| && forall j :: 0 <= j < i ==> Core(a[j]) == Core(b[j])
    ensures Depth(a[..i]) == Depth(b[..i])
  {
    if i > 0 {
      assert Init(a[..i]) == a[..i - 1] && Init(b[..i]) == b[..i - 1];
      assert Core(a[i - 1]) == Core(b[i - 1]);
      SameDepths(a, b, i - 1);
    }
  }

  lemma SameDate(t: Trace, a: Stack, b: Stack, i: nat)
    requires i < |a| && i < |b| && forall j :: 0 <= j <= i ==> Core(a[j]) == Core(b[j])
    ensures Date(t, a, i) == Date(t, b, i) && (Dates(a[i]) <==> Dates(b[i]))
    ensures forall fs :: Saves(a[i], fs) <==> Saves(b[i], fs)
  {
    SameDepths(a, b, i);
    assert Core(a[i]) == Core(b[i]);
  }

  /** No frame of this depth or further out is entered by `e`. */
  predicate EntersAbove(e: Event, d: nat) { e.Enter? ==> e.depth >= d }

  lemma DateStays(t: Trace, e: Event, w: Stack, i: nat, n: nat)
    requires i < n <= |w| && EntersAbove(e, Depth(w[..n]))
    ensures Date(t + [e], w, i) == Date(t, w, i)
  {
    if w[i].KTry? {
      DepthPrefix(w[..n], i);
      assert w[..n][..i] == w[..i] && w[..n][i] == w[i];
      assert Init(t + [e]) == t && Last(t + [e]) == e;
    }
  }

  lemma OpenStays(env: Env, t: Trace, e: Event, c: int)
    requires 0 <= c < |t| && Open(env, t, c)
    requires Restores(env, e) ==> c < Back(env, t + [e])
    ensures Open(env, t + [e], c)
  {
    var u := t + [e];
    PrefixBack(env, u, |t|);
    assert u[..|t|] == t && u[..|t| + 1] == u;
    forall l: nat | c <= l < |u| && Restores(env, u[l]) ensures c < BackAt(env, u, l) {
      if l < |t| { assert Restores(env, t[l]); }
    }
  }

  lemma CellStays(env: Env, t: Trace, e: Event, fs: Selector, w: Stack, i: nat, n: nat)
    requires i < n <= |w| && EntersAbove(e, Depth(w[..n])) && CellDated(env, t, fs, w, i)
    requires Restores(env, e) && Dates(w[i]) ==> Date(t, w, i) < Back(env, t + [e])
    ensures CellDated(env, t + [e], fs, w, i)
  {
    hide Open, FsAfter, Back;
    DateStays(t, e, w, i, n);
    if Dates(w[i]) {
      var c := Date(t, w, i);
      OpenStays(env, t, e, c);
      assert (t + [e])[..c] == t[..c];
    }
  }

  /** The first `n` cells, after a step that records at most one event. */
  lemma DatedStays(env: Env, fs: Selector, t: Trace, t': Trace, w: Stack, n: nat)
    requires StackDated(env, t, fs, w, n)
    requires t' != t ==> t' != [] && Init(t') == t && EntersAbove(Last(t'), Depth(w[..n]))
    requires t' != t && Restores(env, Last(t')) ==>
      forall i: nat :: i < n && Dates(w[i]) ==> Date(t, w, i) < Back(env, t')
    ensures StackDated(env, t', fs, w, n)
  {
    hide CellDated, Date, Back, Restores;
    if t' != t {
      assert t' == t + [Last(t')];
      forall i: nat | i < n ensures CellDated(env, t', fs, w, i) && Date(t', w, i) == Date(t, w, i) {
        CellStays(env, t, Last(t'), fs, w, i, n);
        DateStays(t, Last(t'), w, i, n);
      }
    }
  }

  /** What searches and loops write does not matter. */
  lemma DatedAlike(env: Env, fs: Selector, t: Trace, a: Stack, b: Stack, n: nat)
    requires n <= |a| && n <= |b| && StackDated(env, t, fs, a, n)
    requires forall j :: 0 <= j < n ==> Core(a[j]) == Core(b[j])
    ensures StackDated(env, t, fs, b, n)
  {
    hide Date, FsAfter, Open, Dates, Saves;
    forall i: nat | i < n
      ensures CellDated(env, t, fs, b, i) && Date(t, a, i) == Date(t, b, i) && (Dates(a[i]) <==> Dates(b[i]))
    {
      SameDate(t, a, b, i);
      assert CellDated(env, t, fs, a, i);
    }
  }

  lemma NestedStays(env: Env, t: Trace, e: Event)
    requires WellNested(env, t)
    requires Restores(env, e) ==> Back(env, t + [e]) < |t| && Open(env, t, Back(env, t + [e]))
    ensures WellNested(env, t + [e])
  {
    hide Open, Back;
    var u := t + [e];
    PrefixBack(env, u, |t|);
    assert u[..|t|] == t && u[..|t| + 1] == u;
    forall l: nat | l < |u| && Restores(env, u[l])
      ensures BackAt(env, u, l) < l && Open(env, u[..l], BackAt(env, u, l))
    {
      if l < |t| { assert Restores(env, t[l]) && u[..l] == t[..l]; }
    }
  }

  lemma FsAfterOne(env: Env, t: Trace, e: Event, fs: Selector)
    ensures FsAfter(env, t + [e], fs) ==
      if SetsFs(e) then FsOf(env, e)
      else if Restores(env, e) then FsAfter(env, (t + [e])[..Back(env, t + [e])], fs)
      else FsAfter(env, t, fs)
  {
    assert (t + [e])[..|t|] == t && Last(t + [e]) == e;
  }

  /** Cells that are still there after a step that brings no FS back. */
  lemma CellsStay(env: Env, m: Mach, fs: Selector, n: nat)
    requires env.Valid() && FsKept(env, m, fs) && n <= Pending(m) && n <= |Whole(Step(env, m))| && n <= |Whole(m)|
    requires var t, t' := m.trace, Step(env, m).trace;
      t' != t ==> t' != [] && Init(t') == t && !Restores(env, Last(t')) && EntersAbove(Last(t'), Depth(Whole(m)[..n]))
    ensures StackDated(env, Step(env, m).trace, fs, Whole(Step(env, m)), n) && WellNested(env, Step(env, m).trace)
  {
    hide Step, Inv, Whole, CellDated, WellNested, Restores, FsDated, Pending;
    KeepsAll(env, m);
    var m' := Step(env, m);
    DatedStays(env, fs, m.trace, m'.trace, Whole(m), n);
    if m'.trace != m.trace {
      NestedStays(env, m.trace, Last(m'.trace));
      assert m'.trace == m.trace + [Last(m'.trace)];
    }
    DatedAlike(env, fs, m'.trace, Whole(m), Whole(m'), n);
  }

  /** A cell more. */
  lemma CellMore(env: Env, fs: Selector, t: Trace, w: Stack, n: nat)
    requires StackDated(env, t, fs, w, n) && n < |w| && CellDated(env, t, fs, w, n)
    requires Dates(w[n]) ==>
      Date(t, w, n) == |t| - 1 && forall i: nat :: i < n && Dates(w[i]) ==> Date(t, w, i) < |t| - 1
    ensures StackDated(env, t, fs, w, n + 1)
  {
    hide CellDated, Date;
  }

  lemma ExecFsKept(env: Env, m: Mach, s: Stmt, fs: Selector)
    requires env.Valid() && FsKept(env, m, fs) && m.ctl == Exec(s)
    requires !s.Raise? && !s.Try? && !s.OS2Call? && !s.Traced? && !s.Seq?
    ensures FsKept(env, Step(env, m), fs)
  {
    hide Inv, CellDated, WellNested, FsAfter, Open, Install, StartSearch, StackDated, Whole;
    KeepsAll(env, m);
    ExecWhole(env, m, s);
    CellsStay(env, m, fs, |m.stack|);
    if s.Do? { FsAfterOne(env, m.trace, Did(s.id), fs); }
    if s.LoadFS? { FsAfterOne(env, m.trace, Loaded(s.sel), fs); }
  }

  lemma SeqFsKept(env: Env, m: Mach, s: Stmt, fs: Selector)
    requires env.Valid() && FsKept(env, m, fs) && m.ctl == Exec(s) && s.Seq?
    ensures FsKept(env, Step(env, m), fs)
  {
    hide Inv, CellDated, WellNested, FsAfter, Open, Install, StartSearch, StackDated, Whole;
    KeepsAll(env, m);
    ExecWhole(env, m, s);
    var m' := Step(env, m);
    CellsStay(env, m, fs, |m.stack|);
    SeqCell(env, m'.trace, fs, m'.stack, |m.stack|);
    CellMore(env, fs, m'.trace, m'.stack, |m.stack|);
  }

  lemma SeqCell(env: Env, t: Trace, fs: Selector, w: Stack, i: nat)
    requires i < |w| && !Dates(w[i])
    ensures CellDated(env, t, fs, w, i)
  {
  }

  /** A wrapper or an instrumented function saves FS. */
  lemma CallFsKept(env: Env, m: Mach, s: Stmt, fs: Selector)
    requires env.Valid() && FsKept(env, m, fs) && m.ctl == Exec(s) && (s.OS2Call? || s.Traced?)
    ensures FsKept(env, Step(env, m), fs)
  {
    hide Inv, CellDated, WellNested, FsAfter, Open;
    KeepsAll(env, m);
    SelectorSurvivesShort(m.fs);
    var m' := Step(env, m);
    var n := |m.stack|;
    CellsStay(env, m, fs, n);
    FsAfterOne(env, m.trace, Last(m'.trace), fs);
    NewCall(env, m.trace, m'.trace, fs, m'.stack, n);
    EarlierDates(env, m, fs);
    CellMore(env, fs, m'.trace, m'.stack, n);
  }

  lemma NewCall(env: Env, t: Trace, t': Trace, fs: Selector, w: Stack, i: nat)
    requires i < |w| && (w[i].KWrap? || w[i].KFn?) && w[i].call == |t| && w[i].sel == FsAfter(env, t, fs)
    requires t' != [] && Init(t') == t && !Restores(env, Last(t'))
    ensures CellDated(env, t', fs, w, i)
  {
    hide FsAfter;
    assert t'[..|t|] == t;
  }

  lemma EarlierDates(env: Env, m: Mach, fs: Selector)
    requires env.Valid() && FsKept(env, m, fs) && m.ctl.Exec? && (m.ctl.s.OS2Call? || m.ctl.s.Traced?)
    ensures var m' := Step(env, m);
      forall i: nat :: i < |m.stack| && Dates(m'.stack[i]) ==> Date(m'.trace, m'.stack, i) < |m.trace|
  {
    hide Inv, WellNested, FsAfter, Open;
    var m' := Step(env, m);
    var n := |m.stack|;
    forall i: nat | i < n && Dates(m'.stack[i]) ensures Date(m'.trace, m'.stack, i) < |m.trace| {
      assert CellDated(env, m.trace, fs, m.stack, i);
      DateStays(m.trace, Last(m'.trace), m.stack, i, n);
      assert m'.trace == m.trace + [Last(m'.trace)];
      SameDate(m'.trace, m.stack, m'.stack, i);
    }
  }

  lemma TryFsKept(env: Env, m: Mach, s: Stmt, fs: Selector)
    requires env.Valid() && FsKept(env, m, fs) && m.ctl == Exec(s) && s.Try?
    ensures FsKept(env, Step(env, m), fs)
  {
    hide Inv, CellDated, WellNested, FsAfter, Open, StepExec;
    KeepsAll(env, m);
    InstallStep(env, m, s);
    CellsStay(env, m, fs, |m.stack|);
  }

  lemma RaiseFsKept(env: Env, m: Mach, kind: Kind, code: int, fs: Selector)
    requires env.Valid() && FsKept(env, m, fs) && m.ctl == Exec(Raise(kind, code)) && KnownRaise(env, m)
    ensures FsKept(env, Step(env, m), fs)
  {
    hide CellDated, WellNested, FsAfter, Open, Shape, StatesOk, Fns, WalkOs2;
    KeepsAll(env, m);
    RaiseKeeps(env, m, kind, code);
    CellsStay(env, m, fs, |m.stack|);
    if kind.Software? && env.variant.Os2Only? {
      NoWin32Chain(env, m.stack);
    }
  }

  /** The innermost call or frame goes, and FS with it to what it was. */
  lemma Closes(env: Env, fs: Selector, t: Trace, e: Event, w: Stack, n: nat)
    requires WellNested(env, t) && n < |w| && StackDated(env, t, fs, w, n + 1)
    requires match w[n]
      case KWrap(id, _, call) => e == NativeLeave(id, call)
      case KFn(name, _, call) => e == FnLeave(name, call)
      case KTry(_, _, _, _, _) => env.variant.Win32Tib? && e == Removed(Depth(w[..n]))
      case _ => false
    ensures StackDated(env, t + [e], fs, w, n) && WellNested(env, t + [e])
    ensures Saves(w[n], FsAfter(env, t + [e], fs))
  {
    hide Open, WellNested, StackDated, FsAfter;
    ClosesAt(env, fs, t, e, w, n);
    var c := Back(env, t + [e]);
    NestedStays(env, t, e);
    FsAfterOne(env, t, e, fs);
    assert (t + [e])[..c] == t[..c];
    DatedFewer(env, fs, t, w, n);
    assert Init(t + [e]) == t;
    DatedStays(env, fs, t, t + [e], w, n);
  }

  lemma DatedFewer(env: Env, fs: Selector, t: Trace, w: Stack, n: nat)
    requires StackDated(env, t, fs, w, n + 1)
    ensures StackDated(env, t, fs, w, n)
  {
    hide CellDated, Date;
  }

  lemma ClosesAt(env: Env, fs: Selector, t: Trace, e: Event, w: Stack, n: nat)
    requires n < |w| && StackDated(env, t, fs, w, n + 1)
    requires match w[n]
      case KWrap(id, _, call) => e == NativeLeave(id, call)
      case KFn(name, _, call) => e == FnLeave(name, call)
      case KTry(_, _, _, _, _) => env.variant.Win32Tib? && e == Removed(Depth(w[..n]))
      case _ => false
    ensures var c := Back(env, t + [e]);
      && c == Date(t, w, n) && c < |t| && Open(env, t, c) && Saves(w[n], FsAfter(env, t[..c], fs))
      && forall i: nat :: i < n && Dates(w[i]) ==> Date(t, w, i) < c
  {
    hide Open, FsAfter;
    assert CellDated(env, t, fs, w, n);
    assert Init(t + [e]) == t && Last(t + [e]) == e;
  }

  lemma ReturnFsKept(env: Env, m: Mach, fs: Selector)
    requires env.Valid() && FsKept(env, m, fs) && (m.ctl == Return || m.ctl == Leaving)
    requires m.ctl.Return? && m.stack != [] ==> !Last(m.stack).KWrap? && !Last(m.stack).KFn?
    ensures FsKept(env, Step(env, m), fs)
  {
    hide CellDated, WellNested, FsAfter, Open, Shape, HeadsOk, Fns;
    KeepsAll(env, m);
    var m' := Step(env, m);
    if m.AtTry() {
      NoContext(env, m, |m.stack| - 1);
      InvStates(env, m);
    }
    CellsStay(env, m, fs, |m'.stack|);
  }

  lemma CallReturns(env: Env, m: Mach, fs: Selector)
    requires env.Valid() && FsKept(env, m, fs) && m.ctl == Return
    requires m.stack != [] && (Last(m.stack).KWrap? || Last(m.stack).KFn?)
    ensures FsKept(env, Step(env, m), fs)
  {
    hide CellDated, WellNested, FsAfter, Open, Shape, HeadsOk, StatesOk;
    KeepsAll(env, m);
    var m' := Step(env, m);
    var n := |m.stack| - 1;
    if Last(m.stack).KFn? { InvStates(env, m); }
    Closes(env, fs, m.trace, Last(m'.trace), m.stack, n);
    assert m'.trace == m.trace + [Last(m'.trace)];
    DatedAlike(env, fs, m'.trace, m.stack, m'.stack, n);
  }

  /** One turn of the loop that leaves the frame where it is. */
  lemma TurnFsKept(env: Env, m: Mach, fs: Selector)
    requires env.Valid() && FsKept(env, m, fs) && m.ctl == Loop && !InFilter(m) && Last(m.stack).frame.state in {1, 2}
    ensures FsKept(env, Step(env, m), fs)
  {
    hide CellDated, WellNested, FsAfter, Open, Shape, HeadsOk, Fns, StepLoop, Depth, Verdict;
    KeepsAll(env, m);
    TurnIs(env, m);
    LoopFs(env, m);
    FsAfterOne(env, m.trace, Last(Step(env, m).trace), fs);
    CellsStay(env, m, fs, |m.stack|);
  }

  lemma FilterFsKept(env: Env, m: Mach, fs: Selector)
    requires env.Valid() && FsKept(env, m, fs) && m.ctl == Loop && InFilter(m)
    ensures FsKept(env, Step(env, m), fs)
  {
    hide CellDated, WellNested, FsAfter, Open, Shape, HeadsOk, Fns, StatesOk, StepLoop, Depth, Verdict;
    KeepsAll(env, m);
    TurnIs(env, m);
    FilterWhole(env, m);
    LoopFs(env, m);
    FsAfterOne(env, m.trace, Last(Step(env, m).trace), fs);
    CellsStay(env, m, fs, |Whole(m)|);
  }

  /** The frame is entered: it has saved what FS is. */
  lemma EnterFsKept(env: Env, m: Mach, fs: Selector)
    requires env.Valid() && FsKept(env, m, fs) && Fresh(m)
    ensures FsKept(env, Step(env, m), fs)
  {
    hide CellDated, WellNested, FsAfter, Open, Shape, HeadsOk, Fns, StatesOk, StepLoop, Verdict, Dates, Date, Saves,
      StackDated;
    KeepsAll(env, m);
    TurnIs(env, m);
    LoopFs(env, m);
    FsAfterOne(env, m.trace, Last(Step(env, m).trace), fs);
    EnterDates(env, m, fs);
  }

  lemma EnterDates(env: Env, m: Mach, fs: Selector)
    requires env.Valid() && FsKept(env, m, fs) && Fresh(m)
    ensures var m' := Step(env, m);
      WellNested(env, m'.trace) && StackDated(env, m'.trace, fs, m'.stack, |m.stack|)
  {
    hide Inv, CellDated, WellNested, FsAfter, Open, StepLoop, Verdict, Dates, Date;
    TurnIs(env, m);
    var m' := Step(env, m);
    var n := |m.stack| - 1;
    assert m.stack[..n] == Init(m.stack) && m'.stack[..n] == Init(m.stack) && m'.stack[n] == Last(m'.stack);
    CellsStay(env, m, fs, n);
    NewFrameDated(env, m.trace, m'.trace, fs, m'.stack, n);
    forall i: nat | i < n && Dates(m'.stack[i]) ensures Date(m'.trace, m'.stack, i) < |m.trace| {
      assert CellDated(env, m.trace, fs, m.stack, i);
      DateBounds(env, fs, m.trace, m.stack, i);
      DateStays(m.trace, Last(m'.trace), m.stack, i, n);
      SameDate(m'.trace, m.stack, m'.stack, i);
    }
    CellMore(env, fs, m'.trace, m'.stack, n);
  }

  lemma DateBounds(env: Env, fs: Selector, t: Trace, w: Stack, i: nat)
    requires i < |w| && CellDated(env, t, fs, w, i)
    ensures Dates(w[i]) ==> Date(t, w, i) < |t|
  {
  }

  lemma NewFrameDated(env: Env, t: Trace, t': Trace, fs: Selector, w: Stack, i: nat)
    requires i < |w| && w[i].KTry? && Saves(w[i], FsAfter(env, t, fs)) && t' == t + [Enter(Depth(w[..i]))]
    ensures CellDated(env, t', fs, w, i) && Date(t', w, i) == |t'| - 1
  {
    hide FsAfter;
    assert t'[..|t|] == t;
  }

  lemma RemoveFsKept(env: Env, m: Mach, fs: Selector)
    requires env.Valid() && FsKept(env, m, fs) && m.ctl == Loop && !InFilter(m) && Last(m.stack).frame.state == 3
    ensures FsKept(env, Step(env, m), fs)
  {
    hide CellDated, WellNested, FsAfter, Open, HeadsOk, Fns, StatesOk, StepLoop, Verdict, Dates, Date;
    KeepsAll(env, m);
    TurnIs(env, m);
    LoopFs(env, m);
    var m' := Step(env, m);
    var n := |m.stack| - 1;
    assert m.stack[..n] == Init(m.stack) && m'.stack[..n] == Init(m.stack);
    FrameAt(env, m.stack, n);
    if env.variant.Win32Tib? {
      Closes(env, fs, m.trace, Last(m'.trace), m.stack, n);
      assert m'.trace == m.trace + [Last(m'.trace)];
      DatedAlike(env, fs, m'.trace, m.stack, m'.stack, n);
    } else {
      FsAfterOne(env, m.trace, Last(m'.trace), fs);
      CellsStay(env, m, fs, n);
    }
  }

  lemma PopFsKept(env: Env, m: Mach, fs: Selector)
    requires env.Valid() && FsKept(env, m, fs) && Unlinked(m) && !InFilter(m)
    ensures FsKept(env, Step(env, m), fs)
  {
    hide CellDated, WellNested, FsAfter, Open, Shape, HeadsOk, Fns, StatesOk, StepLoop;
    KeepsAll(env, m);
    LoopPops(env, m);
    CellsStay(env, m, fs, |m.stack| - 1);
  }

  lemma LoopFsKept(env: Env, m: Mach, fs: Selector)
    requires env.Valid() && FsKept(env, m, fs) && m.ctl == Loop
    ensures FsKept(env, Step(env, m), fs)
  {
    hide Shape, HeadsOk, Fns, WellNested, StackDated, FsDated, StepLoop;
    if InFilter(m) { FilterFsKept(env, m, fs); }
    else if Last(m.stack).frame.state == 0 { EnterFsKept(env, m, fs); }
    else if Last(m.stack).frame.state == 3 { RemoveFsKept(env, m, fs); }
    else if Last(m.stack).frame.state > 3 { PopFsKept(env, m, fs); }
    else { TurnFsKept(env, m, fs); }
  }

  lemma SearchFsKept(env: Env, m: Mach, why: Dispatch, p: Ptr, fs: Selector)
    requires env.Valid() && FsKept(env, m, fs) && m.ctl == Search(why, p)
    ensures FsKept(env, Step(env, m), fs)
  {
    hide CellDated, WellNested, FsAfter, Open, Shape, HeadsOk, Fns, StatesOk, EnterFilter;
    KeepsAll(env, m);
    if IsFrame(m.stack, p) {
      FrameAt(env, m.stack, p);
      EnterFilterKeeps(env, m, why, p);
    }
    CellsStay(env, m, fs, |m.stack|);
  }

  lemma CallbackFsKept(env: Env, m: Mach, fs: Selector)
    requires env.Valid() && FsKept(env, m, fs) && m.ctl == Callback
    ensures FsKept(env, Step(env, m), fs)
  {
    hide CellDated, WellNested, FsAfter, Open, Shape, HeadsOk, Fns, StatesOk, StepCallback, Whole;
    KeepsAll(env, m);
    var m' := Step(env, m);
    if !InFilter(m) {
      StrayCrashes(env, m);
      WholeNow(m);
      WholeNow(m');
      CellsStay(env, m, fs, |m.stack|);
    } else if Last(m.stack).frame.filterResult == EXECUTE_HANDLER {
      TakesIs(env, m);
      FilterBounds(m);
      WholeNow(m');
      CellsStay(env, m, fs, |m'.stack|);
    } else {
      DeclineIs(env, m);
      ResumedFs(env, m);
      WholeNow(m');
      CellsStay(env, m, fs, |m'.stack|);
    }
  }

  lemma StepFsKept(env: Env, m: Mach, fs: Selector)
    requires env.Valid() && FsKept(env, m, fs) && KnownRaise(env, m)
    ensures FsKept(env, Step(env, m), fs)
  {
    hide FsKept;
    match m.ctl
    case Exec(Raise(kind, code)) => RaiseFsKept(env, m, kind, code, fs);
    case Exec(s) =>
      if s.Try? { TryFsKept(env, m, s, fs); }
      else if s.OS2Call? || s.Traced? { CallFsKept(env, m, s, fs); }
      else if s.Seq? { SeqFsKept(env, m, s, fs); }
      else { ExecFsKept(env, m, s, fs); }
    case Return =>
      if m.stack != [] && (Last(m.stack).KWrap? || Last(m.stack).KFn?) { CallReturns(env, m, fs); }
      else { ReturnFsKept(env, m, fs); }
    case Leaving => ReturnFsKept(env, m, fs);
    case Loop => LoopFsKept(env, m, fs);
    case Search(why, p) => SearchFsKept(env, m, why, p, fs);
    case Callback => CallbackFsKept(env, m, fs);
    case Halted(_) =>
  }

  // ----- every run -----

  predicate KnownFor(env: Env, n: nat, m: Mach) {
    forall j: nat :: j < n ==> KnownRaise(env, Steps(env, j, m))
  }

  lemma {:induction false} StepsFsKept(env: Env, n: nat, m: Mach, fs: Selector)
    requires env.Valid() && FsKept(env, m, fs) && (env.variant.Os2Only? || KnownFor(env, n, m))
    ensures FsKept(env, Steps(env, n, m), fs)
    decreases n
  {
    hide FsKept, Step;
    if n > 0 {
      assert Steps(env, 0, m) == m;
      StepFsKept(env, m, fs);
      forall j: nat | j < n - 1 && KnownFor(env, n, m) ensures KnownRaise(env, Steps(env, j, Step(env, m))) {
        assert Steps(env, j + 1, m) == Steps(env, j, Step(env, m));
      }
      StepsFsKept(env, n - 1, Step(env, m), fs);
    }
  }

  /** Control is in the program, or it has ended: no search is on its way and no state loop. */
  predicate InProgram(m: Mach) {
    m.ctl.Exec? || m.ctl.Return? || m.ctl.Leaving? || m.ctl == Halted(Finished)
  }

  /** FS at any moment of any run, clean or not: in the OS/2 variant without condition, in the
      Win32-TIB variant if RaiseException, where a frame hears it, is called with FS on one of
      the two selectors. It is what the last change of FS left that nothing has undone, and
      FS of the start if there is none. */
  lemma FsIsOnRecord(env: Env, s: Stmt, fs: Selector, calls: seq<nat>, n: nat)
    requires env.Valid() && (env.variant.Os2Only? || KnownFor(env, n, Start(env, s, fs, calls)))
    ensures var m := Steps(env, n, Start(env, s, fs, calls));
      && WellNested(env, m.trace)
      && (InProgram(m) ==>
            && m.fs == FsAfter(env, m.trace, fs)
            && (NoneStands(env, m.trace) ==> m.fs == fs)
            && (forall i :: LastStands(env, m.trace, i) ==> m.fs == FsOf(env, m.trace[i])))
      && (m.ctl.Search? ==> m.ctl.why.fs == FsAfter(env, m.trace, fs))
  {
    hide Steps, WellNested, Stands;
    var m0 := Start(env, s, fs, calls);
    StartInv(env, s, fs, calls);
    StartNested(env);
    StepsFsKept(env, n, m0, fs);
    StandingFs(env, Steps(env, n, m0).trace, fs);
  }

  lemma StartNested(env: Env)
    ensures WellNested(env, [])
  {
  }

  /** Without that condition FS is not a function of the record: a fault and a RaiseException
      under the same frame leave the same record, and the one block begins with FS on the
      Win32 selector, the other with what code has loaded. */
  lemma RecordDoesNotTell(env: Env, x: Selector, code: int, filter: nat, calls: seq<nat>)
    requires env.Valid() && env.variant.Win32Tib? && x != OS2_SEL && x != env.tebSel
    requires env.answer(filter, code, [Enter(0), Loaded(x)]) == EXECUTE_HANDLER
    ensures var a := Steps(env, 10, Start(env, Raising(x, Hardware, code, filter), env.tebSel, calls));
      var b := Steps(env, 10, Start(env, Raising(x, Software, code, filter), env.tebSel, calls));
      InProgram(a) && InProgram(b) && a.trace == b.trace && a.fs == env.tebSel && b.fs == x
  {
    RaisingRun(env, x, Hardware, code, filter, calls);
    RaisingRun(env, x, Software, code, filter, calls);
  }

  /** The condition is exact: where the frame at the head of the Win32 chain takes the exception
      of a RaiseException (or the call is swallowed), FS is then what the record says if and only
      if it was known. */
  lemma KnownRaiseIsExact(env: Env, m: Mach, code: int, fs: Selector)
    requires env.Valid() && env.variant.Win32Tib? && FsKept(env, m, fs) && m.ctl == Exec(Raise(Software, code))
    requires IsFrame(m.stack, Head(m.heads, env.tebSel))
    requires AnswerOf(env, m.stack[Head(m.heads, env.tebSel)].clause, code, m.trace) == 1
    ensures var m' := Steps(env, if m.fs == 0x150b then 2 else 4, m);
      KnownRaise(env, m) <==> m'.fs == FsAfter(env, m'.trace, fs)
  {
    hide Inv, Steps, WellNested, StackDated, FsAfter;
    if m.fs == 0x150b {
      RaiseStarts(env, m, Software, code);
      var m1 := Step(env, m);
      HeadFrame(env, m);
      InvShape(env, m1);
      SwallowStep(env, m1, m1.ctl.why, m1.ctl.at);
      ThreeSteps(env, m);
    } else {
      RaiseAnswers(env, m, Software, code);
      var e := Asked(Depth(m.stack[..Head(m.heads, env.tebSel)]), code, 1);
      FsAfterOne(env, m.trace, e, fs);
    }
  }

  lemma HeadFrame(env: Env, m: Mach)
    requires env.Valid() && env.variant.Win32Tib? && Inv(env, m) && m.ctl.Exec? && m.ctl.s.Raise?
    requires m.ctl.s.kind.Software? && IsFrame(m.stack, Head(m.heads, env.tebSel))
    ensures Step(env, m).ctl.Search? && IsFrame(Step(env, m).stack, Step(env, m).ctl.at)
  {
  }

  function Raising(x: Selector, kind: Kind, code: int, filter: nat): Stmt {
    Try(Seq(LoadFS(x), Raise(kind, code)), Except(filter), Skip)
  }

  /** Such a program up to its RaiseException or its fault. */
  lemma RaisingStarts(env: Env, x: Selector, kind: Kind, code: int, filter: nat, calls: seq<nat>)
    requires env.Valid() && env.variant.Win32Tib?
    ensures var m := Steps(env, 5, Start(env, Raising(x, kind, code, filter), env.tebSel, calls));
      && Inv(env, m) && m.ctl == Exec(Raise(kind, code)) && m.fs == x && m.trace == [Enter(0), Loaded(x)]
      && |m.stack| == 1 && OnChain(env, m.stack[0], Win32Chain)
      && m.stack[0].clause == Except(filter) && m.stack[0].handler == Skip
  {
    var s := Raising(x, kind, code, filter);
    var m0 := Start(env, s, env.tebSel, calls);
    StartInv(env, s, env.tebSel, calls);
    InstallStep(env, m0, s);
    InstallKeeps(env, m0, s);
    var m1 := Step(env, m0);
    TurnIs(env, m1);
    LoopFs(env, m1);
    var m2 := Step(env, m1);
    assert m2.ctl == Exec(s.body) && m2.stack == m1.stack && Depth([]) == 0;
    var m3 := Step(env, m2);
    assert m3.stack == m2.stack + [KSeq(Raise(kind, code))];
    var m4 := Step(env, m3);
    var m5 := Step(env, m4);
    assert m5.stack == m2.stack;
    StepsAdd(env, 3, 2, m0);
    ThreeSteps(env, m0);
    ThreeSteps(env, m3);
    StepsKeepInv(env, 5, m0);
  }

  /** The search comes to its one frame, whose filter takes the exception. */
  lemma RaisingAsks(env: Env, m: Mach, why: Dispatch, filter: nat) returns (m': Mach)
    requires env.Valid() && Inv(env, m) && m.ctl == Search(why, 0) && m.fs != OS2_SEL
    requires |m.stack| == 1 && m.stack[0].KTry? && m.stack[0].clause == Except(filter)
    requires env.answer(filter, why.code, m.trace) == EXECUTE_HANDLER
    ensures m' == Steps(env, 2, m) && Inv(env, m') && m'.ctl == Callback && InFilter(m') && m'.fs == m.fs
    ensures |m'.stack| == 1 && m'.stack[0].handler == m.stack[0].handler
    ensures m'.stack[0].frame.filterResult == EXECUTE_HANDLER
    ensures m'.trace == m.trace + [Asked(0, why.code, EXECUTE_HANDLER)]
  {
    hide Steps, Shape, HeadsOk, StatesOk, Fns, StepLoop, EnterFilter;
    EnterFilterKeeps(env, m, why, 0);
    var m1 := Step(env, m);
    TurnIs(env, m1);
    LoopFs(env, m1);
    FilterWhole(env, m1);
    StepKeepsInv(env, m1);
    assert Init(m1.stack) == [] && Depth([]) == 0;
    m' := Step(env, m1);
    ThreeSteps(env, m);
  }

  lemma RaisingTaken(env: Env, m: Mach)
    requires env.Valid() && Inv(env, m) && m.ctl == Callback && InFilter(m)
    requires |m.stack| == 1 && m.stack[0].frame.filterResult == EXECUTE_HANDLER
    ensures var m' := Steps(env, 2, m);
      m'.ctl == Exec(m.stack[0].handler) && m'.fs == m.fs && m'.trace == m.trace + [Handling(0)]
  {
    hide Steps, Inv, StepLoop, StepCallback, Whole;
    TakesIs(env, m);
    var m1 := Step(env, m);
    TurnIs(env, m1);
    LoopFs(env, m1);
    assert Init(m1.stack) == [] && Depth([]) == 0;
    ThreeSteps(env, m);
  }

  lemma RaisingRun(env: Env, x: Selector, kind: Kind, code: int, filter: nat, calls: seq<nat>)
    requires env.Valid() && env.variant.Win32Tib? && x != OS2_SEL
    requires env.answer(filter, code, [Enter(0), Loaded(x)]) == EXECUTE_HANDLER
    ensures var m := Steps(env, 10, Start(env, Raising(x, kind, code, filter), env.tebSel, calls));
      && m.ctl == Exec(Skip) && m.fs == (if kind.Hardware? then env.tebSel else x)
      && m.trace == [Enter(0), Loaded(x), Asked(0, code, EXECUTE_HANDLER), Handling(0)]
  {
    hide Steps, Shape, HeadsOk, StatesOk, Fns;
    var m0 := Start(env, Raising(x, kind, code, filter), env.tebSel, calls);
    RaisingStarts(env, x, kind, code, filter, calls);
    var m5 := Steps(env, 5, m0);
    RaiseKeeps(env, m5, kind, code);
    var m6 := Step(env, m5);
    assert Core(m5.stack[0]) == Core(m6.stack[0]);
    var m8 := RaisingAsks(env, m6, m6.ctl.why, filter);
    RaisingTaken(env, m8);
    StepsAdd(env, 5, 1, m0);
    StepsAdd(env, 6, 2, m0);
    StepsAdd(env, 8, 2, m0);
    ThreeSteps(env, m5);
  }
}
