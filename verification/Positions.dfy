/** The conditions on program texts that other results ask for, said position by position: which
    statements a text may have where. */
module Positions {
  import opened Programs
  import opened Machine
  import Orderly
  import Blocks
  import Plain
  import FinalFs

  /** Which part of a statement: the first is the body, the callee or the branch taken on yes,
      the second the handler block or the other branch. */
  datatype Turn = First | Second

  function Part(s: Stmt, t: Turn): Option<Stmt> {
    match s
    case Seq(a, b) => Some(if t.First? then a else b)
    case Choice(_, a, b) => Some(if t.First? then a else b)
    case Try(body, _, handler) => Some(if t.First? then body else handler)
    case OS2Call(_, callee) => if t.First? then Some(callee) else None
    case Traced(_, callee) => if t.First? then Some(callee) else None
    case _ => None
  }

  /** The statement at a position of `s`. */
  function StmtAt(s: Stmt, path: seq<Turn>): Option<Stmt> {
    if path == [] then Some(s)
    else
      var part := Part(s, path[0]);
      if part.None? then None else StmtAt(part.value, path[1..])
  }

  predicate HasTry(s: Stmt, path: seq<Turn>) {
    var at := StmtAt(s, path); at.Some? && at.value.Try?
  }

  /** A call, of which __leave cannot come out. */
  predicate HasCall(s: Stmt, path: seq<Turn>) {
    var at := StmtAt(s, path); at.Some? && (at.value.OS2Call? || at.value.Traced?)
  }

  predicate HasOS2Call(s: Stmt, path: seq<Turn>) {
    var at := StmtAt(s, path); at.Some? && at.value.OS2Call?
  }

  // ----- from a recursion over the text to all its positions -----

  /** What a flag that is passed down the text has become at a position. */
  function FlagAt<F>(next: (Stmt, Turn, F) -> F, s: Stmt, path: seq<Turn>, flag: F): F {
    if path == [] || Part(s, path[0]).None? then flag
    else FlagAt(next, Part(s, path[0]).value, path[1..], next(s, path[0], flag))
  }

  ghost predicate Everywhere<F(!new)>(ok: (Stmt, F) -> bool, next: (Stmt, Turn, F) -> F, s: Stmt, flag: F) {
    forall path :: StmtAt(s, path).Some? ==> ok(StmtAt(s, path).value, FlagAt(next, s, path, flag))
  }

  lemma EverywhereParts<F(!new)>(ok: (Stmt, F) -> bool, next: (Stmt, Turn, F) -> F, s: Stmt, flag: F)
    ensures Everywhere(ok, next, s, flag) <==>
      && ok(s, flag)
      && forall t :: Part(s, t).Some? ==> Everywhere(ok, next, Part(s, t).value, next(s, t, flag))
  {
    if Everywhere(ok, next, s, flag) {
      assert StmtAt(s, []) == Some(s) && FlagAt(next, s, [], flag) == flag;
      forall t | Part(s, t).Some? ensures Everywhere(ok, next, Part(s, t).value, next(s, t, flag)) {
        var c := Part(s, t).value;
        forall path | StmtAt(c, path).Some? ensures ok(StmtAt(c, path).value, FlagAt(next, c, path, next(s, t, flag))) {
          PathInto(next, s, t, path, flag);
          assert StmtAt(s, [t] + path).Some?;
        }
      }
    }
    if ok(s, flag) && forall t :: Part(s, t).Some? ==> Everywhere(ok, next, Part(s, t).value, next(s, t, flag)) {
      forall path | StmtAt(s, path).Some? ensures ok(StmtAt(s, path).value, FlagAt(next, s, path, flag)) {
        if path != [] {
          var c := Part(s, path[0]).value;
          assert Everywhere(ok, next, c, next(s, path[0], flag));
          assert StmtAt(c, path[1..]).Some?;
        }
      }
    }
  }

  lemma PathInto<F>(next: (Stmt, Turn, F) -> F, s: Stmt, t: Turn, path: seq<Turn>, flag: F)
    requires Part(s, t).Some?
    ensures StmtAt(s, [t] + path) == StmtAt(Part(s, t).value, path)
    ensures FlagAt(next, s, [t] + path, flag) == FlagAt(next, Part(s, t).value, path, next(s, t, flag))
  {
    assert ([t] + path)[1..] == path;
  }

  // ----- WellFormed -----

  /** A __leave may stand at a position if, of the __try statements and calls around it, a __try
      is the innermost; or, where there is neither, if what is around the text allows it. */
  predicate Enclosed(s: Stmt, path: seq<Turn>, inTry: bool) {
    || (exists i :: 0 <= i < |path| && HasTry(s, path[..i]) && forall j :: i < j < |path| ==> !HasCall(s, path[..j]))
    || (inTry && forall j :: 0 <= j < |path| ==> !HasCall(s, path[..j]))
  }

  predicate LeaveOk(s: Stmt, inTry: bool) { s.Leave? ==> inTry }

  function LeaveNext(s: Stmt, t: Turn, inTry: bool): bool {
    s.Try? || (inTry && !s.OS2Call? && !s.Traced?)
  }

  lemma {:induction false} WellFormedEverywhere(s: Stmt, inTry: bool)
    ensures WellFormed(s, inTry) <==> Everywhere(LeaveOk, LeaveNext, s, inTry)
    decreases s
  {
    EverywhereParts(LeaveOk, LeaveNext, s, inTry);
    var a, b := Part(s, First), Part(s, Second);
    if a.Some? { WellFormedEverywhere(a.value, LeaveNext(s, First, inTry)); }
    if b.Some? { WellFormedEverywhere(b.value, LeaveNext(s, Second, inTry)); }
  }

  lemma {:induction false} LeaveFlag(s: Stmt, path: seq<Turn>, inTry: bool)
    requires StmtAt(s, path).Some?
    ensures FlagAt(LeaveNext, s, path, inTry) <==> Enclosed(s, path, inTry)
    decreases path
  {
    if path != [] {
      LeaveFlag(Part(s, path[0]).value, path[1..], LeaveNext(s, path[0], inTry));
      Outward(s, path);
      if Enclosed(Part(s, path[0]).value, path[1..], LeaveNext(s, path[0], inTry)) { EnclosedOut(s, path, inTry); }
      if Enclosed(s, path, inTry) { EnclosedIn(s, path, inTry); }
    }
  }

  /** What stands around a position of a part stands around it in the whole. */
  lemma Outward(s: Stmt, path: seq<Turn>)
    requires path != [] && StmtAt(s, path).Some?
    ensures var c, rest := Part(s, path[0]).value, path[1..];
      forall i :: 0 < i <= |path| ==> StmtAt(s, path[..i]) == StmtAt(c, rest[..i - 1])
    ensures StmtAt(s, path[..0]) == Some(s)
  {
    forall i | 0 < i <= |path|
      ensures StmtAt(s, path[..i]) == StmtAt(Part(s, path[0]).value, path[1..][..i - 1])
    {
      assert path[..i][1..] == path[1..][..i - 1];
    }
  }

  lemma EnclosedOut(s: Stmt, path: seq<Turn>, inTry: bool)
    requires path != [] && StmtAt(s, path).Some?
    requires Enclosed(Part(s, path[0]).value, path[1..], LeaveNext(s, path[0], inTry))
    ensures Enclosed(s, path, inTry)
  {
    var c, rest := Part(s, path[0]).value, path[1..];
    Outward(s, path);
    if i :| 0 <= i < |rest| && HasTry(c, rest[..i]) && forall j :: i < j < |rest| ==> !HasCall(c, rest[..j]) {
      assert HasTry(s, path[..i + 1]);
      forall j | i + 1 < j < |path| ensures !HasCall(s, path[..j]) { assert !HasCall(c, rest[..j - 1]); }
    } else {
      forall j | 0 < j < |path| ensures !HasCall(s, path[..j]) { assert !HasCall(c, rest[..j - 1]); }
      assert s.Try? ==> HasTry(s, path[..0]);
    }
  }

  lemma EnclosedIn(s: Stmt, path: seq<Turn>, inTry: bool)
    requires path != [] && StmtAt(s, path).Some? && Enclosed(s, path, inTry)
    ensures Enclosed(Part(s, path[0]).value, path[1..], LeaveNext(s, path[0], inTry))
  {
    var c, rest := Part(s, path[0]).value, path[1..];
    Outward(s, path);
    if i :| 0 <= i < |path| && HasTry(s, path[..i]) && forall j :: i < j < |path| ==> !HasCall(s, path[..j]) {
      forall j | i <= j < |rest| ensures !HasCall(c, rest[..j]) { assert !HasCall(s, path[..j + 1]); }
      if i > 0 { assert HasTry(c, rest[..i - 1]); }
    } else {
      assert !HasCall(s, path[..0]);
      forall j | 0 <= j < |rest| ensures !HasCall(c, rest[..j]) { assert !HasCall(s, path[..j + 1]); }
    }
  }

  /** What a C compiler accepts: every __leave is enclosed by a __try of its own function. */
  lemma WellFormedIff(s: Stmt, inTry: bool)
    ensures WellFormed(s, inTry) <==> forall path :: StmtAt(s, path) == Some(Leave) ==> Enclosed(s, path, inTry)
  {
    WellFormedEverywhere(s, inTry);
    forall path | StmtAt(s, path).Some?
      ensures FlagAt(LeaveNext, s, path, inTry) <==> Enclosed(s, path, inTry)
    {
      LeaveFlag(s, path, inTry);
    }
  }

  // ----- IsPlain -----

  /** A wrapped OS/2 call is around the position. */
  predicate InOS2Call(s: Stmt, path: seq<Turn>, inCall: bool) {
    inCall || exists i :: 0 <= i < |path| && HasOS2Call(s, path[..i])
  }

  predicate PlainOk(s: Stmt, inCall: bool) {
    match s
    case Raise(kind, _) => kind.Hardware?
    case Try(_, _, _) => !inCall
    case LoadFS(_) => inCall
    case _ => true
  }

  function PlainNext(s: Stmt, t: Turn, inCall: bool): bool { inCall || s.OS2Call? }

  lemma {:induction false} PlainEverywhere(s: Stmt, inCall: bool)
    ensures Plain.IsPlain(s, inCall) <==> Everywhere(PlainOk, PlainNext, s, inCall)
    decreases s
  {
    EverywhereParts(PlainOk, PlainNext, s, inCall);
    var a, b := Part(s, First), Part(s, Second);
    if a.Some? { PlainEverywhere(a.value, PlainNext(s, First, inCall)); }
    if b.Some? { PlainEverywhere(b.value, PlainNext(s, Second, inCall)); }
  }

  lemma {:induction false} PlainFlag(s: Stmt, path: seq<Turn>, inCall: bool)
    requires StmtAt(s, path).Some?
    ensures FlagAt(PlainNext, s, path, inCall) <==> InOS2Call(s, path, inCall)
    decreases path
  {
    if path != [] {
      var c, rest := Part(s, path[0]).value, path[1..];
      PlainFlag(c, rest, PlainNext(s, path[0], inCall));
      Outward(s, path);
      if i :| 0 <= i < |rest| && HasOS2Call(c, rest[..i]) { assert HasOS2Call(s, path[..i + 1]); }
      if i :| 0 <= i < |path| && HasOS2Call(s, path[..i]) && i > 0 { assert HasOS2Call(c, rest[..i - 1]); }
      assert s.OS2Call? <==> HasOS2Call(s, path[..0]);
    }
  }

  lemma IsPlainIff(s: Stmt)
    ensures Plain.IsPlain(s, false) <==>
      forall path :: StmtAt(s, path).Some? ==>
        match StmtAt(s, path).value
        case Raise(kind, _) => kind.Hardware?
        case Try(_, _, _) => !InOS2Call(s, path, false)
        case LoadFS(_) => InOS2Call(s, path, false)
        case _ => true
  {
    PlainEverywhere(s, false);
    forall path | StmtAt(s, path).Some?
      ensures FlagAt(PlainNext, s, path, false) <==> InOS2Call(s, path, false)
    {
      PlainFlag(s, path, false);
    }
  }

  // ----- KeepsFs -----

  /** A __try statement or a call is around the position. */
  predicate IsInside(s: Stmt, path: seq<Turn>, inside: bool) {
    inside || exists i :: 0 <= i < |path| && (HasTry(s, path[..i]) || HasCall(s, path[..i]))
  }

  predicate LoadOk(s: Stmt, inside: bool) { s.LoadFS? ==> inside }

  function LoadNext(s: Stmt, t: Turn, inside: bool): bool { inside || s.Try? || s.OS2Call? || s.Traced? }

  lemma {:induction false} KeepsEverywhere(s: Stmt, inside: bool)
    ensures inside || FinalFs.KeepsFs(s) <==> Everywhere(LoadOk, LoadNext, s, inside)
    decreases s
  {
    EverywhereParts(LoadOk, LoadNext, s, inside);
    var a, b := Part(s, First), Part(s, Second);
    if a.Some? { KeepsEverywhere(a.value, LoadNext(s, First, inside)); }
    if b.Some? { KeepsEverywhere(b.value, LoadNext(s, Second, inside)); }
  }

  lemma {:induction false} LoadFlag(s: Stmt, path: seq<Turn>, inside: bool)
    requires StmtAt(s, path).Some?
    ensures FlagAt(LoadNext, s, path, inside) <==> IsInside(s, path, inside)
    decreases path
  {
    if path != [] {
      var c, rest := Part(s, path[0]).value, path[1..];
      LoadFlag(c, rest, LoadNext(s, path[0], inside));
      Outward(s, path);
      if i :| 0 <= i < |rest| && (HasTry(c, rest[..i]) || HasCall(c, rest[..i])) {
        assert HasTry(s, path[..i + 1]) || HasCall(s, path[..i + 1]);
      }
      if i :| 0 <= i < |path| && (HasTry(s, path[..i]) || HasCall(s, path[..i])) && i > 0 {
        assert HasTry(c, rest[..i - 1]) || HasCall(c, rest[..i - 1]);
      }
      assert (s.Try? || s.OS2Call? || s.Traced?) <==> (HasTry(s, path[..0]) || HasCall(s, path[..0]));
    }
  }

  /** Code that loads FS only stands inside __try statements and calls. */
  lemma KeepsFsIff(s: Stmt)
    ensures FinalFs.KeepsFs(s) <==>
      forall path :: StmtAt(s, path).Some? && StmtAt(s, path).value.LoadFS? ==> IsInside(s, path, false)
  {
    KeepsEverywhere(s, false);
    forall path | StmtAt(s, path).Some?
      ensures FlagAt(LoadNext, s, path, false) <==> IsInside(s, path, false)
    {
      LoadFlag(s, path, false);
    }
  }

  // ----- which exceptions a text raises -----

  predicate NoRaise(s: Stmt, flag: bool) { !s.Raise? }
  predicate KernelRaise(s: Stmt, flag: bool) { s.Raise? ==> s.kind.Hardware? }
  function NoFlag(s: Stmt, t: Turn, flag: bool): bool { flag }

  lemma {:induction false} RaiseFreeEverywhere(s: Stmt)
    ensures Orderly.RaiseFree(s) <==> Everywhere(NoRaise, NoFlag, s, false)
    decreases s
  {
    EverywhereParts(NoRaise, NoFlag, s, false);
    var a, b := Part(s, First), Part(s, Second);
    if a.Some? { RaiseFreeEverywhere(a.value); }
    if b.Some? { RaiseFreeEverywhere(b.value); }
  }

  lemma {:induction false} HardwareEverywhere(s: Stmt)
    ensures Blocks.HardwareOnly(s) <==> Everywhere(KernelRaise, NoFlag, s, false)
    decreases s
  {
    EverywhereParts(KernelRaise, NoFlag, s, false);
    var a, b := Part(s, First), Part(s, Second);
    if a.Some? { HardwareEverywhere(a.value); }
    if b.Some? { HardwareEverywhere(b.value); }
  }

  lemma RaiseFreeIff(s: Stmt)
    ensures Orderly.RaiseFree(s) <==> forall path :: StmtAt(s, path).Some? ==> !StmtAt(s, path).value.Raise?
  {
    RaiseFreeEverywhere(s);
    if Everywhere(NoRaise, NoFlag, s, false) {
      forall path | StmtAt(s, path).Some? ensures !StmtAt(s, path).value.Raise? {
        assert NoRaise(StmtAt(s, path).value, FlagAt(NoFlag, s, path, false));
      }
    } else {
      var path :| StmtAt(s, path).Some? && !NoRaise(StmtAt(s, path).value, FlagAt(NoFlag, s, path, false));
      assert StmtAt(s, path).value.Raise?;
    }
  }

  lemma HardwareOnlyIff(s: Stmt)
    ensures Blocks.HardwareOnly(s) <==>
      forall path :: StmtAt(s, path).Some? && StmtAt(s, path).value.Raise? ==> StmtAt(s, path).value.kind.Hardware?
  {
    HardwareEverywhere(s);
    if Everywhere(KernelRaise, NoFlag, s, false) {
      forall path | StmtAt(s, path).Some? && StmtAt(s, path).value.Raise? ensures StmtAt(s, path).value.kind.Hardware? {
        assert KernelRaise(StmtAt(s, path).value, FlagAt(NoFlag, s, path, false));
      }
    } else {
      var path :| StmtAt(s, path).Some? && !KernelRaise(StmtAt(s, path).value, FlagAt(NoFlag, s, path, false));
      assert StmtAt(s, path).value.Raise? && !StmtAt(s, path).value.kind.Hardware?;
    }
  }

  // ----- Quiet -----

  /** The position is in an except or finally block. */
  predicate InBlock(s: Stmt, path: seq<Turn>, inBlock: bool) {
    inBlock || exists i :: 0 <= i < |path| && HasTry(s, path[..i]) && path[i].Second?
  }

  /** What is innermost around the position, of __try statements and calls, is the body of a
      __try/__finally. */
  predicate InFinallyBody(s: Stmt, path: seq<Turn>, inBody: bool) {
    || (exists i :: 0 <= i < |path| && HasFinally(s, path[..i]) && path[i].First? && NoneAfter(s, path, i))
    || (inBody && NoneAfter(s, path, -1))
  }

  predicate HasFinally(s: Stmt, path: seq<Turn>) {
    HasTry(s, path) && StmtAt(s, path).value.clause.Finally?
  }

  /** Neither a __try statement nor a call is between place `i` on the path and its end. */
  predicate NoneAfter(s: Stmt, path: seq<Turn>, i: int) {
    forall j :: 0 <= j && i < j < |path| ==> !HasTry(s, path[..j]) && !HasCall(s, path[..j])
  }

  datatype Around = Around(inBody: bool, inBlock: bool)

  predicate QuietOk(s: Stmt, f: Around) { (s.Leave? ==> f.inBody) && (s.Raise? ==> !f.inBlock) }

  function QuietNext(s: Stmt, t: Turn, f: Around): Around {
    match s
    case Try(_, clause, _) => Around(t.First? && clause.Finally?, f.inBlock || t.Second?)
    case OS2Call(_, _) => f.(inBody := false)
    case Traced(_, _) => f.(inBody := false)
    case _ => f
  }

  lemma {:induction false} QuietEverywhere(s: Stmt, f: Around)
    ensures Orderly.Quiet(s, f.inBody) && (f.inBlock ==> Orderly.RaiseFree(s)) <==> Everywhere(QuietOk, QuietNext, s, f)
    decreases s
  {
    EverywhereParts(QuietOk, QuietNext, s, f);
    var a, b := Part(s, First), Part(s, Second);
    if a.Some? { QuietEverywhere(a.value, QuietNext(s, First, f)); }
    if b.Some? { QuietEverywhere(b.value, QuietNext(s, Second, f)); }
  }

  lemma {:induction false} BlockFlag(s: Stmt, path: seq<Turn>, f: Around)
    requires StmtAt(s, path).Some?
    ensures FlagAt(QuietNext, s, path, f).inBlock <==> InBlock(s, path, f.inBlock)
    decreases path
  {
    if path != [] {
      var c, rest := Part(s, path[0]).value, path[1..];
      BlockFlag(c, rest, QuietNext(s, path[0], f));
      Outward(s, path);
      if i :| 0 <= i < |rest| && HasTry(c, rest[..i]) && rest[i].Second? {
        assert HasTry(s, path[..i + 1]) && path[i + 1].Second?;
      }
      if i :| 0 <= i < |path| && HasTry(s, path[..i]) && path[i].Second? && i > 0 {
        assert HasTry(c, rest[..i - 1]) && rest[i - 1].Second?;
      }
      assert s.Try? <==> HasTry(s, path[..0]);
    }
  }

  lemma {:induction false} BodyFlag(s: Stmt, path: seq<Turn>, f: Around)
    requires StmtAt(s, path).Some?
    ensures FlagAt(QuietNext, s, path, f).inBody <==> InFinallyBody(s, path, f.inBody)
    decreases path
  {
    if path != [] {
      var c, rest := Part(s, path[0]).value, path[1..];
      var g := QuietNext(s, path[0], f);
      BodyFlag(c, rest, g);
      if InFinallyBody(c, rest, g.inBody) { BodyOut(s, path, f); }
      if InFinallyBody(s, path, f.inBody) { BodyIn(s, path, f); }
    }
  }

  lemma BodyOut(s: Stmt, path: seq<Turn>, f: Around)
    requires path != [] && StmtAt(s, path).Some?
    requires InFinallyBody(Part(s, path[0]).value, path[1..], QuietNext(s, path[0], f).inBody)
    ensures InFinallyBody(s, path, f.inBody)
  {
    var c, rest := Part(s, path[0]).value, path[1..];
    Outward(s, path);
    forall i | -1 <= i < |rest| && NoneAfter(c, rest, i) ensures NoneAfter(s, path, i + 1) {
      forall j | i + 1 < j < |path| ensures !HasTry(s, path[..j]) && !HasCall(s, path[..j]) {
        assert !HasTry(c, rest[..j - 1]) && !HasCall(c, rest[..j - 1]);
      }
    }
    if i :| 0 <= i < |rest| && HasFinally(c, rest[..i]) && rest[i].First? && NoneAfter(c, rest, i) {
      assert HasFinally(s, path[..i + 1]) && path[i + 1].First?;
    } else {
      assert NoneAfter(s, path, 0);
      assert s.Try? ==> HasTry(s, path[..0]) && path[0].First?;
    }
  }

  lemma BodyIn(s: Stmt, path: seq<Turn>, f: Around)
    requires path != [] && StmtAt(s, path).Some? && InFinallyBody(s, path, f.inBody)
    ensures InFinallyBody(Part(s, path[0]).value, path[1..], QuietNext(s, path[0], f).inBody)
  {
    var c, rest := Part(s, path[0]).value, path[1..];
    Outward(s, path);
    forall i | -1 <= i < |path| && NoneAfter(s, path, i) ensures NoneAfter(c, rest, i - 1) {
      forall j | 0 <= j && i - 1 < j < |rest| ensures !HasTry(c, rest[..j]) && !HasCall(c, rest[..j]) {
        assert !HasTry(s, path[..j + 1]) && !HasCall(s, path[..j + 1]);
      }
    }
    if i :| 0 <= i < |path| && HasFinally(s, path[..i]) && path[i].First? && NoneAfter(s, path, i) {
      if i > 0 { assert HasFinally(c, rest[..i - 1]) && rest[i - 1].First?; }
    } else {
      assert !HasTry(s, path[..0]) && !HasCall(s, path[..0]);
      assert NoneAfter(c, rest, -2) && NoneAfter(c, rest, -1);
    }
  }

  /** No raise in an except or finally block, and no __leave but out of the body of a
      __try/__finally. */
  lemma QuietIff(s: Stmt)
    ensures Orderly.Quiet(s, false) <==>
      forall path :: StmtAt(s, path).Some? ==>
        && (StmtAt(s, path).value.Leave? ==> InFinallyBody(s, path, false))
        && (StmtAt(s, path).value.Raise? ==> !InBlock(s, path, false))
  {
    var f := Around(false, false);
    QuietEverywhere(s, f);
    forall path | StmtAt(s, path).Some?
      ensures FlagAt(QuietNext, s, path, f) == Around(InFinallyBody(s, path, false), InBlock(s, path, false))
    {
      BodyFlag(s, path, f);
      BlockFlag(s, path, f);
    }
  }

  // ----- AlwaysRaises -----

  /** A run that takes the branches as `pick` says comes from the start of `s` to the position
      `path`, under no __try of `s`, if what stands before it comes to its end. */
  predicate Reached(s: Stmt, pick: seq<Turn> -> bool, path: seq<Turn>) {
    StmtAt(s, path).Some? && forall i :: 0 <= i < |path| ==> TurnTaken(s, pick, path, i)
  }

  predicate TurnTaken(s: Stmt, pick: seq<Turn> -> bool, path: seq<Turn>, i: nat)
    requires i < |path|
  {
    var at := StmtAt(s, path[..i]);
    at.Some? &&
    match at.value
    case Seq(a, _) => path[i].Second? ==> Orderly.Harmless(a)
    case Choice(_, _, _) => path[i].First? == pick(path[..i])
    case Try(_, _, _) => false
    case _ => true
  }

  predicate Faults(s: Stmt, path: seq<Turn>) {
    var at := StmtAt(s, path); at.Some? && at.value.Raise? && at.value.kind.Hardware?
  }

  ghost predicate ReachesFault(s: Stmt, pick: seq<Turn> -> bool) {
    exists path :: Reached(s, pick, path) && Faults(s, path)
  }

  lemma ReachedPart(s: Stmt, pick: seq<Turn> -> bool, sub: seq<Turn> -> bool, t: Turn, path: seq<Turn>)
    requires Part(s, t).Some? && forall p :: sub(p) == pick([t] + p)
    ensures Reached(s, pick, [t] + path) <==>
      TurnTaken(s, pick, [t] + path, 0) && Reached(Part(s, t).value, sub, path)
    ensures Faults(s, [t] + path) <==> Faults(Part(s, t).value, path)
  {
    var c := Part(s, t).value;
    var whole := [t] + path;
    assert whole[1..] == path;
    forall i | 0 <= i < |path| ensures TurnTaken(s, pick, whole, i + 1) <==> TurnTaken(c, sub, path, i) {
      assert whole[..i + 1] == [t] + path[..i] && whole[..i + 1][1..] == path[..i];
    }
    if Reached(s, pick, whole) {
      forall i | 0 <= i < |path| ensures TurnTaken(c, sub, path, i) { assert TurnTaken(s, pick, whole, i + 1); }
    }
    if TurnTaken(s, pick, whole, 0) && Reached(c, sub, path) {
      forall i | 0 <= i < |whole| ensures TurnTaken(s, pick, whole, i) {
        if i > 0 { assert TurnTaken(c, sub, path, i - 1); }
      }
    }
  }

  lemma {:induction false} FaultReached(s: Stmt, pick: seq<Turn> -> bool) returns (path: seq<Turn>)
    requires Orderly.AlwaysRaises(s)
    ensures Reached(s, pick, path) && Faults(s, path)
    decreases s
  {
    if s.Raise? {
      path := [];
    } else {
      var t := if (s.Seq? && !Orderly.AlwaysRaises(s.first)) || (s.Choice? && !pick([])) then Second else First;
      var sub := (p: seq<Turn>) => pick([t] + p);
      var rest := FaultReached(Part(s, t).value, sub);
      path := [t] + rest;
      ReachedPart(s, pick, sub, t, rest);
      assert path[..0] == [];
    }
  }

  /** If not, there are branches to take so that no fault is reached. */
  lemma {:induction false} FaultMissed(s: Stmt) returns (pick: seq<Turn> -> bool)
    requires !Orderly.AlwaysRaises(s)
    ensures forall path :: Reached(s, pick, path) ==> !Faults(s, path)
    decreases s
  {
    var a, b := Part(s, First), Part(s, Second);
    var pickA: seq<Turn> -> bool, pickB: seq<Turn> -> bool := ((p: seq<Turn>) => true), ((p: seq<Turn>) => true);
    if a.Some? && !Orderly.AlwaysRaises(a.value) { pickA := FaultMissed(a.value); }
    if b.Some? && !Orderly.AlwaysRaises(b.value) { pickB := FaultMissed(b.value); }
    pick := (p: seq<Turn>) =>
      if p == [] then a.Some? && !Orderly.AlwaysRaises(a.value)
      else if p[0].First? then pickA(p[1..]) else pickB(p[1..]);
    forall path: seq<Turn> | Reached(s, pick, path) ensures !Faults(s, path) {
      if path != [] {
        assert path == [path[0]] + path[1..] && path[..0] == [];
        assert TurnTaken(s, pick, path, 0);
        ReachedPart(s, pick, if path[0].First? then pickA else pickB, path[0], path[1..]);
      }
    }
  }

  /** A text is bound to fault if and only if, whichever branches are taken, a run comes to a
      fault under no __try of its own, with nothing but harmless code before it. */
  lemma AlwaysRaisesIff(s: Stmt)
    ensures Orderly.AlwaysRaises(s) <==> forall pick :: ReachesFault(s, pick)
  {
    if Orderly.AlwaysRaises(s) {
      forall pick ensures ReachesFault(s, pick) {
        var path := FaultReached(s, pick);
      }
    } else {
      var pick := FaultMissed(s);
      assert !ReachesFault(s, pick);
    }
  }
}
