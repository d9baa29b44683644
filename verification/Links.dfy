/** The pPrev slot, as the OS/2 kernel reads it: what the handlers put there when it calls them
    along the OS/2 chain. */
module Links {
  import opened Programs
  import opened Machine
  import opened Invariant
  import opened Lowering
  import opened Correctness

  /** A slot whose pPrev, if it is a frame's, holds `p`. */
  function Linked(k: Slot, p: Ptr): Slot {
    if k.KTry? then k.(frame := k.frame.(prev := p)) else k
  }

  /** The walk, from the innermost frame below level `q`: in every frame it comes to it puts the
      next outer frame of the OS/2 chain into pPrev, and writes nothing else. */
  lemma {:induction false} WalkWrites(env: Env, stack: Stack, q: nat)
    requires env.Valid() && env.variant.Win32Tib? && Shape(env, stack) && q <= |stack|
    ensures var r := WalkOs2(stack, Top(env, stack[..q], Os2Chain));
      forall i :: 0 <= i < |stack| ==>
        r[i] == if i < q then Linked(stack[i], Top(env, stack[..i], Os2Chain)) else stack[i]
    decreases q
  {
    hide Shape;
    if q == 0 {
      assert stack[..0] == [];
    } else {
      assert Init(stack[..q]) == stack[..q - 1] && Last(stack[..q]) == stack[q - 1];
      var p := q - 1;
      if stack[p].KTry? {
        FrameAt(env, stack, p);
        TopIsOnChain(env, stack[..p], Os2Chain);
        var r := SetFrame(stack, p, stack[p].frame.(prev := stack[p].frame.prevOs2));
        SameShape(env, stack, r);
        assert r[..p] == stack[..p];
        assert forall i :: 0 <= i <= p ==> r[..i] == stack[..i];
        assert OnChain(env, stack[p], Os2Chain);
        WalkWrites(env, r, p);
      } else {
        WalkWrites(env, stack, p);
      }
    }
  }

  /** The frames met by following pPrev from `p`, and where the last one leads. */
  function PrevWalk(stack: Stack, p: Ptr): (seq<Ptr>, Ptr)
    decreases p
  {
    if !IsFrame(stack, p) then ([], p) else
    var next := stack[p].frame.prev;
    if next < p then
      var w := PrevWalk(stack, next);
      ([p] + w.0, w.1)
    else ([p], next)
  }

  lemma {:induction false} PrevWalkIsFrames(env: Env, w: Stack, q: nat)
    requires env.Valid() && q <= |w|
    requires forall i :: 0 <= i < q && w[i].KTry? ==> w[i].frame.prev == Top(env, w[..i], Os2Chain)
    ensures PrevWalk(w, Top(env, w[..q], Os2Chain)) == (Frames(env, w[..q], Os2Chain), env.baseOs2)
  {
    if q == 0 {
      assert w[..0] == [];
    } else {
      assert Init(w[..q]) == w[..q - 1] && Last(w[..q]) == w[q - 1];
      TopIsOnChain(env, w[..q - 1], Os2Chain);
      PrevWalkIsFrames(env, w, q - 1);
      if !w[q - 1].KTry? { assert Frames(env, w[..q], Os2Chain) == Frames(env, w[..q - 1], Os2Chain); }
    }
  }

  /** After the handlers have been called along the OS/2 chain, pPrev leads through all installed
      frames, innermost first, and out to the chain the thread was given. */
  lemma WalkRestoresChain(env: Env, stack: Stack)
    requires env.Valid() && env.variant.Win32Tib? && Shape(env, stack)
    ensures var h := Top(env, stack, Os2Chain);
      var r := WalkOs2(stack, h);
      && (forall i :: 0 <= i < |stack| ==> r[i] == Linked(stack[i], Top(env, stack[..i], Os2Chain)))
      && PrevWalk(r, h) == (Frames(env, stack, Os2Chain), env.baseOs2)
  {
    var r := WalkOs2(stack, Top(env, stack, Os2Chain));
    assert stack[..|stack|] == stack && r[..|r|] == r;
    WalkWrites(env, stack, |stack|);
    WalkIsSame(stack, Top(env, stack, Os2Chain));
    SameTop(env, stack, r, Os2Chain);
    forall i | 0 <= i < |r| && r[i].KTry? ensures r[i].frame.prev == Top(env, r[..i], Os2Chain) {
      SameCut(stack, r, i);
      SameTop(env, stack[..i], r[..i], Os2Chain);
    }
    PrevWalkIsFrames(env, r, |r|);
    SameFrames(env, stack, r);
  }

  lemma SameCut(a: Stack, b: Stack, i: nat)
    requires Same(a, b) && i <= |a|
    ensures Same(a[..i], b[..i])
  {
  }

  lemma {:induction false} SameFrames(env: Env, a: Stack, b: Stack)
    requires Same(a, b)
    ensures Frames(env, a, Os2Chain) == Frames(env, b, Os2Chain)
  {
    if a != [] {
      SameInit(a, b);
      SameFrames(env, Init(a), Init(b));
    }
  }

  /** So whenever a fault has come to the Win32 dispatcher, in either variant and any run, the
      kernel, reading pPrev from the head in the OS/2 TIB on, meets exactly the installed frames
      and then the chain the thread was given. */
  lemma FaultLeavesOs2Chain(env: Env, m: Mach, code: int)
    requires env.Valid() && Inv(env, m) && m.ctl == Exec(Raise(Hardware, code))
    ensures var m' := Step(env, m);
      PrevWalk(m'.stack, Head(m'.heads, 0x150b)) == (Frames(env, m.stack, Os2Chain), env.baseOs2)
  {
    InvShape(env, m);
    if env.variant.Win32Tib? {
      WalkRestoresChain(env, m.stack);
    } else {
      assert m.stack[..|m.stack|] == m.stack;
      forall i | 0 <= i < |m.stack| && m.stack[i].KTry?
        ensures m.stack[i].frame.prev == Top(env, m.stack[..i], Os2Chain)
      {
        FrameAt(env, m.stack, i);
        assert OnChain(env, m.stack[i], Os2Chain);
      }
      PrevWalkIsFrames(env, m.stack, |m.stack|);
    }
  }
}
