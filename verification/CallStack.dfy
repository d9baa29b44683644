/** The debug call trace kept in the TEB (src/kernel32/thread.cpp): a depth counter and a
    table of at most 128 names. */
module CallStack {
  import opened Machine
  import opened Programs

  const MAX_CALLSTACK_SIZE := 128

  class CallStack {
    /** The calls in progress, outermost first. */
    ghost var calls: seq<nat>
    ghost var Repr: set<object>

    var depth: nat
    var names: array?<Option<nat>>

    ghost predicate Valid()
      reads this, Repr
      ensures Valid() ==> this in Repr
    {
      && this in Repr
      && depth == |calls|
      && (names == null ==> calls == [])
      && (names != null ==>
            && names in Repr && names.Length == MAX_CALLSTACK_SIZE
            && forall i :: 0 <= i < depth && i < MAX_CALLSTACK_SIZE ==> names[i] == Some(calls[i]))
    }

    constructor ()
      ensures Valid() && fresh(Repr) && calls == []
    {
      calls, depth, names := [], 0, null;
      Repr := {this};
    }

    /** dbg_ThreadPushCall: the table is allocated on demand, with whatever it holds; calls deeper
        than its 128 cells are counted but not named. */
    method Push(name: nat)
      requires Valid()
      modifies Repr
      ensures Valid() && fresh(Repr - old(Repr))
      ensures calls == old(calls) + [name] && depth == old(depth) + 1
      ensures names != null && names.Length == 128 && (old(names) != null ==> names == old(names))
      ensures old(depth) < 128 ==> names[old(depth)] == Some(name)
      ensures old(names) != null ==> forall i :: 0 <= i < 128 && i != old(depth) ==> names[i] == old(names[i])
    {
      if names == null {
        names := new Option<nat>[MAX_CALLSTACK_SIZE];
        Repr := Repr + {names};
      }
      if depth < MAX_CALLSTACK_SIZE {
        names[depth] := Some(name);
      }
      depth := depth + 1;
      calls := calls + [name];
    }

    /** dbg_ThreadPopCall: takes the newest entry off, whoever put it there, and clears its cell,
        if it has one. */
    method Pop()
      requires Valid() && calls != []
      modifies Repr
      ensures Valid() && fresh(Repr - old(Repr))
      ensures calls == Init(old(calls)) && depth == old(depth) - 1 && names == old(names)
      ensures names != null && names.Length == 128 && (depth < 128 ==> names[depth] == None)
      ensures forall i :: 0 <= i < 128 && i != depth ==> names[i] == old(names[i])
    {
      depth := depth - 1;
      if names != null && depth < MAX_CALLSTACK_SIZE {
        names[depth] := None;
      }
      calls := calls[..|calls| - 1];
    }
  }
}
