/** `spooler_respond_data_t`: the spools a publish has collected, the first 32 in an array and the
    others in an overflow list that grows at its head.  It behaves as a plain stack. */
module SpoolCollector {
  import opened Basics
  import opened MsgIds
  import opened SpoolTree

  const ARRAY_SIZE := 32

  datatype Next = Done | More(id: MsgId)

  class Collector {
    var n: nat
    const spools: array<MsgId>
    var overflow: seq<MsgId>

    ghost predicate Valid()
      reads this
    {
      spools.Length == ARRAY_SIZE && |overflow| == if n <= ARRAY_SIZE then 0 else n - ARRAY_SIZE
    }

    /** The stack, oldest first. */
    ghost function Contents(): seq<MsgId>
      reads this, spools
      requires Valid()
    {
      if n <= ARRAY_SIZE then spools[..n] else spools[..] + Reversed(overflow)
    }

    constructor ()
      ensures Valid() && fresh(spools) && Contents() == []
    {
      n := 0;
      spools := new MsgId[ARRAY_SIZE](_ => OLDEST);
      overflow := [];
    }

    method AddSpool(x: MsgId)
      requires Valid()
      modifies this, spools
      ensures Valid() && Contents() == old(Contents()) + [x]
    {
      if n < ARRAY_SIZE {
        spools[n] := x;
      } else {
        overflow := [x] + overflow;
        assert overflow[1..] == old(overflow);
        assert n == ARRAY_SIZE ==> Reversed(old(overflow)) == [];
      }
      n := n + 1;
    }

    method UnwindNext() returns (r: Next)
      requires Valid()
      modifies this
      ensures Valid()
      ensures r.Done? ==> old(Contents()) == Contents() == []
      ensures r.More? ==> old(Contents()) == Contents() + [r.id]
    {
      if n > ARRAY_SIZE {
        r := More(overflow[0]);
        overflow := overflow[1..];
        n := n - 1;
        assert n == ARRAY_SIZE ==> Reversed(overflow) == [];
      } else if n > 0 {
        n := n - 1;
        r := More(spools[n]);
      } else {
        r := Done;
      }
    }

    /** `rbtree_conditional_walk` with the one-tag range callback. */
    method CollectRange(t: Tree<MsgId>, min: MsgId, max: MsgId)
      requires Valid()
      modifies this, spools
      ensures Valid() && Contents() == old(Contents()) + Collected(t, min, max)
    {
      match t
      case Leaf =>
      case Node(l, x, r) =>
        ghost var c := Contents();
        var dir := OneTagDirection(min, max, x);
        if dir == GoBoth {
          AddSpool(x);
          CollectRange(l, min, max);
          CollectRange(r, min, max);
          assert Contents() == c + ([x] + Collected(l, min, max) + Collected(r, min, max));
        } else if dir == GoLeft {
          CollectRange(l, min, max);
        } else {
          CollectRange(r, min, max);
        }
    }
  }

  function Collected(t: Tree<MsgId>, min: MsgId, max: MsgId): seq<MsgId> {
    match t
    case Leaf => []
    case Node(l, x, r) =>
      match OneTagDirection(min, max, x)
      case GoLeft => Collected(l, min, max)
      case GoRight => Collected(r, min, max)
      case GoBoth => [x] + Collected(l, min, max) + Collected(r, min, max)
  }

  lemma {:induction false} CollectedIsWalk(t: Tree<MsgId>, min: MsgId, max: MsgId)
    ensures Collected(t, min, max)
         == Walk(t, id => OneTagDirection(min, max, id) == GoBoth, id => OneTagDirection(min, max, id))
  {
    match t
    case Leaf =>
    case Node(l, x, r) =>
      CollectedIsWalk(l, min, max);
      CollectedIsWalk(r, min, max);
  }

  /** What the walk leaves on the stack: each spool of the tree from `min` up to before `max`, once. */
  lemma CollectedExactly(t: Tree<MsgId>, min: MsgId, max: MsgId)
    requires Ordered(t, Lt) && Le(min, max)
    ensures var c := Collected(t, min, max);
            NoDup(c) && forall x :: x in c <==> x in Ids(t) && Le(min, x) && Lt(x, max)
  {
    var take := id => OneTagDirection(min, max, id) == GoBoth;
    var dir := id => OneTagDirection(min, max, id);
    CollectedIsWalk(t, min, max);
    OneTagSound(min, max);
    WalkOnce(t, take, dir, Lt);
  }

  /** However the tree is ordered, the walk takes spools of the tree in its range only, and none twice. */
  lemma {:induction false} CollectedWithin(t: Tree<MsgId>, min: MsgId, max: MsgId)
    requires NoDup(Ids(t)) && Le(min, max)
    ensures var c := Collected(t, min, max);
            NoDup(c) && forall x :: x in c ==> x in Ids(t) && Le(min, x) && Lt(x, max)
  {
    match t
    case Leaf =>
    case Node(l, x, r) =>
      ApartInOrder(l, x, r);
      CollectedWithin(l, min, max);
      CollectedWithin(r, min, max);
      OneTagSound(min, max);
  }

  lemma ApartInOrder(l: Tree<MsgId>, x: MsgId, r: Tree<MsgId>)
    requires NoDup(Ids(l) + [x] + Ids(r))
    ensures NoDup(Ids(l)) && NoDup(Ids(r)) && x !in Ids(l) && x !in Ids(r)
    ensures forall y :: y in Ids(l) ==> y !in Ids(r)
  {
    var a, b := Ids(l), Ids(r);
    var all := a + [x] + b;
    assert all[|a|] == x;
    assert forall i :: 0 <= i < |a| ==> all[i] == a[i];
    assert forall i :: 0 <= i < |b| ==> all[|a| + 1 + i] == b[i];
  }
}
