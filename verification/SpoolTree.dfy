/** The search tree of spools: the order of its ids, and the pruned walk by which a publish collects
    the spools between two ids, into an array of 32 slots with an overflow list behind it. */
module SpoolTree {
  import opened Basics
  import opened MsgIds

  // ---- spool_rbtree_compare -------------------------------------------------------------------------

  /** A message id with one tag per multiplexed channel. */
  datatype MultiId = MultiId(time: int, tags: seq<int>)

  /** Tags past the end of a shorter id count as -1. */
  function Tag(id: MultiId, i: nat): int {
    if i < |id.tags| then id.tags[i] else -1
  }

  function Width(a: MultiId, b: MultiId): nat {
    if |a.tags| > |b.tags| then |a.tags| else |b.tags|
  }

  /** The first place at which the tags differ decides. */
  ghost predicate TagsBelow(a: MultiId, b: MultiId) {
    exists k: nat :: Tag(a, k) < Tag(b, k) && forall i: nat :: i < k ==> Tag(a, i) == Tag(b, i)
  }

  ghost predicate Below(a: MultiId, b: MultiId) {
    a.time < b.time || (a.time == b.time && TagsBelow(a, b))
  }

  ghost predicate SamePadded(a: MultiId, b: MultiId) {
    a.time == b.time && forall i: nat :: Tag(a, i) == Tag(b, i)
  }

  method Compare(a: MultiId, b: MultiId) returns (c: int)
    ensures c == 1 || c == -1 || c == 0
    ensures c == -1 <==> Below(a, b)
    ensures c == 1 <==> Below(b, a)
    ensures c == 0 <==> SamePadded(a, b)
  {
    if a.time > b.time { return 1; }
    if a.time < b.time { return -1; }
    var max := Width(a, b);
    var i := 0;
    while i < max
      invariant 0 <= i <= max
      invariant forall j: nat :: j < i ==> Tag(a, j) == Tag(b, j)
    {
      var tag1, tag2 := Tag(a, i), Tag(b, i);
      if tag1 > tag2 {
        assert TagsBelow(b, a);
        AsymmetricTags(a, b);
        return 1;
      } else if tag1 < tag2 {
        assert TagsBelow(a, b);
        AsymmetricTags(a, b);
        return -1;
      }
      i := i + 1;
    }
    return 0;
  }

  lemma AsymmetricTags(a: MultiId, b: MultiId)
    ensures !(TagsBelow(a, b) && TagsBelow(b, a))
  {
  }

  /** The comparison is a total preorder: ids are ordered up to padding, whatever their tag counts. */
  lemma BelowTransitive(a: MultiId, b: MultiId, c: MultiId)
    requires Below(a, b) && Below(b, c)
    ensures Below(a, c)
  {
    if a.time == b.time == c.time {
      var k: nat :| Tag(a, k) < Tag(b, k) && forall i: nat :: i < k ==> Tag(a, i) == Tag(b, i);
      var l: nat :| Tag(b, l) < Tag(c, l) && forall i: nat :: i < l ==> Tag(b, i) == Tag(c, i);
      var n := if k < l then k else l;
      assert Tag(a, n) < Tag(c, n) && forall i: nat :: i < n ==> Tag(a, i) == Tag(c, i);
    }
  }

  lemma SamePaddedBelow(a: MultiId, b: MultiId, c: MultiId)
    requires SamePadded(a, b)
    ensures Below(a, c) <==> Below(b, c)
    ensures Below(c, a) <==> Below(c, b)
  {
    assert forall i: nat :: Tag(a, i) == Tag(b, i);
  }

  /** On one-tag ids it is the order of `MsgIds`. */
  lemma OneTagBelow(a: MsgId, b: MsgId)
    ensures Below(MultiId(a.time, [a.tag]), MultiId(b.time, [b.tag])) <==> Lt(a, b)
  {
    var x, y := MultiId(a.time, [a.tag]), MultiId(b.time, [b.tag]);
    assert Tag(x, 0) == a.tag && Tag(y, 0) == b.tag;
    assert forall k: nat :: k > 0 ==> Tag(x, k) == -1 && Tag(y, k) == -1;
    if a.tag < b.tag {
      assert Tag(x, 0) < Tag(y, 0) && forall i: nat :: i < 0 ==> Tag(x, i) == Tag(y, i);
    }
  }

  /** The tree sorts on the low 32 bits of the time first. */
  function Bucket(time: int): nat {
    time % 0x1_0000_0000
  }

  ghost predicate TreeBelow(a: MultiId, b: MultiId) {
    Bucket(a.time) < Bucket(b.time) || (Bucket(a.time) == Bucket(b.time) && Below(a, b))
  }

  /** So the tree is in the order of the ids exactly as far as times fit 32 unsigned bits. */
  lemma TreeOrder(a: MultiId, b: MultiId)
    requires 0 <= a.time < 0x1_0000_0000 && 0 <= b.time < 0x1_0000_0000
    ensures TreeBelow(a, b) <==> Below(a, b)
  {
  }

  /** A spool waiting for the n-th message has time -2 and is filed as the largest of all. */
  lemma TreeOrderBreaks(a: MultiId, b: MultiId)
    requires a.time == -2 && 0 <= b.time < 0xffff_fffe
    ensures Below(a, b) && TreeBelow(b, a)
  {
  }

  // ---- The pruned walk ------------------------------------------------------------------------------

  datatype Tree<T> = Leaf | Node(left: Tree<T>, id: T, right: Tree<T>)

  datatype Direction = GoLeft | GoRight | GoBoth

  function Ids<T>(t: Tree<T>): seq<T> {
    match t
    case Leaf => []
    case Node(l, x, r) => Ids(l) + [x] + Ids(r)
  }

  ghost predicate Ordered<T(!new)>(t: Tree<T>, below: (T, T) -> bool) {
    match t
    case Leaf => true
    case Node(l, x, r) =>
      && Ordered(l, below) && Ordered(r, below)
      && (forall y :: y in Ids(l) ==> below(y, x))
      && (forall y :: y in Ids(r) ==> below(x, y))
  }

  function Filter<T>(s: seq<T>, p: T -> bool): seq<T> {
    if s == [] then [] else (if p(s[0]) then [s[0]] else []) + Filter(s[1..], p)
  }

  function Walk<T>(t: Tree<T>, take: T -> bool, dir: T -> Direction): seq<T> {
    match t
    case Leaf => []
    case Node(l, x, r) =>
      var here := if take(x) then [x] else [];
      match dir(x)
      case GoLeft => here + Walk(l, take, dir)
      case GoRight => here + Walk(r, take, dir)
      case GoBoth => here + Walk(l, take, dir) + Walk(r, take, dir)
  }

  /** What the walk leaves out, on either side, is out of range. */
  ghost predicate Sound<T(!new)>(take: T -> bool, dir: T -> Direction, below: (T, T) -> bool) {
    && (forall x, y :: dir(x) == GoLeft && below(x, y) ==> !take(y))
    && (forall x, y :: dir(x) == GoRight && below(y, x) ==> !take(y))
  }

  lemma {:induction false} FilterConcat<T>(a: seq<T>, b: seq<T>, p: T -> bool)
    ensures Filter(a + b, p) == Filter(a, p) + Filter(b, p)
  {
    if a == [] {
      assert a + b == b;
    } else {
      var here := if p(a[0]) then [a[0]] else [];
      calc {
        Filter(a + b, p);
        { assert (a + b)[1..] == a[1..] + b && (a + b)[0] == a[0]; }
        here + Filter(a[1..] + b, p);
        { FilterConcat(a[1..], b, p); }
        here + (Filter(a[1..], p) + Filter(b, p));
        (here + Filter(a[1..], p)) + Filter(b, p);
      }
    }
  }

  lemma {:induction false} FilterNone<T>(a: seq<T>, p: T -> bool)
    requires forall x :: x in a ==> !p(x)
    ensures Filter(a, p) == []
  {
    if a != [] { FilterNone(a[1..], p); }
  }

  lemma FilterNode<T>(l: Tree<T>, x: T, r: Tree<T>, p: T -> bool)
    ensures Filter(Ids(Node(l, x, r)), p) == Filter(Ids(l), p) + (if p(x) then [x] else []) + Filter(Ids(r), p)
  {
    FilterConcat(Ids(l) + [x], Ids(r), p);
    FilterConcat(Ids(l), [x], p);
    assert [x][1..] == [];
  }

  /** The pruned walk of an ordered tree meets every id in range once and takes no other. */
  lemma {:induction false} WalkExact<T(!new)>(t: Tree<T>, take: T -> bool, dir: T -> Direction, below: (T, T) -> bool)
    requires Ordered(t, below) && Sound(take, dir, below)
    ensures multiset(Walk(t, take, dir)) == multiset(Filter(Ids(t), take))
  {
    match t
    case Leaf =>
    case Node(l, x, r) =>
      var here := if take(x) then [x] else [];
      FilterNode(l, x, r, take);
      match dir(x) {
        case GoLeft =>
          FilterNone(Ids(r), take);
          WalkExact(l, take, dir, below);
          assert Walk(t, take, dir) == here + Walk(l, take, dir);
        case GoRight =>
          FilterNone(Ids(l), take);
          WalkExact(r, take, dir, below);
          assert Walk(t, take, dir) == here + Walk(r, take, dir);
        case GoBoth =>
          WalkExact(l, take, dir, below);
          WalkExact(r, take, dir, below);
          assert Walk(t, take, dir) == here + Walk(l, take, dir) + Walk(r, take, dir);
      }
  }

  lemma {:induction false} FilterMembers<T>(a: seq<T>, p: T -> bool)
    ensures forall x :: x in Filter(a, p) <==> x in a && p(x)
    ensures NoDup(a) ==> NoDup(Filter(a, p))
  {
    if a != [] {
      FilterMembers(a[1..], p);
      assert a == [a[0]] + a[1..];
    }
  }

  /** In an order that never goes both ways no id is in the tree twice. */
  lemma {:induction false} IdsDistinct<T(!new)>(t: Tree<T>, below: (T, T) -> bool)
    requires Ordered(t, below) && forall a, b :: below(a, b) ==> !below(b, a)
    ensures NoDup(Ids(t))
  {
    match t
    case Leaf =>
    case Node(l, x, r) =>
      IdsDistinct(l, below);
      IdsDistinct(r, below);
      forall i, j | 0 <= i < j < |Ids(t)| ensures Ids(t)[i] != Ids(t)[j] {
        var n := |Ids(l)|;
        if i < n { assert Ids(t)[i] == Ids(l)[i] && below(Ids(l)[i], x); }
        if j < n { assert Ids(t)[j] == Ids(l)[j]; }
        if j > n { assert Ids(t)[j] == Ids(r)[j - n - 1] && below(x, Ids(r)[j - n - 1]); }
        if i > n { assert Ids(t)[i] == Ids(r)[i - n - 1]; }
      }
  }

  lemma {:induction false} DistinctCount<T>(a: seq<T>, x: T)
    ensures multiset(a)[x] <= 1 <==> forall i, j :: 0 <= i < j < |a| ==> a[i] != x || a[j] != x
  {
    if a != [] {
      DistinctCount(a[1..], x);
      assert a == [a[0]] + a[1..];
      if a[0] == x && multiset(a)[x] > 1 {
        assert x in a[1..];
        var j :| 0 <= j < |a[1..]| && a[1..][j] == x;
        assert a[0] == x && a[j + 1] == x;
      }
      if multiset(a)[x] <= 1 {
        forall i, j | 0 <= i < j < |a| ensures a[i] != x || a[j] != x {
          assert a[j] == a[1..][j - 1];
          if i > 0 { assert a[i] == a[1..][i - 1]; }
        }
      } else if a[0] != x {
        var i, j :| 0 <= i < j < |a[1..]| && a[1..][i] == x && a[1..][j] == x;
        assert a[i + 1] == x && a[j + 1] == x;
      }
    }
  }

  lemma SameMultiset<T>(a: seq<T>, b: seq<T>)
    requires multiset(a) == multiset(b) && NoDup(b)
    ensures NoDup(a) && forall x :: x in a <==> x in b
  {
    assert forall x :: x in a <==> x in multiset(a);
    assert forall x :: x in b <==> x in multiset(b);
    forall i, j | 0 <= i < j < |a| ensures a[i] != a[j] {
      DistinctCount(a, a[i]);
      DistinctCount(b, a[i]);
    }
  }

  /** So the walk takes exactly the ids of the tree that are to be taken, and none twice. */
  lemma WalkOnce<T(!new)>(t: Tree<T>, take: T -> bool, dir: T -> Direction, below: (T, T) -> bool)
    requires Ordered(t, below) && Sound(take, dir, below) && forall a, b :: below(a, b) ==> !below(b, a)
    ensures NoDup(Walk(t, take, dir)) && forall x :: x in Walk(t, take, dir) <==> x in Ids(t) && take(x)
  {
    WalkExact(t, take, dir, below);
    FilterMembers(Ids(t), take);
    IdsDistinct(t, below);
    SameMultiset(Walk(t, take, dir), Filter(Ids(t), take));
  }

  lemma {:induction false} OrderedOn<T(!new)>(t: Tree<T>, below: (T, T) -> bool, other: (T, T) -> bool)
    requires Ordered(t, below)
    requires forall a, b :: a in Ids(t) && b in Ids(t) && below(a, b) ==> other(a, b)
    ensures Ordered(t, other)
  {
    match t
    case Leaf =>
    case Node(l, x, r) =>
      assert x in Ids(t);
      assert forall y :: y in Ids(l) || y in Ids(r) ==> y in Ids(t);
      OrderedOn(l, below, other);
      OrderedOn(r, below, other);
  }

  // ---- The two range callbacks ----------------------------------------------------------------------

  /** `compare_msgid_onetag_range`: an id is in range iff it is at or after `min` and before `max`. */
  function OneTagDirection(min: MsgId, max: MsgId, id: MsgId): Direction {
    if min.time < id.time || (min.time == id.time && min.tag <= id.tag) then
      if max.time > id.time || (max.time == id.time && max.tag > id.tag) then GoBoth else GoLeft
    else GoRight
  }

  lemma OneTagSound(min: MsgId, max: MsgId)
    requires Le(min, max)
    ensures Sound(id => OneTagDirection(min, max, id) == GoBoth, id => OneTagDirection(min, max, id), Lt)
    ensures forall id :: OneTagDirection(min, max, id) == GoBoth <==> Le(min, id) && Lt(id, max)
  {
  }

  type TagOrder = (MultiId, MultiId) -> int

  /** The many-tag branch of `collect_spool_range_callback`, for any comparison of tags. */
  predicate MultiTake(min: MultiId, max: MultiId, tagCmp: TagOrder, id: MultiId) {
    if id.time < min.time || max.time < id.time then false
    else if min.time < id.time < max.time then true
    else if id.time == max.time && id.time == min.time then tagCmp(id, max) < 0 && tagCmp(id, min) >= 0
    else (id.time == max.time && tagCmp(id, max) < 0) || (id.time == min.time && tagCmp(id, min) >= 0)
  }

  function MultiDirection(min: MultiId, max: MultiId, id: MultiId): Direction {
    if id.time < min.time then GoRight else if max.time < id.time then GoLeft else GoBoth
  }

  /** It takes the ids in `[min, max)` of the order by time and then by that comparison, and prunes
      nothing of them. */
  lemma MultiTagSound(min: MultiId, max: MultiId, tagCmp: TagOrder, below: (MultiId, MultiId) -> bool)
    requires min.time <= max.time
    requires forall a, b :: below(a, b) ==> a.time <= b.time
    ensures Sound(id => MultiTake(min, max, tagCmp, id), id => MultiDirection(min, max, id), below)
    ensures forall id :: MultiTake(min, max, tagCmp, id) <==>
              && (min.time < id.time || (min.time == id.time && tagCmp(id, min) >= 0))
              && (id.time < max.time || (id.time == max.time && tagCmp(id, max) < 0))
  {
  }

  // ---- On the tree as the code orders it ------------------------------------------------------------

  predicate Fits32(id: MultiId) {
    0 <= id.time < 0x1_0000_0000
  }

  /** The order of the tree, among ids whose times fit. */
  ghost predicate FiledBelow(a: MultiId, b: MultiId) {
    Fits32(a) && Fits32(b) && TreeBelow(a, b)
  }

  lemma FiledAsymmetric(a: MultiId, b: MultiId)
    requires FiledBelow(a, b)
    ensures Below(a, b) && a.time <= b.time && !FiledBelow(b, a)
  {
    TreeOrder(a, b);
    TreeOrder(b, a);
    AsymmetricTags(a, b);
  }

  /** The many-tag walk over the tree, in the order the tree is kept in, collects exactly the ids that
      are not below `min` and are below `max`, each once. */
  lemma MultiCollected(t: Tree<MultiId>, min: MultiId, max: MultiId, tagCmp: TagOrder)
    requires Ordered(t, TreeBelow) && (forall x :: x in Ids(t) ==> Fits32(x)) && min.time <= max.time
    requires forall a: MultiId, b: MultiId :: a.time == b.time ==> (tagCmp(a, b) < 0 <==> TagsBelow(a, b))
    ensures var w := Walk(t, id => MultiTake(min, max, tagCmp, id), id => MultiDirection(min, max, id));
            NoDup(w) && forall x :: x in w <==> x in Ids(t) && !Below(x, min) && Below(x, max)
  {
    var take, dir := id => MultiTake(min, max, tagCmp, id), id => MultiDirection(min, max, id);
    forall a, b | FiledBelow(a, b) ensures a.time <= b.time && !FiledBelow(b, a) { FiledAsymmetric(a, b); }
    OrderedOn(t, TreeBelow, FiledBelow);
    MultiTagSound(min, max, tagCmp, FiledBelow);
    WalkOnce(t, take, dir, FiledBelow);
  }

  function OneTag(id: MsgId): MultiId {
    MultiId(id.time, [id.tag])
  }

  ghost predicate FiledLt(a: MsgId, b: MsgId) {
    TreeBelow(OneTag(a), OneTag(b))
  }

  /** As it is kept the tree holds no id twice, whatever the times. */
  lemma FiledDistinct(t: Tree<MsgId>)
    requires Ordered(t, FiledLt)
    ensures NoDup(Ids(t))
  {
    forall a, b | FiledLt(a, b) ensures !FiledLt(b, a) { AsymmetricTags(OneTag(a), OneTag(b)); }
    IdsDistinct(t, FiledLt);
  }

  /** A tree of one-tag ids as it is kept is in the order of the ids. */
  lemma FiledInOrder(t: Tree<MsgId>)
    requires Ordered(t, FiledLt) && forall x :: x in Ids(t) ==> Fits32(OneTag(x))
    ensures Ordered(t, Lt)
  {
    forall a, b | a in Ids(t) && b in Ids(t) && FiledLt(a, b) ensures Lt(a, b) {
      TreeOrder(OneTag(a), OneTag(b));
      OneTagBelow(a, b);
    }
    OrderedOn(t, FiledLt, Lt);
  }

  /** In general earlier ids are filed before later ones exactly when the low 32 bits of their times say so. */
  lemma TreeOrderIff(a: MultiId, b: MultiId)
    requires a.time < b.time
    ensures TreeBelow(a, b) <==> Bucket(a.time) <= Bucket(b.time)
  {
  }

  /** Past 32 bits the walk can miss a spool in its range: it turns away at the root from the only one. */
  lemma WrappedMissed(tag: int, tagCmp: TagOrder)
    ensures var x, y := MultiId(0x1_0000_0001, [tag]), MultiId(10, [tag]);
            var min, max := MultiId(0x1_0000_0000, [tag]), MultiId(0x1_0000_0002, [tag]);
            var t := Node(Node(Leaf, x, Leaf), y, Leaf);
            && Ordered(t, TreeBelow) && !Below(x, min) && Below(x, max)
            && Walk(t, id => MultiTake(min, max, tagCmp, id), id => MultiDirection(min, max, id)) == []
  {
    var x, y := MultiId(0x1_0000_0001, [tag]), MultiId(10, [tag]);
    assert Ids(Node(Leaf, x, Leaf)) == [x];
    assert Bucket(x.time) == 1 && Bucket(y.time) == 10;
  }
}
