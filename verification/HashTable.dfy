/** The hash table of `uthash.h`: an application-order list, bucket chains and a Bloom filter kept in
    step by add, delete, sort and bucket doubling, for any hash function.  An element is an index into the
    application's objects; the list and the chains are the link fields of their handles. */
module HashTable {
  import opened Basics
  import opened Links
  import opened HashBound
  import opened HashBuckets
  import Srt = HashSort

  /** A handle linked in at the head of a chain. */
  method PushHandle(hhNext: array<int>, hhPrev: array<int>, heads: seq<Head>, b: nat, e: Elmt, count: nat, mult: nat,
                    ghost bs: seq<Bucket>, ghost hash: HashFn)
    returns (heads': seq<Head>)
    requires hhNext != hhPrev && hhNext.Length == hhPrev.Length && 0 <= e < hhNext.Length
    requires |bs| > 0 && ChainsOk(bs, hash) && Linked(bs, heads, hhNext[..], hhPrev[..])
    requires b == ToBkt(hash, e, |bs|) && e !in bs[b].chain
    modifies hhNext, hhPrev
    ensures Linked(bs[b := Bucket([e] + bs[b].chain, count, mult)], heads', hhNext[..], hhPrev[..])
    ensures forall x :: 0 <= x < hhNext.Length && x != e ==> hhNext[x] == old(hhNext[x])
  {
    ghost var nx, pv, s := hhNext[..], hhPrev[..], bs[b].chain;
    var first := heads[b].first;
    assert LinkedAt(bs[b], heads[b], nx, pv);
    FirstNull(s, |nx|);
    hhPrev[e] := NULL;
    hhNext[e] := first;
    if first != NULL { hhPrev[first] := e; }
    heads' := heads[b := Head(e, count, mult)];
    assert hhNext[..] == nx[e := heads[b].first];
    assert hhPrev[..] == if s == [] then pv[e := NULL] else pv[e := NULL][s[0] := e];
    PushLinked(bs, heads, hash, nx, pv, e, Bucket([e] + s, count, mult), hhPrev[..]);
  }

  /** One element of an old chain into the doubled buckets. */
  method RefileOne(hhNext: array<int>, hhPrev: array<int>, heads: seq<Head>, e: Elmt, hash: HashFn, ideal: nat,
                   ghost bs: seq<Bucket>, ghost done: seq<Elmt>)
    returns (heads': seq<Head>, excess: nat)
    requires hhNext != hhPrev && hhNext.Length == hhPrev.Length && 0 <= e < hhNext.Length && ideal > 0
    requires Moving(bs, hash, done, ideal) && Linked(bs, heads, hhNext[..], hhPrev[..]) && e !in done
    modifies hhNext, hhPrev
    ensures var bs' := Refiled(bs, hash, e, ideal);
            && Moving(bs', hash, done + [e], ideal) && Linked(bs', heads', hhNext[..], hhPrev[..])
            && Excess(bs', ideal) == Excess(bs, ideal) + excess
    ensures forall x :: 0 <= x < hhNext.Length && x != e ==> hhNext[x] == old(hhNext[x])
  {
    var b := ToBkt(hash, e, |heads|);
    assert LinkedAt(bs[b], heads[b], hhNext[..], hhPrev[..]);
    var count, mult := heads[b].count + 1, heads[b].mult;
    excess := 0;
    if count > ideal { excess, mult := 1, count / ideal; }
    MovingStep(bs, hash, done, ideal, e);
    heads' := PushHandle(hhNext, hhPrev, heads, b, e, count, mult, bs, hash);
  }

  /** The inner loop of an expansion with `k` handles of the old chain moved: the rest is still linked. */
  ghost predicate InnerAt(nx: seq<int>, pv: seq<int>, heads: seq<Head>, hash: HashFn, ideal: nat, bs: seq<Bucket>,
                          done: seq<Elmt>, chain: seq<Elmt>, k: int, thh: int)
  {
    && 0 <= k <= |chain| && thh == First(chain[k..]) && List(nx, chain[k..])
    && Moving(bs, hash, done + chain[..k], ideal) && Linked(bs, heads, nx, pv)
  }

  lemma InnerNext(nx: seq<int>, nx': seq<int>, done: seq<Elmt>, chain: seq<Elmt>, k: nat)
    requires k < |chain| && List(nx, chain[k..]) && NoDup(chain) && |nx'| == |nx|
    requires forall x :: 0 <= x < |nx| && x != chain[k] ==> nx'[x] == nx[x]
    ensures List(nx', chain[k + 1..]) && InPool(chain[k..], |nx|) && nx[chain[k]] == First(chain[k + 1..])
    ensures done + chain[..k] + [chain[k]] == done + chain[..k + 1]
  {
    var t := chain[k..];
    SuffixList(nx, t, 1);
    assert t[1..] == chain[k + 1..] && t[0] == chain[k];
    SuffixList(nx, t, 0);
    assert chain[k] !in chain[k + 1..];
    ListFrame(nx, chain[k + 1..], nx');
  }

  /** One round of the inner loop: the handle's link is read before it is overwritten. */
  method InnerStep(hhNext: array<int>, hhPrev: array<int>, heads: seq<Head>, thh: int, hash: HashFn, ideal: nat,
                   ghost bs: seq<Bucket>, ghost done: seq<Elmt>, ghost chain: seq<Elmt>, ghost k: int)
    returns (nxt: int, heads': seq<Head>, excess: nat)
    requires hhNext != hhPrev && hhNext.Length == hhPrev.Length && ideal > 0 && NoDup(chain) && k < |chain|
    requires InnerAt(hhNext[..], hhPrev[..], heads, hash, ideal, bs, done, chain, k, thh) && chain[k] !in done
    modifies hhNext, hhPrev
    ensures var bs' := Refiled(bs, hash, thh, ideal);
            && InnerAt(hhNext[..], hhPrev[..], heads', hash, ideal, bs', done, chain, k + 1, nxt)
            && Excess(bs', ideal) == Excess(bs, ideal) + excess
    ensures forall x :: 0 <= x < hhNext.Length && x !in chain ==> hhNext[x] == old(hhNext[x])
  {
    ghost var nx := hhNext[..];
    assert thh == chain[k];
    InnerNext(nx, nx, done, chain, k);
    nxt := hhNext[thh];
    heads', excess := RefileOne(hhNext, hhPrev, heads, thh, hash, ideal, bs, done + chain[..k]);
    InnerNext(nx, hhNext[..], done, chain, k);
  }

  /** The inner loop of an expansion: one old chain, from its head. */
  method RefileChain(hhNext: array<int>, hhPrev: array<int>, heads: seq<Head>, first: int, hash: HashFn, ideal: nat,
                     ghost bs: seq<Bucket>, ghost done: seq<Elmt>, ghost chain: seq<Elmt>)
    returns (heads': seq<Head>, excess: nat, ghost bs': seq<Bucket>)
    requires hhNext != hhPrev && hhNext.Length == hhPrev.Length && ideal > 0
    requires Moving(bs, hash, done, ideal) && Linked(bs, heads, hhNext[..], hhPrev[..])
    requires List(hhNext[..], chain) && NoDup(chain) && first == First(chain) && forall e :: e in chain ==> e !in done
    modifies hhNext, hhPrev
    ensures |bs'| == |bs| && Moving(bs', hash, done + chain, ideal) && Linked(bs', heads', hhNext[..], hhPrev[..])
    ensures Excess(bs', ideal) == Excess(bs, ideal) + excess
    ensures forall x :: 0 <= x < hhNext.Length && x !in chain ==> hhNext[x] == old(hhNext[x])
  {
    heads', excess, bs' := heads, 0, bs;
    var thh := first;
    ghost var k := 0;
    assert done + chain[..0] == done && chain[0..] == chain;
    while thh != NULL
      invariant InnerAt(hhNext[..], hhPrev[..], heads', hash, ideal, bs', done, chain, k, thh) && |bs'| == |bs|
      invariant Excess(bs', ideal) == Excess(bs, ideal) + excess
      invariant forall x :: 0 <= x < hhNext.Length && x !in chain ==> hhNext[x] == old(hhNext[x])
      decreases |chain| - k
    {
      assert k < |chain| && thh == chain[k];
      var more, nxt;
      nxt, heads', more := InnerStep(hhNext, hhPrev, heads', thh, hash, ideal, bs', done, chain, k);
      bs', excess := Refiled(bs', hash, thh, ideal), excess + more;
      thh, k := nxt, k + 1;
    }
    FirstNull(chain[k..], hhNext.Length);
    assert chain[..k] == chain;
  }

  /** The old chains from bucket `i` on, as they were. */
  ghost predicate Waiting(bs: seq<Bucket>, i: nat, nx: seq<int>) {
    forall c :: i <= c < |bs| ==> List(nx, bs[c].chain)
  }

  lemma StillWaiting(bs: seq<Bucket>, hash: HashFn, i: nat, nx: seq<int>, nx': seq<int>)
    requires ChainsOk(bs, hash) && i < |bs| && Waiting(bs, i, nx) && |nx| == |nx'|
    requires forall x :: 0 <= x < |nx| && x !in bs[i].chain ==> nx'[x] == nx[x]
    ensures Waiting(bs, i + 1, nx')
  {
    forall c | i + 1 <= c < |bs| ensures List(nx', bs[c].chain) {
      var t := bs[c].chain;
      assert List(nx, t);
      forall j | 0 <= j < |t| ensures nx'[t[j]] == nx[t[j]] {
        assert t[j] in t && ToBkt(hash, t[j], |bs|) == c;
      }
      ListFrame(nx, t, nx');
    }
  }

  function NoBuckets(n: nat): seq<Bucket> {
    seq(n, _ => Bucket([], 0, 0))
  }

  function NoHeads(n: nat): seq<Head> {
    seq(n, _ => Head(NULL, 0, 0))
  }

  lemma NewTable(n: nat, hash: HashFn, nx: seq<int>, pv: seq<int>)
    requires n > 0 && |nx| == |pv|
    ensures var bs := NoBuckets(n);
            && ChainsOk(bs, hash) && Holds(bs, hash, []) && Total(Counters(bs)) == 0 && Balanced(Counters(bs))
            && Linked(bs, NoHeads(n), nx, pv)
  {
    EmptyBuckets(n);
    forall b | 0 <= b < n ensures LinkedAt(NoBuckets(n)[b], NoHeads(n)[b], nx, pv) {}
  }

  /** The outer loop with the first `i` old buckets moved. */
  ghost predicate OuterAt(nx: seq<int>, pv: seq<int>, heads: seq<Head>, hash: HashFn, ideal: nat, bs: seq<Bucket>,
                          i: nat, bs': seq<Bucket>, done: seq<Elmt>)
  {
    && 0 < |bs| && |bs'| == 2 * |bs| && Waiting(bs, i, nx)
    && Moving(bs', hash, done, ideal) && Linked(bs', heads, nx, pv)
    && forall e :: e in done <==> ToBkt(hash, e, |bs|) < i && e in bs[ToBkt(hash, e, |bs|)].chain
  }

  lemma OuterStart(nx: seq<int>, pv: seq<int>, hash: HashFn, ideal: nat, bs: seq<Bucket>, heads: seq<Head>)
    requires |bs| > 0 && Linked(bs, heads, nx, pv)
    ensures var n := 2 * |bs|;
            && OuterAt(nx, pv, NoHeads(n), hash, ideal, bs, 0, NoBuckets(n), [])
            && Excess(NoBuckets(n), ideal) == 0
  {
    MovingStart(2 * |bs|, hash, ideal);
    EmptyBuckets(2 * |bs|);
    NewTable(2 * |bs|, hash, nx, pv);
    forall c | 0 <= c < |bs| ensures List(nx, bs[c].chain) { assert LinkedAt(bs[c], heads[c], nx, pv); }
  }

  /** One round of the outer loop. */
  method OuterStep(hhNext: array<int>, hhPrev: array<int>, heads: seq<Head>, first: int, hash: HashFn, ideal: nat,
                   ghost bs: seq<Bucket>, ghost i: nat, ghost bs0: seq<Bucket>, ghost done: seq<Elmt>)
    returns (heads': seq<Head>, excess: nat, ghost bs': seq<Bucket>)
    requires hhNext != hhPrev && hhNext.Length == hhPrev.Length && ideal > 0 && i < |bs| && ChainsOk(bs, hash)
    requires OuterAt(hhNext[..], hhPrev[..], heads, hash, ideal, bs, i, bs0, done) && first == First(bs[i].chain)
    modifies hhNext, hhPrev
    ensures OuterAt(hhNext[..], hhPrev[..], heads', hash, ideal, bs, i + 1, bs', done + bs[i].chain)
    ensures Excess(bs', ideal) == Excess(bs0, ideal) + excess
  {
    ghost var nx, chain := hhNext[..], bs[i].chain;
    heads', excess, bs' := RefileChain(hhNext, hhPrev, heads, first, hash, ideal, bs0, done, chain);
    StillWaiting(bs, hash, i, nx, hhNext[..]);
  }

  /** The outer loop: all old buckets into twice as many. */
  method RefileAll(hhNext: array<int>, hhPrev: array<int>, heads: seq<Head>, hash: HashFn, ideal: nat,
                   ghost bs: seq<Bucket>)
    returns (heads': seq<Head>, excess: nat, ghost bs': seq<Bucket>, ghost done: seq<Elmt>)
    requires hhNext != hhPrev && hhNext.Length == hhPrev.Length && ideal > 0
    requires |bs| > 0 && ChainsOk(bs, hash) && Linked(bs, heads, hhNext[..], hhPrev[..])
    modifies hhNext, hhPrev
    ensures |bs'| == 2 * |bs| && Moving(bs', hash, done, ideal) && Linked(bs', heads', hhNext[..], hhPrev[..])
    ensures Excess(bs', ideal) == excess
    ensures forall e :: e in done <==> e in bs[ToBkt(hash, e, |bs|)].chain
  {
    var n := |heads|;
    heads', excess, bs', done := NoHeads(2 * n), 0, NoBuckets(2 * n), [];
    OuterStart(hhNext[..], hhPrev[..], hash, ideal, bs, heads);
    assert forall c :: 0 <= c < n ==> LinkedAt(bs[c], heads[c], hhNext[..], hhPrev[..]);
    var i := 0;
    while i < n
      invariant 0 <= i <= n && OuterAt(hhNext[..], hhPrev[..], heads', hash, ideal, bs, i, bs', done)
      invariant excess == Excess(bs', ideal)
    {
      var more;
      heads', more, bs' := OuterStep(hhNext, hhPrev, heads', heads[i].first, hash, ideal, bs, i, bs', done);
      excess, done := excess + more, done + bs[i].chain;
      i := i + 1;
    }
  }

  /** Where each element stands in a list. */
  ghost function Places(s: seq<int>, n: nat): seq<int> {
    seq(n, x requires 0 <= x < n => if x in s then Place(s, x) else 0)
  }

  lemma PlacesAt(s: seq<int>, n: nat)
    requires NoDup(s) && InPool(s, n)
    ensures |Places(s, n)| == n && forall i :: 0 <= i < |s| ==> Places(s, n)[s[i]] == i
  {
  }

  /** A rearranged list has the same elements, so the same distinct keys. */
  lemma SameKeys(keys: seq<Key>, s: seq<Elmt>, t: seq<Elmt>)
    requires DistinctKeys(keys, s) && NoDup(t) && multiset(t) == multiset(s)
    ensures DistinctKeys(keys, t) && |t| == |s| && forall e :: e in t <==> e in s
  {
    assert forall e :: e in t <==> e in multiset(t);
    assert forall e :: e in s <==> e in multiset(s);
    KeysNoDup(keys, s);
    SameLength(s, t);
    assert InPool(t, |keys|) by {
      forall i | 0 <= i < |t| ensures 0 <= t[i] < |keys| {
        assert t[i] in s;
        assert s[Place(s, t[i])] == t[i];
      }
    }
    forall i, j | 0 <= i < j < |t| ensures keys[t[i]] != keys[t[j]] {
      assert t[i] in s && t[j] in s && t[i] != t[j];
      var a, b := Place(s, t[i]), Place(s, t[j]);
      if a < b { assert keys[s[a]] != keys[s[b]]; } else { assert keys[s[b]] != keys[s[a]]; }
    }
  }

  /** The doubled buckets hold what the old ones held. */
  lemma MovedOver(bs: seq<Bucket>, hash: HashFn, done: seq<Elmt>, items: seq<Elmt>, ideal: nat, log2: nat)
    requires Moving(bs, hash, done, ideal) && NoDup(items) && forall e :: e in done <==> e in items
    requires log2 >= INITIAL_LOG2 && |bs| == 2 * Pow2(log2)
    ensures Filed(items, hash, bs, log2 + 1)
  {
    SameLength(done, items);
  }

  /** Twice the buckets, with multipliers for the ideal length and the elements beyond it counted. */
  ghost predicate Doubled(n: nat, bs: seq<Bucket>, ideal: nat, excess: nat) {
    |bs| == 2 * n && AllExpanded(Counters(bs), ideal) && excess == Excess(bs, ideal)
  }

  method RefileItems(hhNext: array<int>, hhPrev: array<int>, heads: seq<Head>, hash: HashFn, ideal: nat,
                     ghost bs: seq<Bucket>, ghost items: seq<Elmt>, ghost log2: nat)
    returns (heads': seq<Head>, excess: nat, ghost bs': seq<Bucket>)
    requires hhNext != hhPrev && hhNext.Length == hhPrev.Length && ideal > 0
    requires Filed(items, hash, bs, log2) && NoDup(items) && Linked(bs, heads, hhNext[..], hhPrev[..])
    modifies hhNext, hhPrev
    ensures Filed(items, hash, bs', log2 + 1) && Linked(bs', heads', hhNext[..], hhPrev[..])
    ensures Doubled(|bs|, bs', ideal, excess)
  {
    ghost var done;
    heads', excess, bs', done := RefileAll(hhNext, hhPrev, heads, hash, ideal, bs);
    MovedOver(bs', hash, done, items, ideal, log2);
  }

  method NewIdeal(numItems: nat, log2: nat, n: nat) returns (ideal: nat)
    requires n == Pow2(log2) > 0
    ensures ideal == Ceil(numItems, 2 * n)
    ensures EvenLength(ideal, numItems, 2 * n) && (numItems > 0 ==> ideal > 0)
  {
    CeilIsEven(numItems, 2 * n);
    CeilBounds(numItems, 2 * n);
    ideal := numItems / Pow2(log2 + 1) + if numItems % (2 * n) != 0 then 1 else 0;
  }

  lemma SnocKeys(keys: seq<Key>, s: seq<Elmt>, e: Elmt)
    requires DistinctKeys(keys, s) && 0 <= e < |keys| && forall x :: x in s ==> keys[x] != keys[e]
    ensures DistinctKeys(keys, s + [e]) && e !in s
  {
    var t := s + [e];
    forall i, j | 0 <= i < j < |t| ensures keys[t[i]] != keys[t[j]] { assert t[i] == s[i] && s[i] in s; }
  }

  function Removed(bs: seq<Bucket>, b: nat, j: nat): seq<Bucket>
    requires b < |bs| && j < |bs[b].chain| && bs[b].count > 0
  {
    bs[b := Bucket(Cut(bs[b].chain, j), bs[b].count - 1, bs[b].mult)]
  }

  /** What a removal does to chains and counters. */
  lemma TakeOut(bs: seq<Bucket>, hash: HashFn, items: seq<Elmt>, i: nat, log2: nat, noexpand: bool) returns (j: nat)
    requires Filed(items, hash, bs, log2) && NoDup(items) && i < |items| && (!noexpand ==> Balanced(Counters(bs)))
    ensures |bs| > 0
    ensures var b := ToBkt(hash, items[i], |bs|);
            && j < |bs[b].chain| && bs[b].chain[j] == items[i] && bs[b].count > 0
            && Filed(Cut(items, i), hash, Removed(bs, b, j), log2)
            && (!noexpand ==> Balanced(Counters(Removed(bs, b, j))))
  {
    PowPositive(log2);
    var b := ToBkt(hash, items[i], |bs|);
    assert items[i] in items;
    j := Place(bs[b].chain, items[i]);
    TakeOutOk(bs, hash, items, i, j);
    CountersUpdate(bs, b, Removed(bs, b, j)[b]);
    if !noexpand { RemoveBalanced(Counters(bs), b); }
  }

  /** The neighbours of a handle, where there are any, joined. */
  method JoinNeighbours(next: array<int>, prev: array<int>, e: Elmt)
    requires next != prev && next.Length == prev.Length && 0 <= e < next.Length
    requires -1 <= next[e] < next.Length && -1 <= prev[e] < next.Length
    modifies next, prev
    ensures next[..] == Patch(old(next[..]), old(prev[e]), old(next[e]))
    ensures prev[..] == Patch(old(prev[..]), old(next[e]), old(prev[e]))
  {
    var before, after := prev[e], next[e];
    if before != NULL { next[before] := after; }
    if after != NULL { prev[after] := before; }
  }

  /** A handle unlinked from its chain, wherever in it it is. */
  method CutHandle(hhNext: array<int>, hhPrev: array<int>, heads: seq<Head>, b: nat, e: Elmt,
                   ghost bs: seq<Bucket>, ghost hash: HashFn, ghost j: nat)
    returns (heads': seq<Head>)
    requires hhNext != hhPrev && hhNext.Length == hhPrev.Length
    requires ChainsOk(bs, hash) && Linked(bs, heads, hhNext[..], hhPrev[..])
    requires b < |bs| && bs[b].count > 0 && j < |bs[b].chain| && bs[b].chain[j] == e
    modifies hhNext, hhPrev
    ensures Linked(Removed(bs, b, j), heads', hhNext[..], hhPrev[..])
  {
    ghost var nx, pv := hhNext[..], hhPrev[..];
    assert LinkedAt(bs[b], heads[b], nx, pv);
    Unlink(nx, pv, bs[b].chain, j, Patch(nx, pv[e], nx[e]), Patch(pv, nx[e], pv[e]));
    var first := if heads[b].first == e then hhNext[e] else heads[b].first;
    JoinNeighbours(hhNext, hhPrev, e);
    CutLinked(bs, heads, hash, nx, pv, b, j, Removed(bs, b, j)[b], hhNext[..], hhPrev[..]);
    heads' := heads[b := Head(first, heads[b].count - 1, heads[b].mult)];
  }

  datatype Change = Insert(e: Elmt) | Erase(e: Elmt)

  ghost function AppliedOne(order: seq<Elmt>, op: Change): seq<Elmt> {
    match op
    case Insert(e) => order + [e]
    case Erase(e) => if e in order then Cut(order, Place(order, e)) else order
  }

  ghost function Applied(order: seq<Elmt>, ops: seq<Change>): seq<Elmt>
    decreases |ops|
  {
    if ops == [] then order else Applied(AppliedOne(order, ops[0]), ops[1..])
  }

  /** What callers have to see to: no key is added twice, and only elements of the table are deleted. */
  ghost predicate Legal(keys: seq<Key>, order: seq<Elmt>, ops: seq<Change>)
    decreases |ops|
  {
    ops != [] ==>
      && (match ops[0]
          case Insert(e) => 0 <= e < |keys| && InPool(order, |keys|) && forall x :: x in order ==> keys[x] != keys[e]
          case Erase(e) => e in order)
      && Legal(keys, AppliedOne(order, ops[0]), ops[1..])
  }

  ghost predicate SameItems(a: seq<Elmt>, b: seq<Elmt>) {
    |a| == |b| && forall e :: e in a <==> e in b
  }

  class Table {
    const keys: seq<Key>
    const hashKey: Key -> nat
    const hash: HashFn
    const bloomBits: nat
    const next: array<int>
    const prev: array<int>
    const hhNext: array<int>
    const hhPrev: array<int>
    var head: int
    var tail: int
    var heads: seq<Head>
    var log2: nat
    var numItems: nat
    var ideal: nat
    var nonideal: nat
    var ineffExpands: nat
    var noexpand: bool
    var bloom: seq<bool>
    /** The elements in the order of the application, and the chains. */
    ghost var order: seq<Elmt>
    ghost var buckets: seq<Bucket>
    /** The expansions since the table was made: whether they left too many elements too deep. */
    ghost var past: seq<bool>

    ghost predicate Memory() {
      && next != prev && next != hhNext && next != hhPrev && prev != hhNext && prev != hhPrev && hhNext != hhPrev
      && next.Length == prev.Length == hhNext.Length == hhPrev.Length == |keys|
      && forall e :: 0 <= e < |keys| ==> hash(e) == hashKey(keys[e])
    }

    /** The application-order list, from head to tail. */
    ghost predicate Listed()
      reads this`head, this`tail, this`order, next, prev
    {
      ListOk(order, head, tail, next[..], prev[..])
    }

    ghost predicate Chained()
      reads this`heads, this`buckets, hhNext, hhPrev
    {
      Linked(buckets, heads, hhNext[..], hhPrev[..])
    }

    /** Buckets and Bloom filter of a table that has elements. */
    ghost predicate Indexed(items: seq<Elmt>)
      reads this`log2, this`buckets
    {
      Filed(items, hash, buckets, log2)
    }

    ghost predicate BloomOk(items: seq<Elmt>)
      reads this`bloom
    {
      BloomHas(items, hash, bloom)
    }

    /** What a table that has elements keeps. */
    ghost predicate Kept(items: seq<Elmt>)
      reads this`heads, this`buckets, this`log2, this`bloom, this`noexpand, this`ineffExpands, this`past, hhNext, hhPrev
    {
      && IndexOk(items, hash, buckets, heads, log2, bloom, noexpand, hhNext[..], hhPrev[..])
      && FlagsOk(past, ineffExpands, noexpand) && (noexpand ==> ineffExpands > 1)
    }

    ghost predicate Valid()
      reads this, next, prev, hhNext, hhPrev
    {
      && Memory() && Listed() && numItems == |order| && DistinctKeys(keys, order)
      && (order != [] ==> Kept(order))
    }

    /** Buckets and filter do not depend on the order. */
    lemma Finish(s: seq<Elmt>)
      requires |s| == numItems && SameItems(order, s)
      ensures Memory() && Listed() && DistinctKeys(keys, order) && (s == [] || Kept(s)) ==> Valid()
    {
    }

    lemma WholeTable(items: seq<Elmt>)
      requires (noexpand || Balanced(Counters(buckets))) && FlagsOk(past, ineffExpands, noexpand)
      requires noexpand ==> ineffExpands > 1
      ensures Indexed(items) && Chained() && BloomOk(items) ==> Kept(items)
    {
    }

    constructor (keys: seq<Key>, hashKey: Key -> nat, bloomBits: nat)
      ensures Valid() && order == [] && this.keys == keys && this.hashKey == hashKey && this.bloomBits == bloomBits
      ensures fresh(next) && fresh(prev) && fresh(hhNext) && fresh(hhPrev)
    {
      this.keys, this.hashKey, this.bloomBits := keys, hashKey, bloomBits;
      this.hash := e => if 0 <= e < |keys| then hashKey(keys[e]) else 0;
      next, prev := new int[|keys|], new int[|keys|];
      hhNext, hhPrev := new int[|keys|], new int[|keys|];
      head, tail, heads, log2, numItems := NULL, NULL, [], 0, 0;
      ideal, nonideal, ineffExpands, noexpand, bloom := 0, 0, 0, false, [];
      order, buckets, past := [], [], [];
    }

    /** `HASH_FIND_BYHASHVALUE`: the Bloom filter first, then the chain, along its links. */
    method Find(key: Key) returns (out: int)
      requires Valid()
      ensures IsLookup(keys, order, key, out)
    {
      out := NULL;
      FirstNull(order, |keys|);
      if head == NULL { return; }
      var hashv := hashKey(key);
      if !bloom[hashv % |bloom|] {
        assert forall e :: e in order ==> 0 <= e < |keys| && keys[e] != key;
        return;
      }
      var b := hashv % |heads|;
      out := FindInBkt(heads[b].first, key, hashv, b);
    }

    /** `HASH_FIND_IN_BKT`. */
    method FindInBkt(first: int, key: Key, hashv: nat, ghost b: nat) returns (out: int)
      requires Valid() && order != [] && b < |buckets| && first == heads[b].first
      requires hashv == hashKey(key) && b == hashv % |buckets|
      ensures IsLookup(keys, order, key, out)
    {
      out := first;
      ghost var chain, i := buckets[b].chain, 0;
      assert LinkedAt(buckets[b], heads[b], hhNext[..], hhPrev[..]);
      assert chain[0..] == chain;
      while out != NULL
        invariant 0 <= i <= |chain| && out == First(chain[i..])
        invariant forall j :: 0 <= j < i ==> keys[chain[j]] != key
        decreases |chain| - i
      {
        assert out == chain[i];
        if hash(out) == hashv && keys[out] == key {
          InOrder(b, i);
          return;
        }
        SuffixList(hhNext[..], chain, i);
        out := hhNext[out];
        i := i + 1;
      }
      FirstNull(chain[i..], |keys|);
      NotThere(key, b);
    }

    lemma InOrder(b: nat, i: nat)
      requires Valid() && order != [] && b < |buckets| && i < |buckets[b].chain|
      ensures buckets[b].chain[i] in order
    {
      var e := buckets[b].chain[i];
      assert e in buckets[b].chain && ToBkt(hash, e, |buckets|) == b;
    }

    lemma NotThere(key: Key, b: nat)
      requires Valid() && order != [] && b < |buckets| && b == hashKey(key) % |buckets|
      requires LinkedAt(buckets[b], heads[b], hhNext[..], hhPrev[..])
      requires forall j :: 0 <= j < |buckets[b].chain| ==> keys[buckets[b].chain[j]] != key
      ensures IsLookup(keys, order, key, NULL)
    {
      forall e | e in order ensures 0 <= e < |keys| && keys[e] != key {
        assert order[Place(order, e)] == e;
        assert e in buckets[ToBkt(hash, e, |buckets|)].chain;
        if e in buckets[b].chain { assert buckets[b].chain[Place(buckets[b].chain, e)] == e; }
      }
    }

    /** The relinking of an expansion. */
    method Redistribute(ghost items: seq<Elmt>)
      requires hhNext != hhPrev && hhNext.Length == hhPrev.Length
      requires Chained() && Indexed(items) && NoDup(items) && ideal > 0
      modifies this`heads, this`buckets, this`log2, this`nonideal, hhNext, hhPrev
      ensures Chained() && Indexed(items) && log2 == old(log2) + 1
      ensures Doubled(|old(buckets)|, buckets, ideal, nonideal)
    {
      heads, nonideal, buckets := RefileItems(hhNext, hhPrev, heads, hash, ideal, buckets, items, log2);
      log2 := log2 + 1;
    }

    /** `HASH_EXPAND_BUCKETS`: twice as many buckets, every handle relinked. */
    method ExpandBuckets(ghost items: seq<Elmt>)
      requires Memory() && Chained() && Indexed(items) && NoDup(items) && items != [] && numItems == |items|
      requires FlagsOk(past, ineffExpands, noexpand)
      modifies this`heads, this`buckets, hhNext, hhPrev
      modifies this`log2, this`ideal, this`nonideal, this`ineffExpands, this`noexpand, this`past
      ensures Chained() && Indexed(items) && |buckets| == 2 * |old(buckets)| && log2 == old(log2) + 1
      ensures ideal == Ceil(numItems, |buckets|)
      ensures EvenLength(ideal, numItems, |buckets|)
      ensures AllExpanded(Counters(buckets), ideal)
      ensures nonideal == Excess(buckets, ideal) && past == old(past) + [Ineffective(buckets, numItems)]
      ensures FlagsOk(past, ineffExpands, noexpand) && (noexpand && !old(noexpand) ==> ineffExpands > 1)
    {
      ideal := NewIdeal(numItems, log2, |heads|);
      Redistribute(items);
      assert Ineffective(buckets, numItems) <==> 2 * nonideal > numItems;
      Judge();
    }

    /** Two expansions in a row that leave more than half of the elements too deep are the last. */
    method Judge()
      requires FlagsOk(past, ineffExpands, noexpand)
      modifies this`ineffExpands, this`noexpand, this`past
      ensures FlagsOk(past, ineffExpands, noexpand) && past == old(past) + [2 * nonideal > numItems]
      ensures noexpand && !old(noexpand) ==> ineffExpands > 1
    {
      FlagsNext(past, ineffExpands, noexpand, 2 * nonideal > numItems);
      past := past + [2 * nonideal > numItems];
      ineffExpands := if nonideal > numItems / 2 then ineffExpands + 1 else 0;
      if ineffExpands > 1 { noexpand := true; }
    }

    /** The linking part of `HASH_ADD_TO_BKT`. */
    method LinkIn(e: Elmt, ghost items: seq<Elmt>) returns (b: nat)
      requires Memory() && Indexed(items) && Chained() && e !in items && 0 <= e < |keys|
      modifies this`heads, this`buckets, hhNext, hhPrev
      ensures Indexed(items + [e]) && Chained()
      ensures b == hash(e) % |buckets| && |buckets| == |old(buckets)| == |old(heads)|
      ensures heads[b].count == old(heads)[b].count + 1 && heads[b].mult == old(heads)[b].mult
      ensures var cs := Counters(old(buckets));
              && cs[b] == Counter(heads[b].count - 1, heads[b].mult)
              && Counters(buckets) == cs[b := Counter(heads[b].count, heads[b].mult)]
    {
      b := ToBkt(hash, e, |heads|);
      assert LinkedAt(buckets[b], heads[b], hhNext[..], hhPrev[..]);
      var count, mult := heads[b].count + 1, heads[b].mult;
      ghost var k := Bucket([e] + buckets[b].chain, count, mult);
      PushOk(buckets, hash, items, e, k);
      CountersUpdate(buckets, b, k);
      heads := PushHandle(hhNext, hhPrev, heads, b, e, count, mult, buckets, hash);
      buckets := buckets[b := k];
    }

    /** `HASH_ADD_TO_BKT`: head of the chain, and an expansion when the chain has become too long. */
    method AddToBkt(e: Elmt, ghost items: seq<Elmt>)
      requires Memory() && Indexed(items) && Chained() && NoDup(items) && e !in items && numItems == |items| + 1
      requires 0 <= e < |keys| && (!noexpand ==> Balanced(Counters(buckets)))
      requires FlagsOk(past, ineffExpands, noexpand) && (noexpand ==> ineffExpands > 1)
      modifies this`heads, this`buckets, hhNext, hhPrev
      modifies this`log2, this`ideal, this`nonideal, this`ineffExpands, this`noexpand, this`past
      ensures Indexed(items + [e]) && Chained() && (!noexpand ==> Balanced(Counters(buckets)))
      ensures FlagsOk(past, ineffExpands, noexpand) && (noexpand ==> ineffExpands > 1)
      ensures var n := |old(heads)|;
              GrownBy(Due(old(heads)[hash(e) % n], old(past)), n, old(past), buckets, past, numItems)
    {
      ghost var cs := Counters(buckets);
      var b := LinkIn(e, items);
      if heads[b].count >= (heads[b].mult + 1) * THRESH && !noexpand {
        NineteenPerBucket(cs);
        SnocNoDup(items, e);
        ghost var n := |buckets|;
        ExpandBuckets(items + [e]);
        ExpandBalanced(n, Counters(buckets), ideal);
      } else if !noexpand {
        AddBalanced(cs, b);
      }
    }

    /** `HASH_MAKE_TABLE`, for the first element. */
    method MakeTable()
      requires Memory()
      modifies this`heads, this`buckets, this`bloom
      modifies this`log2, this`ideal, this`nonideal, this`ineffExpands, this`noexpand, this`past
      ensures Kept([]) && heads == seq(32, _ => Head(NULL, 0, 0)) && past == [] && !noexpand && ineffExpands == 0
    {
      PowPositive(bloomBits);
      NewTable(INITIAL_NUM_BUCKETS, hash, hhNext[..], hhPrev[..]);
      heads, buckets := NoHeads(INITIAL_NUM_BUCKETS), NoBuckets(INITIAL_NUM_BUCKETS);
      log2, ideal, nonideal, ineffExpands, noexpand, past := INITIAL_LOG2, 0, 0, 0, false, [];
      bloom := seq(Pow2(bloomBits), _ => false);
      assert Pow2(INITIAL_LOG2) == 32 by { assert Pow2(2) == 4; assert Pow2(4) == 16; }
    }

    method Prepare()
      requires Memory() && (head == NULL <==> order == []) && (order != [] ==> Kept(order))
      modifies this`heads, this`buckets, this`bloom
      modifies this`log2, this`ideal, this`nonideal, this`ineffExpands, this`noexpand, this`past
      ensures Kept(order)
      ensures Prepared(order == [], old(heads), old(past), heads, past)
    {
      if head == NULL { MakeTable(); }
    }

    /** The list links of a new element: `HASH_APPEND_LIST`, or the head and tail of a new table. */
    method AppendList(e: Elmt)
      requires Memory() && Listed() && DistinctKeys(keys, order)
      requires 0 <= e < |keys| && forall x :: x in order ==> keys[x] != keys[e]
      modifies next, prev, this`head, this`tail, this`order
      ensures Listed() && DistinctKeys(keys, order) && order == old(order) + [e]
    {
      ghost var nx, pv := next[..], prev[..];
      SnocKeys(keys, order, e);
      FirstNull(order, |keys|);
      next[e] := NULL;
      prev[e] := tail;
      if head == NULL { head := e; } else { next[tail] := e; }
      assert next[..] == if order == [] then nx[e := NULL] else nx[e := NULL][Last(order) := e];
      assert prev[..] == pv[e := Last(order)];
      PushBack(nx, pv, order, e, next[..]);
      tail, order := e, order + [e];
    }

    /** `HASH_BLOOM_ADD`. */
    method BloomAdd(e: Elmt, ghost items: seq<Elmt>)
      requires BloomOk(items)
      modifies this`bloom
      ensures BloomOk(items + [e])
    {
      var idx := hash(e) % |bloom|;
      bloom := bloom[idx := true];
    }

    /** The table side of an addition: buckets and Bloom filter. */
    method Enter(e: Elmt, ghost items: seq<Elmt>)
      requires Memory() && Kept(items) && NoDup(items) && e !in items && 0 <= e < |keys| && numItems == |items|
      modifies this`heads, this`buckets, this`bloom, this`numItems, hhNext, hhPrev
      modifies this`log2, this`ideal, this`nonideal, this`ineffExpands, this`noexpand, this`past
      ensures Kept(items + [e]) && numItems == |items| + 1 && |old(heads)| > 0
      ensures var n := |old(heads)|;
              GrownBy(Due(old(heads)[hash(e) % n], old(past)), n, old(past), buckets, past, numItems)
    {
      numItems := numItems + 1;
      AddToBkt(e, items);
      BloomAdd(e, items);
      WholeTable(items + [e]);
    }

    /** `HASH_ADD_KEYPTR_BYHASHVALUE` of an element whose key is not in the table. */
    method Add(e: Elmt)
      requires Valid() && 0 <= e < |keys| && forall x :: x in order ==> keys[x] != keys[e]
      modifies this, next, prev, hhNext, hhPrev
      ensures Valid() && order == old(order) + [e]
      ensures |heads| == |buckets|
      ensures Grew(old(order) == [], old(heads), old(past), hash(e), buckets, past, numItems)
    {
      ghost var items := order;
      assert e !in order && NoDup(order) && (head == NULL <==> order == []);
      Prepare();
      ghost var heads1, past1 := heads, past;
      AppendList(e);
      Enter(e, items);
      PreparedGrew(items == [], old(heads), old(past), heads1, past1, hash(e), buckets, past, numItems);
      Finish(order);
    }

    /** `HASH_DEL_IN_BKT`, from the handle's own links. */
    method DelInBkt(e: Elmt, ghost items: seq<Elmt>, ghost i: nat)
      requires Memory() && Kept(items) && NoDup(items) && i < |items| && items[i] == e
      modifies this`heads, this`buckets, hhNext, hhPrev
      ensures Indexed(Cut(items, i)) && Chained() && (!noexpand ==> Balanced(Counters(buckets)))
      ensures |heads| == |old(heads)|
    {
      var b := ToBkt(hash, e, |heads|);
      ghost var j := TakeOut(buckets, hash, items, i, log2, noexpand);
      heads := CutHandle(hhNext, hhPrev, heads, b, e, buckets, hash, j);
      buckets := Removed(buckets, b, j);
    }

    /** The list part of `HASH_DELETE_HH`: tail, neighbours and head, from the handle's own links. */
    method UnlinkList(e: Elmt, ghost i: nat)
      requires Memory() && Listed() && i < |order| && order[i] == e
      modifies next, prev, this`head, this`tail, this`order
      ensures Listed() && order == Cut(old(order), i)
    {
      ghost var nx, pv, s := next[..], prev[..], order;
      ListCut(s, head, tail, nx, pv, i);
      assert prev[e] == pv[e] && next[e] == nx[e];
      if e == tail { tail := prev[e]; }
      if prev[e] == NULL { head := next[e]; }
      JoinNeighbours(next, prev, e);
      order := Cut(s, i);
    }

    /** The table side of a deletion; the Bloom filter keeps its bits. */
    method Leave(e: Elmt, ghost items: seq<Elmt>, ghost i: nat)
      requires Memory() && Kept(items) && NoDup(items) && i < |items| && items[i] == e && numItems == |items|
      modifies this`heads, this`buckets, this`numItems, hhNext, hhPrev
      ensures Kept(Cut(items, i)) && numItems == |items| - 1 && |heads| == |old(heads)|
    {
      CutNoDup(items, i);
      DelInBkt(e, items, i);
      numItems := numItems - 1;
    }

    method FreeTable()
      modifies this
      ensures Listed() && order == [] && numItems == 0
    {
      head, tail, heads, log2, numItems, bloom := NULL, NULL, [], 0, 0, [];
      order, buckets := [], [];
    }

    /** `HASH_DELETE_HH`: the last element takes the table with it; otherwise both kinds of links are
        patched around the handle. */
    method Delete(e: Elmt)
      requires Valid() && e in order
      modifies this, next, prev, hhNext, hhPrev
      ensures Valid() && order == Cut(old(order), Place(old(order), e))
      ensures order != [] ==> |heads| == |old(heads)| && past == old(past)
    {
      CutKeys(keys, order, Place(order, e));
      Remove(e, Place(order, e));
      Finish(order);
    }

    method Remove(e: Elmt, ghost i: nat)
      requires Memory() && Listed() && Kept(order)
      requires i < |order| == numItems && order[i] == e
      modifies this, next, prev, hhNext, hhPrev
      ensures Listed() && order == Cut(old(order), i) && numItems == |order|
      ensures order == [] || (Kept(order) && |heads| == |old(heads)| && past == old(past))
    {
      AloneIff(i);
      if prev[e] == NULL && next[e] == NULL {
        FreeTable();
      } else {
        Detach(e, i);
      }
    }

    method Detach(e: Elmt, ghost i: nat)
      requires Memory() && Listed() && Kept(order)
      requires i < |order| == numItems && order[i] == e
      modifies this`heads, this`buckets, this`numItems, this`head, this`tail, this`order
      modifies next, prev, hhNext, hhPrev
      ensures Listed() && order == Cut(old(order), i) && numItems == |order|
      ensures Kept(order) && |heads| == |old(heads)|
    {
      ghost var items := order;
      assert NoDup(items);
      UnlinkList(e, i);
      Leave(e, items, i);
    }

    lemma AloneIff(i: nat)
      requires Memory() && Listed() && i < |order|
      ensures 0 <= order[i] < |keys|
      ensures prev[order[i]] == NULL && next[order[i]] == NULL <==> |order| == 1
    {
      var e := order[i];
      Unlink(next[..], prev[..], order, i, Patch(next[..], prev[e], next[e]), Patch(prev[..], next[e], prev[e]));
    }

    method SortList(cmp: Srt.Cmp)
      requires Memory() && Listed() && Srt.TotalPreorder(cmp) && |order| <= Srt.UINT_LIMIT
      modifies next, prev, this`head, this`tail, this`order
      ensures Listed() && multiset(order) == multiset(old(order))
      ensures Srt.Ordered(Places(old(order), |keys|), cmp, order)
    {
      ghost var rank := Places(order, |keys|);
      PlacesAt(order, |keys|);
      head, tail, order := Srt.Sort(next, prev, rank, cmp, head, order);
    }

    method Relist(cmp: Srt.Cmp)
      requires Memory() && Listed() && DistinctKeys(keys, order) && Srt.TotalPreorder(cmp) && |order| <= Srt.UINT_LIMIT
      modifies next, prev, this`head, this`tail, this`order
      ensures Listed() && DistinctKeys(keys, order) && SameItems(order, old(order))
      ensures multiset(order) == multiset(old(order))
      ensures Srt.Ordered(Places(old(order), |keys|), cmp, order)
    {
      ghost var s := order;
      SortList(cmp);
      SameKeys(keys, s, order);
    }

    /** `HASH_SRT`: the application order becomes its stable sort; chains and counters stay. */
    method Sort(cmp: Srt.Cmp)
      requires Valid() && Srt.TotalPreorder(cmp) && |order| <= Srt.UINT_LIMIT
      modifies next, prev, this`head, this`tail, this`order
      ensures Valid() && multiset(order) == multiset(old(order))
      ensures Srt.Ordered(Places(old(order), |keys|), cmp, order)
    {
      ghost var s := order;
      Relist(cmp);
      Finish(s);
    }

    /** Unless two expansions in a row have left more than half of the elements too deep, there are at most
        nineteen items a bucket. */
    lemma LoadBound()
      requires Valid() && order != [] && !TwoInARow(past)
      ensures numItems == |order| <= 19 * |heads|
    {
      NineteenPerBucket(Counters(buckets));
    }

    /** Where the elements are: each in the chain that the remainder of its key's hash value names. */
    lemma InItsBucket(e: Elmt)
      requires Valid() && e in order
      ensures 0 <= e < |keys| && |heads| == |buckets| > 0
      ensures e in buckets[hashKey(keys[e]) % |heads|].chain
    {
      assert order[Place(order, e)] == e;
    }

    /** Any sequence of additions and deletions: the elements are those a list would have, and the load is
        bounded. */
    method Perform(ops: seq<Change>)
      requires Valid() && Legal(keys, order, ops)
      modifies this, next, prev, hhNext, hhPrev
      ensures Valid() && order == Applied(old(order), ops)
      ensures order != [] && !TwoInARow(past) ==> |order| <= 19 * |heads|
      decreases |ops|
    {
      if ops == [] {
        if order != [] && !TwoInARow(past) { LoadBound(); }
        return;
      }
      match ops[0] {
        case Insert(e) => Add(e);
        case Erase(e) => Delete(e);
      }
      Perform(ops[1..]);
    }
  }
}
