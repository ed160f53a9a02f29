/** The buckets of a `uthash.h` table as sequences: what adding, removing and refiling an element does to
    chains, counters and multipliers.  `HashTable` has them as links. */
module HashBuckets {
  import opened Basics
  import opened HashBound
  import opened Links

  type Key = seq<nat>

  /** An element is known by its handle. */
  type Elmt = int

  /** `UT_hash_bucket`: the chain from its head, its counter and its expansion multiplier. */
  datatype Bucket = Bucket(chain: seq<Elmt>, count: nat, mult: nat)

  /** The hash value of each element, an arbitrary function of its key. */
  type HashFn = Elmt -> nat

  const INITIAL_NUM_BUCKETS := 32
  const INITIAL_LOG2 := 5

  function Pow2(n: nat): nat {
    if n == 0 then 1 else 2 * Pow2(n - 1)
  }

  ghost predicate DistinctKeys(keys: seq<Key>, s: seq<Elmt>) {
    InPool(s, |keys|) && forall i, j :: 0 <= i < j < |s| ==> keys[s[i]] != keys[s[j]]
  }

  /** `HASH_TO_BKT`: for a power of two the mask is the remainder. */
  function ToBkt(hash: HashFn, e: Elmt, n: nat): nat
    requires n > 0
  {
    hash(e) % n
  }

  /** Counters match their chains, and every element sits in the chain its hash value names. */
  ghost predicate ChainsOk(bs: seq<Bucket>, hash: HashFn) {
    forall b :: 0 <= b < |bs| ==>
      && bs[b].count == |bs[b].chain| && NoDup(bs[b].chain)
      && forall e :: e in bs[b].chain ==> ToBkt(hash, e, |bs|) == b
  }

  /** The elements in the chains are exactly those of a list. */
  ghost predicate Holds(bs: seq<Bucket>, hash: HashFn, items: seq<Elmt>) {
    |bs| > 0 && forall e :: e in items <==> e in bs[ToBkt(hash, e, |bs|)].chain
  }

  function Counters(bs: seq<Bucket>): (cs: seq<Counter>)
    ensures |cs| == |bs| && forall b :: 0 <= b < |bs| ==> cs[b] == Counter(bs[b].count, bs[b].mult)
  {
    seq(|bs|, b requires 0 <= b < |bs| => Counter(bs[b].count, bs[b].mult))
  }

  /** How many elements sit deeper in their chains than the ideal length. */
  function Excess(bs: seq<Bucket>, ideal: nat): nat {
    if bs == [] then 0 else (if bs[0].count > ideal then bs[0].count - ideal else 0) + Excess(bs[1..], ideal)
  }

  lemma {:induction false} ExcessUpdate(bs: seq<Bucket>, b: nat, k: Bucket, ideal: nat)
    requires b < |bs| && k.count == bs[b].count + 1
    ensures Excess(bs[b := k], ideal) == Excess(bs, ideal) + if k.count > ideal then 1 else 0
    decreases b
  {
    if b == 0 {
      assert bs[0 := k][1..] == bs[1..];
    } else {
      ExcessUpdate(bs[1..], b - 1, k, ideal);
      assert bs[b := k][1..] == bs[1..][b - 1 := k];
    }
  }

  lemma CountersUpdate(bs: seq<Bucket>, b: nat, k: Bucket)
    requires b < |bs|
    ensures Counters(bs[b := k]) == Counters(bs)[b := Counter(k.count, k.mult)]
    ensures Total(Counters(bs[b := k])) == Total(Counters(bs)) - bs[b].count + k.count
  {
    assert Counters(bs[b := k]) == Counters(bs)[b := Counter(k.count, k.mult)];
    TotalUpdate(Counters(bs), b, Counter(k.count, k.mult));
  }

  /** A new element at the head of its chain. */
  lemma PushOk(bs: seq<Bucket>, hash: HashFn, items: seq<Elmt>, e: Elmt, k: Bucket)
    requires ChainsOk(bs, hash) && Holds(bs, hash, items) && e !in items
    requires var b := ToBkt(hash, e, |bs|); k.chain == [e] + bs[b].chain && k.count == bs[b].count + 1
    ensures var bs' := bs[ToBkt(hash, e, |bs|) := k];
            ChainsOk(bs', hash) && Holds(bs', hash, items + [e])
  {
    var b := ToBkt(hash, e, |bs|);
    var bs' := bs[b := k];
    assert e !in bs[b].chain;
    forall x ensures x in items + [e] <==> x in bs'[ToBkt(hash, x, |bs|)].chain {
      assert x in items <==> x in bs[ToBkt(hash, x, |bs|)].chain;
    }
  }

  lemma {:induction false} EmptyBuckets(n: nat)
    ensures var bs := seq(n, _ => Bucket([], 0, 0));
            Total(Counters(bs)) == 0 && Weights(Counters(bs)) == 0 && forall ideal :: Excess(bs, ideal) == 0
  {
    var bs := seq(n, _ => Bucket([], 0, 0));
    TotalZero(Counters(bs));
    forall ideal ensures Excess(bs, ideal) == 0 { ExcessZero(n, ideal); }
  }

  lemma {:induction false} ExcessZero(n: nat, ideal: nat)
    ensures Excess(seq(n, _ => Bucket([], 0, 0)), ideal) == 0
  {
    if n > 0 {
      ExcessZero(n - 1, ideal);
      assert seq(n, _ => Bucket([], 0, 0))[1..] == seq(n - 1, _ => Bucket([], 0, 0));
    }
  }

  function SetOf(s: seq<Elmt>): set<Elmt> {
    set e | e in s
  }

  lemma {:induction false} NoDupCard(s: seq<Elmt>)
    requires NoDup(s)
    ensures |SetOf(s)| == |s|
  {
    if s != [] {
      var n := |s| - 1;
      NoDupCard(s[..n]);
      assert s == s[..n] + [s[n]];
      assert SetOf(s) == SetOf(s[..n]) + {s[n]};
    }
  }

  /** Two duplicate-free lists of the same elements are equally long. */
  lemma SameLength(a: seq<Elmt>, b: seq<Elmt>)
    requires NoDup(a) && NoDup(b) && forall e :: e in a <==> e in b
    ensures |a| == |b|
  {
    NoDupCard(a);
    NoDupCard(b);
    assert SetOf(a) == SetOf(b);
  }

  /** One element moved to the doubled buckets. */
  function Refiled(bs: seq<Bucket>, hash: HashFn, e: Elmt, ideal: nat): seq<Bucket>
    requires |bs| > 0
  {
    var b := ToBkt(hash, e, |bs|);
    var count := bs[b].count + 1;
    bs[b := Bucket([e] + bs[b].chain, count, if count > ideal && ideal > 0 then count / ideal else bs[b].mult)]
  }

  /** The doubled buckets after the elements of `done` have been moved. */
  ghost predicate Moving(bs: seq<Bucket>, hash: HashFn, done: seq<Elmt>, ideal: nat) {
    && ChainsOk(bs, hash) && Holds(bs, hash, done) && NoDup(done)
    && Total(Counters(bs)) == |done|
    && (forall b :: 0 <= b < |bs| ==> Expanded(Counters(bs)[b], ideal))
  }

  lemma MovingStep(bs: seq<Bucket>, hash: HashFn, done: seq<Elmt>, ideal: nat, e: Elmt)
    requires Moving(bs, hash, done, ideal) && e !in done
    ensures Moving(Refiled(bs, hash, e, ideal), hash, done + [e], ideal)
    ensures var b := ToBkt(hash, e, |bs|);
            Excess(Refiled(bs, hash, e, ideal), ideal) == Excess(bs, ideal) + if bs[b].count + 1 > ideal then 1 else 0
  {
    var b := ToBkt(hash, e, |bs|);
    var bs' := Refiled(bs, hash, e, ideal);
    PushOk(bs, hash, done, e, bs'[b]);
    CountersUpdate(bs, b, bs'[b]);
    ExcessUpdate(bs, b, bs'[b], ideal);
    assert Expanded(Counters(bs)[b], ideal);
    forall c | 0 <= c < |bs'| ensures Expanded(Counters(bs')[c], ideal) {
      assert c != b ==> Counters(bs')[c] == Counters(bs)[c];
    }
  }

  lemma MovingStart(n: nat, hash: HashFn, ideal: nat)
    requires n > 0
    ensures Moving(seq(n, _ => Bucket([], 0, 0)), hash, [], ideal)
  {
    EmptyBuckets(n);
  }

  /** An element taken out of its chain. */
  lemma TakeOutOk(bs: seq<Bucket>, hash: HashFn, items: seq<Elmt>, i: nat, j: nat)
    requires ChainsOk(bs, hash) && Holds(bs, hash, items) && NoDup(items) && i < |items|
    requires var b := ToBkt(hash, items[i], |bs|); j < |bs[b].chain| && bs[b].chain[j] == items[i]
    ensures var b := ToBkt(hash, items[i], |bs|);
            var bs' := bs[b := Bucket(Cut(bs[b].chain, j), bs[b].count - 1, bs[b].mult)];
            ChainsOk(bs', hash) && Holds(bs', hash, Cut(items, i))
  {
    var b := ToBkt(hash, items[i], |bs|);
    var bs' := bs[b := Bucket(Cut(bs[b].chain, j), bs[b].count - 1, bs[b].mult)];
    CutNoDup(items, i);
    CutNoDup(bs[b].chain, j);
    forall x ensures x in Cut(items, i) <==> x in bs'[ToBkt(hash, x, |bs|)].chain {
      assert x in items <==> x in bs[ToBkt(hash, x, |bs|)].chain;
    }
  }

  /** The element of a list with a given key, or NULL. */
  ghost predicate IsLookup(keys: seq<Key>, items: seq<Elmt>, key: Key, out: int) {
    if out == NULL then forall e :: e in items ==> 0 <= e < |keys| && keys[e] != key
    else out in items && 0 <= out < |keys| && keys[out] == key
  }

  lemma CutKeys(keys: seq<Key>, s: seq<Elmt>, i: nat)
    requires i < |s| && DistinctKeys(keys, s)
    ensures NoDup(s) && DistinctKeys(keys, Cut(s, i)) && forall x :: x in Cut(s, i) ==> x in s
  {
    CutNoDup(s, i);
    var t := Cut(s, i);
    assert forall j :: 0 <= j < |t| ==> t[j] == s[if j < i then j else j + 1];
  }

  lemma KeysNoDup(keys: seq<Key>, s: seq<Elmt>)
    requires DistinctKeys(keys, s)
    ensures NoDup(s)
  {
  }

  lemma {:induction false} PowPositive(n: nat)
    ensures Pow2(n) > 0
  {
    if n > 0 { PowPositive(n - 1); }
  }

  // ---- Chains as links ------------------------------------------------------------------------------

  /** `UT_hash_bucket`: the first handle of the chain, its length and its expansion multiplier. */
  datatype Head = Head(first: int, count: nat, mult: nat)

  ghost predicate LinkedAt(k: Bucket, h: Head, nx: seq<int>, pv: seq<int>) {
    h == Head(First(k.chain), k.count, k.mult) && DList(nx, pv, k.chain)
  }

  ghost predicate Linked(bs: seq<Bucket>, heads: seq<Head>, nx: seq<int>, pv: seq<int>) {
    |heads| == |bs| && |nx| == |pv| && forall b :: 0 <= b < |bs| ==> LinkedAt(bs[b], heads[b], nx, pv)
  }

  /** A handle pushed on one chain: its own links, and the back link of the old head, change. */
  lemma PushLinked(bs: seq<Bucket>, heads: seq<Head>, hash: HashFn, nx: seq<int>, pv: seq<int>, e: Elmt, k: Bucket,
                   pv': seq<int>)
    requires |bs| > 0 && ChainsOk(bs, hash) && Linked(bs, heads, nx, pv) && 0 <= e < |nx|
    requires e !in bs[ToBkt(hash, e, |bs|)].chain && k.chain == [e] + bs[ToBkt(hash, e, |bs|)].chain
    requires var s := bs[ToBkt(hash, e, |bs|)].chain;
             pv' == if s == [] then pv[e := NULL] else pv[e := NULL][s[0] := e]
    ensures var b := ToBkt(hash, e, |bs|);
            Linked(bs[b := k], heads[b := Head(e, k.count, k.mult)], nx[e := heads[b].first], pv')
  {
    var b := ToBkt(hash, e, |bs|);
    var s := bs[b].chain;
    var nx' := nx[e := First(s)];
    assert LinkedAt(bs[b], heads[b], nx, pv);
    PushFront(nx, pv, s, e, pv');
    var bs', heads' := bs[b := k], heads[b := Head(e, k.count, k.mult)];
    forall c | 0 <= c < |bs| ensures LinkedAt(bs'[c], heads'[c], nx', pv') {
      assert LinkedAt(bs[c], heads[c], nx, pv);
      if c != b { OtherPushed(bs, hash, c, nx, pv, e, nx', pv'); }
    }
  }

  lemma OtherPushed(bs: seq<Bucket>, hash: HashFn, c: nat, nx: seq<int>, pv: seq<int>, e: Elmt,
                    nx': seq<int>, pv': seq<int>)
    requires c < |bs| && ChainsOk(bs, hash) && DList(nx, pv, bs[c].chain) && 0 <= e < |nx| == |pv|
    requires ToBkt(hash, e, |bs|) != c && InPool(bs[ToBkt(hash, e, |bs|)].chain, |pv|)
    requires nx' == nx[e := First(bs[ToBkt(hash, e, |bs|)].chain)]
    requires var s := bs[ToBkt(hash, e, |bs|)].chain;
             pv' == if s == [] then pv[e := NULL] else pv[e := NULL][s[0] := e]
    ensures DList(nx', pv', bs[c].chain)
  {
    var b := ToBkt(hash, e, |bs|);
    var s, t := bs[b].chain, bs[c].chain;
    forall i | 0 <= i < |t| ensures nx'[t[i]] == nx[t[i]] && pv'[t[i]] == pv[t[i]] {
      assert t[i] in t && ToBkt(hash, t[i], |bs|) == c;
      if s != [] { assert s[0] in s && ToBkt(hash, s[0], |bs|) == b; }
    }
    DListFrame(nx, pv, t, nx', pv');
  }

  /** A handle unlinked from one chain: only the links of its neighbours there change. */
  lemma CutLinked(bs: seq<Bucket>, heads: seq<Head>, hash: HashFn, nx: seq<int>, pv: seq<int>, b: nat, j: nat,
                  k: Bucket, nx': seq<int>, pv': seq<int>)
    requires ChainsOk(bs, hash) && Linked(bs, heads, nx, pv) && b < |bs| && j < |bs[b].chain|
    requires k.chain == Cut(bs[b].chain, j)
    requires var e := bs[b].chain[j];
             0 <= e < |nx| && nx' == Patch(nx, pv[e], nx[e]) && pv' == Patch(pv, nx[e], pv[e])
    ensures var e := bs[b].chain[j];
            var first := if heads[b].first == e then nx[e] else heads[b].first;
            Linked(bs[b := k], heads[b := Head(first, k.count, k.mult)], nx', pv')
  {
    var s := bs[b].chain;
    var e := s[j];
    assert LinkedAt(bs[b], heads[b], nx, pv);
    Unlink(nx, pv, s, j, nx', pv');
    CutAt(s, j);
    assert First(Cut(s, j)) == if s[0] == e then nx[e] else s[0] by {
      if j > 0 { assert s[0] != s[j]; }
    }
    forall c | 0 <= c < |bs| && c != b ensures DList(nx', pv', bs[c].chain) {
      assert LinkedAt(bs[c], heads[c], nx, pv);
      OtherChain(bs, hash, b, c, j, nx, pv, nx', pv');
    }
  }

  lemma OtherChain(bs: seq<Bucket>, hash: HashFn, b: nat, c: nat, j: nat, nx: seq<int>, pv: seq<int>,
                   nx': seq<int>, pv': seq<int>)
    requires ChainsOk(bs, hash) && b < |bs| && c < |bs| && b != c && j < |bs[b].chain|
    requires DList(nx, pv, bs[b].chain) && DList(nx, pv, bs[c].chain) && |nx| == |pv|
    requires var e := bs[b].chain[j]; nx' == Patch(nx, pv[e], nx[e]) && pv' == Patch(pv, nx[e], pv[e])
    ensures DList(nx', pv', bs[c].chain)
  {
    var s, t := bs[b].chain, bs[c].chain;
    assert pv[s[j]] == Before(s, j) && nx[s[j]] == if j + 1 < |s| then s[j + 1] else NULL;
    forall i | 0 <= i < |t| ensures nx'[t[i]] == nx[t[i]] && pv'[t[i]] == pv[t[i]] {
      assert t[i] in t && ToBkt(hash, t[i], |bs|) == c;
      if j > 0 { assert s[j - 1] in s && ToBkt(hash, s[j - 1], |bs|) == b; }
      if j + 1 < |s| { assert s[j + 1] in s && ToBkt(hash, s[j + 1], |bs|) == b; }
    }
    DListFrame(nx, pv, t, nx', pv');
  }

  /** Every element of a list is filed in one of `Pow2(log2)` buckets. */
  ghost predicate Filed(items: seq<Elmt>, hash: HashFn, bs: seq<Bucket>, log2: nat) {
    && log2 >= INITIAL_LOG2 && |bs| == Pow2(log2) && ChainsOk(bs, hash) && Holds(bs, hash, items)
    && Total(Counters(bs)) == |items|
  }

  // ---- Expansions that did not help -------------------------------------------------------------------

  /** More than half of the elements are deeper in their chains than evenly filled chains would be long. */
  ghost predicate Ineffective(bs: seq<Bucket>, items: nat) {
    |bs| > 0 && 2 * Excess(bs, Ceil(items, |bs|)) > items
  }

  ghost predicate TwoInARow(past: seq<bool>) {
    exists i :: 0 <= i < |past| - 1 && past[i] && past[i + 1]
  }

  /** How many of the last expansions did not help. */
  function Trailing(past: seq<bool>): nat {
    if past == [] || !past[|past| - 1] then 0 else 1 + Trailing(past[..|past| - 1])
  }

  /** The table counts expansions that did not help, and gives up after two in a row. */
  ghost predicate FlagsOk(past: seq<bool>, ineff: nat, noexpand: bool) {
    ineff == Trailing(past) && (noexpand <==> TwoInARow(past))
  }

  lemma FlagsNext(past: seq<bool>, ineff: nat, noexpand: bool, bad: bool)
    requires FlagsOk(past, ineff, noexpand)
    ensures var ineff' := if bad then ineff + 1 else 0;
            FlagsOk(past + [bad], ineff', noexpand || ineff' > 1)
  {
    var n, past' := |past|, past + [bad];
    assert past'[..n] == past;
    if i :| 0 <= i < n - 1 && past[i] && past[i + 1] { assert past'[i] && past'[i + 1]; }
    if bad && ineff > 0 { assert past'[n - 1] && past'[n]; }
    if i :| 0 <= i < n && past'[i] && past'[i + 1] {
      if i < n - 1 { assert past[i] && past[i + 1]; }
    }
  }

  /** A chain that one more element makes too long, in a table that has not given up. */
  ghost predicate Due(h: Head, past: seq<bool>) {
    h.count + 1 >= (h.mult + 1) * 10 && !TwoInARow(past)
  }

  /** What an addition does to the number of buckets: it doubles exactly when an expansion is due. */
  ghost predicate GrownBy(due: bool, n: nat, past: seq<bool>, bs: seq<Bucket>, past': seq<bool>, items: nat) {
    if due then |bs| == 2 * n && past' == past + [Ineffective(bs, items)] else |bs| == n && past' == past
  }

  /** The same for a whole addition; the first element gets a new table of 32 buckets. */
  ghost predicate Grew(first: bool, heads: seq<Head>, past: seq<bool>, hashv: nat, bs: seq<Bucket>, past': seq<bool>,
                       items: nat)
  {
    if first then |bs| == 32 && past' == []
    else |heads| > 0 && GrownBy(Due(heads[hashv % |heads|], past), |heads|, past, bs, past', items)
  }

  /** Buckets as they are before an element is entered. */
  ghost predicate Prepared(first: bool, heads: seq<Head>, past: seq<bool>, heads': seq<Head>, past': seq<bool>) {
    if first then heads' == seq(32, _ => Head(NULL, 0, 0)) && past' == [] else heads' == heads && past' == past
  }

  lemma PreparedGrew(first: bool, heads: seq<Head>, past: seq<bool>, heads1: seq<Head>, past1: seq<bool>, hashv: nat,
                     bs: seq<Bucket>, past2: seq<bool>, items: nat)
    requires Prepared(first, heads, past, heads1, past1) && |heads1| > 0
    requires GrownBy(Due(heads1[hashv % |heads1|], past1), |heads1|, past1, bs, past2, items)
    ensures Grew(first, heads, past, hashv, bs, past2, items)
  {
  }

  /** Buckets, their chains and the Bloom filter of a table that has elements. */
  ghost predicate IndexOk(items: seq<Elmt>, hash: HashFn, bs: seq<Bucket>, heads: seq<Head>, log2: nat,
                          bloom: seq<bool>, noexpand: bool, nx: seq<int>, pv: seq<int>)
  {
    && Filed(items, hash, bs, log2) && Linked(bs, heads, nx, pv) && (!noexpand ==> Balanced(Counters(bs)))
    && BloomHas(items, hash, bloom)
  }

  ghost predicate BloomHas(items: seq<Elmt>, hash: HashFn, bloom: seq<bool>) {
    |bloom| > 0 && forall e :: e in items ==> bloom[hash(e) % |bloom|]
  }

  ghost predicate ListOk(order: seq<Elmt>, head: int, tail: int, nx: seq<int>, pv: seq<int>) {
    DList(nx, pv, order) && head == First(order) && tail == Last(order)
  }

  /** The list after an element has been unlinked. */
  lemma ListCut(order: seq<Elmt>, head: int, tail: int, nx: seq<int>, pv: seq<int>, i: nat)
    requires ListOk(order, head, tail, nx, pv) && |nx| == |pv| && i < |order|
    ensures var e := order[i];
            && -1 <= nx[e] < |nx| && -1 <= pv[e] < |nx|
            && ListOk(Cut(order, i), if pv[e] == NULL then nx[e] else head, if e == tail then pv[e] else tail,
                      Patch(nx, pv[e], nx[e]), Patch(pv, nx[e], pv[e]))
  {
    var e := order[i];
    Unlink(nx, pv, order, i, Patch(nx, pv[e], nx[e]), Patch(pv, nx[e], pv[e]));
    CutAt(order, i);
    if i < |order| - 1 { assert order[i] != order[|order| - 1]; }
  }
}
