/** Sums of integers, and sorting by key without moving what the keys belong to. */
module Ordering {

  /** A permutation of the numbers below `k`. */
  ghost predicate IsOrder(order: seq<nat>, k: nat) {
    && |order| == k && (forall i :: 0 <= i < k ==> order[i] < k)
    && (forall i, j :: 0 <= i < j < k ==> order[i] != order[j])
    && (forall x :: 0 <= x < k ==> x in order)
  }

  function Sum(keys: seq<int>): int {
    if keys == [] then 0 else Sum(keys[..|keys| - 1]) + keys[|keys| - 1]
  }

  /** The keys in the given order. */
  function Listed(keys: seq<int>, order: seq<nat>): (l: seq<int>)
    requires forall i :: 0 <= i < |order| ==> order[i] < |keys|
    ensures |l| == |order| && forall i :: 0 <= i < |l| ==> l[i] == keys[order[i]]
  {
    seq(|order|, i requires 0 <= i < |order| => keys[order[i]])
  }

  ghost predicate Ascending(keys: seq<int>) {
    forall i, j :: 0 <= i < j < |keys| ==> keys[i] <= keys[j]
  }

  lemma {:induction false} SumConcat(a: seq<int>, b: seq<int>)
    ensures Sum(a + b) == Sum(a) + Sum(b)
    decreases |b|
  {
    if b == [] {
      assert a + b == a;
    } else {
      SumConcat(a, b[..|b| - 1]);
      assert (a + b)[..|a + b| - 1] == a + b[..|b| - 1];
    }
  }

  lemma SumInsert(a: seq<int>, at: nat, x: int)
    requires at <= |a|
    ensures Sum(a[..at] + [x] + a[at..]) == Sum(a) + x
  {
    SumConcat(a[..at] + [x], a[at..]);
    SumConcat(a[..at], [x]);
    SumConcat(a[..at], a[at..]);
    assert a == a[..at] + a[at..];
    assert Sum([x]) == x by { assert [x][..0] == []; }
  }

  lemma SumUpdate(a: seq<int>, i: nat, x: int)
    requires i < |a|
    ensures Sum(a[i := x]) == Sum(a) - a[i] + x
  {
    var l, r := a[..i], a[i + 1..];
    SumInsert(l + r, i, x);
    SumInsert(l + r, i, a[i]);
    assert a == (l + r)[..i] + [a[i]] + (l + r)[i..];
    assert a[i := x] == (l + r)[..i] + [x] + (l + r)[i..];
  }

  /** A sum of non-negative numbers is at least each of them. */
  lemma {:induction false} SumAtLeast(a: seq<int>, k: nat)
    requires (forall i :: 0 <= i < |a| ==> a[i] >= 0) && k < |a|
    ensures Sum(a) >= a[k]
  {
    var b := a[..|a| - 1];
    if k < |b| { SumAtLeast(b, k); } else if b != [] { SumAtLeast(b, 0); }
  }

  lemma {:induction false} SumNegated(a: seq<int>, b: seq<int>)
    requires |a| == |b| && forall i :: 0 <= i < |a| ==> b[i] == -a[i]
    ensures Sum(b) == -Sum(a)
  {
    if a != [] { SumNegated(a[..|a| - 1], b[..|b| - 1]); }
  }

  lemma SumAtMost(a: seq<int>, k: nat)
    requires (forall i :: 0 <= i < |a| ==> a[i] <= 0) && k < |a|
    ensures Sum(a) <= a[k]
  {
    var b := seq(|a|, i requires 0 <= i < |a| => -a[i]);
    SumNegated(a, b);
    SumAtLeast(b, k);
  }

  /** Sort, as far as the order of equal keys does not matter. */
  method SortBy(keys: seq<int>) returns (order: seq<nat>)
    ensures IsOrder(order, |keys|) && Ascending(Listed(keys, order)) && Sum(Listed(keys, order)) == Sum(keys)
  {
    order := [];
    assert keys[..|keys|] == keys;
    for n := 0 to |keys|
      invariant IsOrder(order, n) && Ascending(Listed(keys, order)) && Sum(Listed(keys, order)) == Sum(keys[..n])
    {
      assert keys[..n + 1][..n] == keys[..n];
      order := Insert(keys, order, n);
    }
  }

  method Place(keys: seq<int>, order: seq<nat>, x: int) returns (at: nat)
    requires forall i :: 0 <= i < |order| ==> order[i] < |keys|
    ensures at <= |order| && forall i :: 0 <= i < at ==> Listed(keys, order)[i] <= x
    ensures at < |order| ==> Listed(keys, order)[at] > x
  {
    at := 0;
    while at < |order| && keys[order[at]] <= x
      invariant at <= |order| && forall i :: 0 <= i < at ==> Listed(keys, order)[i] <= x
    {
      at := at + 1;
    }
  }

  method Insert(keys: seq<int>, order: seq<nat>, n: nat) returns (order': seq<nat>)
    requires n < |keys| && IsOrder(order, n) && Ascending(Listed(keys, order))
    ensures IsOrder(order', n + 1) && Ascending(Listed(keys, order'))
    ensures Sum(Listed(keys, order')) == Sum(Listed(keys, order)) + keys[n]
  {
    var at := Place(keys, order, keys[n]);
    order' := order[..at] + [n] + order[at..];
    InsertOrder(order, order', at, n);
    InsertSum(keys, order, order', at, n);
    InsertAscending(Listed(keys, order), Listed(keys, order'), at, keys[n]);
  }

  lemma ListedInsert(keys: seq<int>, order: seq<nat>, order': seq<nat>, at: nat, n: nat)
    requires n < |keys| && at <= |order| && forall i :: 0 <= i < |order| ==> order[i] < |keys|
    requires order' == order[..at] + [n] + order[at..]
    ensures forall i :: 0 <= i < |order'| ==> order'[i] < |keys|
    ensures var l := Listed(keys, order); Listed(keys, order') == l[..at] + [keys[n]] + l[at..]
  {
    var l := Listed(keys, order);
    var l' := l[..at] + [keys[n]] + l[at..];
    forall i | 0 <= i < |order'| ensures order'[i] < |keys| && keys[order'[i]] == l'[i] {
      if i < at {
        assert order'[i] == order[i];
      } else if i > at {
        assert order'[i] == order[i - 1] && l'[i] == l[i - 1];
      }
    }
  }

  lemma InsertSum(keys: seq<int>, order: seq<nat>, order': seq<nat>, at: nat, n: nat)
    requires n < |keys| && at <= |order| && forall i :: 0 <= i < |order| ==> order[i] < |keys|
    requires order' == order[..at] + [n] + order[at..]
    ensures forall i :: 0 <= i < |order'| ==> order'[i] < |keys|
    ensures Sum(Listed(keys, order')) == Sum(Listed(keys, order)) + keys[n]
    ensures var l := Listed(keys, order); Listed(keys, order') == l[..at] + [keys[n]] + l[at..]
  {
    var l := Listed(keys, order);
    ListedInsert(keys, order, order', at, n);
    SumInsert(l, at, keys[n]);
  }

  lemma InsertOrder(order: seq<nat>, order': seq<nat>, at: nat, n: nat)
    requires IsOrder(order, n) && at <= n && order' == order[..at] + [n] + order[at..]
    ensures IsOrder(order', n + 1)
  {
    assert forall i :: 0 <= i < at ==> order'[i] == order[i];
    assert forall i :: at < i <= n ==> order'[i] == order[i - 1];
    forall x | 0 <= x < n + 1 ensures x in order' {
      if x == n {
        assert order'[at] == n;
      } else {
        assert x in order;
        var i :| 0 <= i < n && order[i] == x;
        assert order'[if i < at then i else i + 1] == x;
      }
    }
  }

  lemma InsertAscending(l: seq<int>, l': seq<int>, at: nat, x: int)
    requires Ascending(l) && at <= |l| && l' == l[..at] + [x] + l[at..]
    requires (forall i :: 0 <= i < at ==> l[i] <= x) && (at < |l| ==> l[at] > x)
    ensures Ascending(l')
  {
    forall i, j | 0 <= i < j < |l'| ensures l'[i] <= l'[j] {
      if j != at && i != at {
        assert l'[i] == l[if i < at then i else i - 1] && l'[j] == l[if j < at then j else j - 1];
      } else if i == at {
        assert l[at] <= l[j - 1];
      }
    }
  }
}
