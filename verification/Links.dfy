/** Linked lists in memory: a handle is an index, link fields are sequences over all handles, and -1 is
    NULL. */
module Links {
  import opened Basics

  const NULL := -1

  ghost predicate InPool(s: seq<int>, n: nat) {
    forall i :: 0 <= i < |s| ==> 0 <= s[i] < n
  }

  ghost predicate Chain(nx: seq<int>, s: seq<int>) {
    InPool(s, |nx|) && forall i :: 0 <= i < |s| - 1 ==> nx[s[i]] == s[i + 1]
  }

  /** What the handle at place `i` points back to. */
  function Before(s: seq<int>, i: int): int {
    if 0 < i <= |s| then s[i - 1] else NULL
  }

  ghost predicate BackChain(pv: seq<int>, s: seq<int>) {
    InPool(s, |pv|) && forall i :: 0 <= i < |s| ==> pv[s[i]] == Before(s, i)
  }

  function First(s: seq<int>): int {
    if s == [] then NULL else s[0]
  }

  function Last(s: seq<int>): int {
    if s == [] then NULL else s[|s| - 1]
  }

  /** A singly linked list that ends. */
  ghost predicate List(nx: seq<int>, s: seq<int>) {
    Chain(nx, s) && (s != [] ==> nx[Last(s)] == NULL)
  }

  lemma ChainFrame(nx: seq<int>, s: seq<int>, t: int, v: int)
    requires Chain(nx, s) && 0 <= t < |nx| && t !in s
    ensures Chain(nx[t := v], s) && (List(nx, s) ==> List(nx[t := v], s))
  {
  }

  lemma SuffixList(nx: seq<int>, s: seq<int>, k: nat)
    requires List(nx, s) && k <= |s|
    ensures List(nx, s[k..]) && Chain(nx, s[..k])
    ensures k < |s| ==> nx[s[k]] == First(s[k + 1..])
  {
    var t := s[k..];
    assert forall i :: 0 <= i < |t| ==> t[i] == s[i + k];
    if t != [] { assert Last(t) == Last(s); }
  }

  lemma FirstNull(s: seq<int>, n: nat)
    requires InPool(s, n)
    ensures First(s) == NULL <==> s == []
  {
  }

  // ---- Doubly linked lists --------------------------------------------------------------------------

  ghost predicate DList(nx: seq<int>, pv: seq<int>, s: seq<int>) {
    List(nx, s) && BackChain(pv, s) && NoDup(s)
  }

  /** Nothing is written to the list's own links. */
  lemma ListFrame(nx: seq<int>, s: seq<int>, nx': seq<int>)
    requires List(nx, s) && |nx'| >= |nx| && forall i :: 0 <= i < |s| ==> nx'[s[i]] == nx[s[i]]
    ensures List(nx', s)
  {
  }

  lemma BackFrame(pv: seq<int>, s: seq<int>, pv': seq<int>)
    requires BackChain(pv, s) && |pv'| >= |pv| && forall i :: 0 <= i < |s| ==> pv'[s[i]] == pv[s[i]]
    ensures BackChain(pv', s)
  {
  }

  lemma DListFrame(nx: seq<int>, pv: seq<int>, s: seq<int>, nx': seq<int>, pv': seq<int>)
    requires DList(nx, pv, s) && |nx'| >= |nx| && |pv'| >= |pv|
    requires forall i :: 0 <= i < |s| ==> nx'[s[i]] == nx[s[i]] && pv'[s[i]] == pv[s[i]]
    ensures DList(nx', pv', s)
  {
    ListFrame(nx, s, nx');
    BackFrame(pv, s, pv');
  }

  lemma ConsNoDup(e: int, s: seq<int>)
    requires NoDup(s) && e !in s
    ensures NoDup([e] + s)
  {
    forall i, j | 0 <= i < j < |[e] + s| ensures ([e] + s)[i] != ([e] + s)[j] {
      assert ([e] + s)[j] == s[j - 1] && s[j - 1] in s;
      if i > 0 { assert ([e] + s)[i] == s[i - 1]; }
    }
  }

  lemma ConsList(nx: seq<int>, s: seq<int>, e: int)
    requires List(nx, s) && e !in s && 0 <= e < |nx|
    ensures List(nx[e := First(s)], [e] + s)
  {
    var t, nx' := [e] + s, nx[e := First(s)];
    forall i | 0 <= i < |t| - 1 ensures nx'[t[i]] == t[i + 1] {
      if i > 0 { assert t[i] == s[i - 1] && t[i + 1] == s[i] && s[i - 1] in s; }
    }
    if s != [] { assert Last(t) == Last(s) && Last(s) in s; }
  }

  /** In front: the new handle points to the old first one, which points back to it. */
  lemma PushFront(nx: seq<int>, pv: seq<int>, s: seq<int>, e: int, pv': seq<int>)
    requires DList(nx, pv, s) && e !in s && 0 <= e < |nx| == |pv|
    requires pv' == if s == [] then pv[e := NULL] else pv[e := NULL][s[0] := e]
    ensures DList(nx[e := First(s)], pv', [e] + s)
  {
    var t := [e] + s;
    ConsList(nx, s, e);
    ConsNoDup(e, s);
    forall i | 0 <= i < |t| ensures pv'[t[i]] == Before(t, i) {
      if i == 1 {
        assert t[1] == s[0];
      } else if i > 1 {
        assert t[i] == s[i - 1] && t[i - 1] == s[i - 2] && s[i - 1] in s && s[0] != s[i - 1];
      } else {
        assert s != [] ==> s[0] in s;
      }
    }
  }

  lemma SnocNoDup(s: seq<int>, e: int)
    requires NoDup(s) && e !in s
    ensures NoDup(s + [e])
  {
    forall i, j | 0 <= i < j < |s + [e]| ensures (s + [e])[i] != (s + [e])[j] {
      assert (s + [e])[i] == s[i] && s[i] in s;
    }
  }

  lemma SnocList(nx: seq<int>, s: seq<int>, e: int, nx': seq<int>)
    requires List(nx, s) && NoDup(s) && e !in s && 0 <= e < |nx|
    requires nx' == if s == [] then nx[e := NULL] else nx[e := NULL][Last(s) := e]
    ensures List(nx', s + [e])
  {
    var t := s + [e];
    forall i | 0 <= i < |t| - 1 ensures nx'[t[i]] == t[i + 1] {
      assert t[i] == s[i] && s[i] in s;
      if i < |s| - 1 { assert t[i + 1] == s[i + 1] && s[i] != s[|s| - 1]; }
    }
    if s != [] { assert Last(s) in s; }
  }

  /** Behind: the old last one points to the new handle. */
  lemma PushBack(nx: seq<int>, pv: seq<int>, s: seq<int>, e: int, nx': seq<int>)
    requires DList(nx, pv, s) && e !in s && 0 <= e < |nx| == |pv|
    requires nx' == if s == [] then nx[e := NULL] else nx[e := NULL][Last(s) := e]
    ensures DList(nx', pv[e := Last(s)], s + [e])
  {
    var t, pv' := s + [e], pv[e := Last(s)];
    SnocList(nx, s, e, nx');
    SnocNoDup(s, e);
    forall i | 0 <= i < |t| ensures pv'[t[i]] == Before(t, i) {
      if i < |s| { assert t[i] == s[i] && s[i] in s; }
      if i > 0 { assert t[i - 1] == s[i - 1]; }
    }
  }

  function Cut(s: seq<int>, k: nat): seq<int>
    requires k < |s|
  {
    s[..k] + s[k + 1..]
  }

  /** Where a handle stands in a list. */
  ghost function Place(s: seq<int>, e: int): (k: nat)
    requires e in s
    ensures k < |s| && s[k] == e && forall j :: 0 <= j < k ==> s[j] != e
  {
    if s[0] == e then 0 else 1 + Place(s[1..], e)
  }

  lemma CutAt(s: seq<int>, k: nat)
    requires k < |s|
    ensures |Cut(s, k)| == |s| - 1
    ensures forall i :: 0 <= i < |s| - 1 ==> Cut(s, k)[i] == if i < k then s[i] else s[i + 1]
  {
  }

  lemma CutNext(nx: seq<int>, s: seq<int>, k: nat, nx': seq<int>)
    requires List(nx, s) && NoDup(s) && k < |s|
    requires nx' == if k > 0 then nx[s[k - 1] := nx[s[k]]] else nx
    ensures List(nx', Cut(s, k))
  {
    var t := Cut(s, k);
    CutAt(s, k);
    forall i | 0 <= i < |t| - 1 ensures nx'[t[i]] == t[i + 1] {
      var j := if i < k then i else i + 1;
      assert t[i] == s[j];
      if k > 0 && j != k - 1 { if j < k - 1 { assert s[j] != s[k - 1]; } else { assert s[k - 1] != s[j]; } }
    }
    if t != [] {
      if k == |s| - 1 {
        assert Last(t) == s[k - 1];
      } else {
        assert Last(t) == Last(s);
        if k > 0 { assert s[k - 1] != s[|s| - 1]; }
      }
    }
  }

  lemma CutPrev(pv: seq<int>, s: seq<int>, k: nat, pv': seq<int>)
    requires BackChain(pv, s) && NoDup(s) && k < |s|
    requires pv' == if k + 1 < |s| then pv[s[k + 1] := pv[s[k]]] else pv
    ensures BackChain(pv', Cut(s, k))
  {
    var t := Cut(s, k);
    CutAt(s, k);
    forall i | 0 <= i < |t| ensures pv'[t[i]] == Before(t, i) {
      var j := if i < k then i else i + 1;
      assert t[i] == s[j] && pv[s[j]] == Before(s, j);
      if j == k + 1 {
        assert pv[s[k]] == Before(s, k);
        if k > 0 { assert t[i - 1] == s[k - 1]; }
      } else {
        if k + 1 < |s| { if j < k + 1 { assert s[j] != s[k + 1]; } else { assert s[k + 1] != s[j]; } }
        if i > 0 { assert t[i - 1] == s[j - 1]; }
      }
    }
  }

  lemma CutNoDup(s: seq<int>, k: nat)
    requires NoDup(s) && k < |s|
    ensures NoDup(Cut(s, k)) && s[k] !in Cut(s, k) && forall x :: x in Cut(s, k) <==> x in s && x != s[k]
  {
    var t := Cut(s, k);
    CutAt(s, k);
    forall x | x in s && x != s[k] ensures x in t {
      var j :| 0 <= j < |s| && s[j] == x;
      assert t[if j < k then j else j - 1] == x;
    }
  }

  /** Write to a link field, unless it would be that of NULL. */
  function Patch(m: seq<int>, at: int, v: int): seq<int> {
    if 0 <= at < |m| then m[at := v] else m
  }

  /** Out of the middle, the front or the end: the neighbours, where there are any, are joined. */
  lemma Unlink(nx: seq<int>, pv: seq<int>, s: seq<int>, k: nat, nx': seq<int>, pv': seq<int>)
    requires DList(nx, pv, s) && k < |s|
    requires nx' == Patch(nx, pv[s[k]], nx[s[k]]) && pv' == Patch(pv, nx[s[k]], pv[s[k]])
    ensures DList(nx', pv', Cut(s, k))
    ensures pv[s[k]] == Before(s, k) && nx[s[k]] == (if k + 1 < |s| then s[k + 1] else NULL)
  {
    assert nx[s[k]] == if k + 1 < |s| then s[k + 1] else NULL;
    CutNext(nx, s, k, nx');
    CutPrev(pv, s, k, pv');
    CutNoDup(s, k);
  }
}
