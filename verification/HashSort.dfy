/** `HASH_SRT`: the bottom-up mergesort that relinks the application-order list of a hash table in
    place.  `next` and `prev` are the link fields of all handles; `rank` is where each was in the list
    before the sort. */
module HashSort {
  import opened Basics
  import opened Links

  const UINT_LIMIT := 0x1_0000_0000

  type Cmp = (int, int) -> int

  /** What the comparison function has to be: "not after" is total and transitive. */
  ghost predicate TotalPreorder(cmp: Cmp) {
    && (forall a, b :: cmp(a, b) <= 0 || cmp(b, a) <= 0)
    && (forall a, b, c :: cmp(a, b) <= 0 && cmp(b, c) <= 0 ==> cmp(a, c) <= 0)
  }

  /** Handle `i` belongs before handle `j`: smaller, or equal and earlier in the list. */
  predicate InOrder(rank: seq<int>, cmp: Cmp, i: int, j: int)
    requires 0 <= i < |rank| && 0 <= j < |rank|
  {
    cmp(i, j) <= 0 && (cmp(j, i) > 0 || rank[i] < rank[j])
  }

  ghost predicate Ordered(rank: seq<int>, cmp: Cmp, s: seq<int>) {
    InPool(s, |rank|) && forall i, j :: 0 <= i < j < |s| ==> InOrder(rank, cmp, s[i], s[j])
  }

  /** The handles of one stretch of the list before the sort. */
  ghost predicate Ranked(rank: seq<int>, s: seq<int>, lo: int, hi: int) {
    forall x :: x in s ==> 0 <= x < |rank| && lo <= rank[x] < hi
  }

  ghost predicate Earlier(rank: seq<int>, p: seq<int>, q: seq<int>) {
    forall x, y :: x in p && y in q ==> 0 <= x < |rank| && 0 <= y < |rank| && rank[x] < rank[y]
  }

  // ---- What one merge and one pass compute ----------------------------------------------------------

  function Merge(rank: seq<int>, cmp: Cmp, p: seq<int>, q: seq<int>): (r: seq<int>)
    requires InPool(p, |rank|) && InPool(q, |rank|)
    ensures |r| == |p| + |q|
    decreases |p| + |q|
  {
    if p == [] then q
    else if q == [] then p
    else if cmp(p[0], q[0]) <= 0 then [p[0]] + Merge(rank, cmp, p[1..], q)
    else [q[0]] + Merge(rank, cmp, p, q[1..])
  }

  lemma {:induction false} MergeMultiset(rank: seq<int>, cmp: Cmp, p: seq<int>, q: seq<int>)
    requires InPool(p, |rank|) && InPool(q, |rank|)
    ensures multiset(Merge(rank, cmp, p, q)) == multiset(p) + multiset(q)
    decreases |p| + |q|
  {
    if p != [] && q != [] {
      assert p == [p[0]] + p[1..] && q == [q[0]] + q[1..];
      if cmp(p[0], q[0]) <= 0 { MergeMultiset(rank, cmp, p[1..], q); }
      else { MergeMultiset(rank, cmp, p, q[1..]); }
    }
  }

  lemma MergeMembers(rank: seq<int>, cmp: Cmp, p: seq<int>, q: seq<int>)
    requires InPool(p, |rank|) && InPool(q, |rank|)
    ensures forall x :: x in Merge(rank, cmp, p, q) <==> x in p || x in q
    ensures InPool(Merge(rank, cmp, p, q), |rank|)
  {
    MergeMultiset(rank, cmp, p, q);
    var r := Merge(rank, cmp, p, q);
    assert forall x :: x in r <==> x in multiset(r);
    forall i | 0 <= i < |r| ensures 0 <= r[i] < |rank| { assert r[i] in r; }
  }

  lemma Comparable(cmp: Cmp, a: int, b: int)
    requires TotalPreorder(cmp)
    ensures cmp(a, b) <= 0 || cmp(b, a) <= 0
  {
  }

  lemma InOrderTransitive(rank: seq<int>, cmp: Cmp, i: int, j: int, k: int)
    requires TotalPreorder(cmp)
    requires 0 <= i < |rank| && 0 <= j < |rank| && 0 <= k < |rank|
    requires InOrder(rank, cmp, i, j) && InOrder(rank, cmp, j, k)
    ensures InOrder(rank, cmp, i, k)
  {
    assert cmp(i, j) <= 0 && cmp(j, k) <= 0 ==> cmp(i, k) <= 0;
    assert cmp(k, i) <= 0 && cmp(i, j) <= 0 ==> cmp(k, j) <= 0;
    assert cmp(j, k) <= 0 && cmp(k, i) <= 0 ==> cmp(j, i) <= 0;
  }

  /** Putting `x` in front of an ordered sequence all of whose members come after it. */
  lemma OrderedCons(rank: seq<int>, cmp: Cmp, x: int, s: seq<int>)
    requires 0 <= x < |rank| && Ordered(rank, cmp, s)
    requires forall y :: y in s ==> 0 <= y < |rank| && InOrder(rank, cmp, x, y)
    ensures Ordered(rank, cmp, [x] + s)
  {
    var t := [x] + s;
    forall i, j | 0 <= i < j < |t| ensures InOrder(rank, cmp, t[i], t[j]) {
      assert t[j] == s[j - 1] && t[j] in s;
      if i > 0 { assert t[i] == s[i - 1]; }
    }
  }

  lemma OrderedTail(rank: seq<int>, cmp: Cmp, s: seq<int>)
    requires Ordered(rank, cmp, s) && s != []
    ensures Ordered(rank, cmp, s[1..])
    ensures forall y :: y in s[1..] ==> 0 <= y < |rank| && InOrder(rank, cmp, s[0], y)
  {
    forall i, j | 0 <= i < j < |s[1..]| ensures InOrder(rank, cmp, s[1..][i], s[1..][j]) {
      assert s[1..][i] == s[i + 1] && s[1..][j] == s[j + 1];
    }
  }

  /** Merging two ordered runs, the first from earlier in the list, keeps the order and is stable. */
  lemma {:induction false} MergeOrdered(rank: seq<int>, cmp: Cmp, p: seq<int>, q: seq<int>)
    requires TotalPreorder(cmp) && Ordered(rank, cmp, p) && Ordered(rank, cmp, q)
    requires Earlier(rank, p, q)
    ensures Ordered(rank, cmp, Merge(rank, cmp, p, q))
    decreases |p| + |q|
  {
    if p != [] && q != [] {
      OrderedTail(rank, cmp, p);
      OrderedTail(rank, cmp, q);
      assert p[0] in p && q[0] in q;
      assert forall x :: x in p[1..] ==> x in p;
      assert forall y :: y in q[1..] ==> y in q;
      if cmp(p[0], q[0]) <= 0 {
        MergeOrdered(rank, cmp, p[1..], q);
        MergeMembers(rank, cmp, p[1..], q);
        FirstInOrder(rank, cmp, p[0], q[0], q);
        OrderedCons(rank, cmp, p[0], Merge(rank, cmp, p[1..], q));
      } else {
        MergeOrdered(rank, cmp, p, q[1..]);
        MergeMembers(rank, cmp, p, q[1..]);
        Comparable(cmp, q[0], p[0]);
        assert InOrder(rank, cmp, q[0], p[0]);
        FirstInOrder(rank, cmp, q[0], p[0], p);
        OrderedCons(rank, cmp, q[0], Merge(rank, cmp, p, q[1..]));
      }
    }
  }

  lemma FirstInOrder(rank: seq<int>, cmp: Cmp, x: int, y: int, s: seq<int>)
    requires TotalPreorder(cmp) && Ordered(rank, cmp, s) && s != [] && s[0] == y && 0 <= x < |rank|
    requires InOrder(rank, cmp, x, y)
    ensures forall z :: z in s ==> 0 <= z < |rank| && InOrder(rank, cmp, x, z)
  {
    forall i | 0 <= i < |s| ensures InOrder(rank, cmp, x, s[i]) {
      if i > 0 { InOrderTransitive(rank, cmp, x, s[0], s[i]); }
    }
  }

  /** The first two runs of length `k`, merged. */
  function FirstMerge(rank: seq<int>, cmp: Cmp, s: seq<int>, k: nat): (r: seq<int>)
    requires InPool(s, |rank|)
    ensures |r| == Min(2 * k, |s|)
  {
    Merge(rank, cmp, s[..Min(k, |s|)], s[Min(k, |s|)..Min(2 * k, |s|)])
  }

  /** One pass over the list with runs of length `k`. */
  function Pass(rank: seq<int>, cmp: Cmp, s: seq<int>, k: nat): (r: seq<int>)
    requires k > 0 && InPool(s, |rank|)
    ensures |r| == |s|
    decreases |s|
  {
    if s == [] then [] else FirstMerge(rank, cmp, s, k) + Pass(rank, cmp, s[Min(2 * k, |s|)..], k)
  }

  /** How many merges that takes. */
  function Merges(n: nat, k: nat): nat
    requires k > 0
    decreases n
  {
    if n == 0 then 0 else 1 + Merges(n - Min(2 * k, n), k)
  }

  /** `s` is made of ordered runs of length `k`, each holding the handles of its own stretch of the list. */
  ghost predicate Runs(rank: seq<int>, cmp: Cmp, s: seq<int>, k: nat, base: int)
    requires k > 0
    decreases |s|
  {
    s == [] ||
    (var a := Min(k, |s|);
     && Ordered(rank, cmp, s[..a])
     && Ranked(rank, s[..a], base, base + a)
     && Runs(rank, cmp, s[a..], k, base + a))
  }

  /** The first run, and the rest. */
  lemma FirstRun(rank: seq<int>, cmp: Cmp, s: seq<int>, m: seq<int>, t: seq<int>, k: nat, base: int)
    requires k > 0 && Runs(rank, cmp, s, k, base) && s == m + t && |m| == Min(k, |s|)
    ensures Ordered(rank, cmp, m) && Ranked(rank, m, base, base + |m|) && Runs(rank, cmp, t, k, base + |m|)
  {
    assert s[..|m|] == m && s[|m|..] == t;
  }

  /** The first two runs, and the rest. */
  lemma FirstRuns(rank: seq<int>, cmp: Cmp, s: seq<int>, k: nat, base: int, a: nat, b: nat)
    requires k > 0 && s != [] && Runs(rank, cmp, s, k, base)
    requires a == Min(k, |s|) && b == Min(2 * k, |s|)
    ensures Ordered(rank, cmp, s[..a]) && Ordered(rank, cmp, s[a..b])
    ensures Ranked(rank, s[..a], base, base + a)
    ensures Ranked(rank, s[a..b], base + a, base + b)
    ensures Runs(rank, cmp, s[b..], k, base + b)
  {
    var m, t, n, u := Cuts(s, a, b);
    TwoRuns(rank, cmp, s, m, t, n, u, k, base, base + a, base + b);
  }

  lemma Cuts(s: seq<int>, a: nat, b: nat) returns (m: seq<int>, t: seq<int>, n: seq<int>, u: seq<int>)
    requires a <= b <= |s|
    ensures m == s[..a] && n == s[a..b] && u == s[b..] && s == m + t && t == n + u
    ensures |m| == a && |n| == b - a && |t| == |s| - a
  {
    m, t, n, u := s[..a], s[a..], s[a..b], s[b..];
  }

  lemma TwoRuns(rank: seq<int>, cmp: Cmp, s: seq<int>, m: seq<int>, t: seq<int>, n: seq<int>, u: seq<int>, k: nat,
                base: int, mid: int, end: int)
    requires k > 0 && Runs(rank, cmp, s, k, base)
    requires s == m + t && |m| == Min(k, |s|) && t == n + u && |n| == Min(k, |t|)
    requires mid == base + |m| && end == mid + |n|
    ensures Ordered(rank, cmp, m) && Ranked(rank, m, base, mid)
    ensures Ordered(rank, cmp, n) && Ranked(rank, n, mid, end)
    ensures Runs(rank, cmp, u, k, end)
  {
    FirstRun(rank, cmp, s, m, t, k, base);
    FirstRun(rank, cmp, t, n, u, k, mid);
  }

  lemma FirstMergeRun(rank: seq<int>, cmp: Cmp, s: seq<int>, k: nat, base: int)
    requires TotalPreorder(cmp) && k > 0 && s != [] && InPool(s, |rank|) && Runs(rank, cmp, s, k, base)
    ensures Ordered(rank, cmp, FirstMerge(rank, cmp, s, k))
    ensures Ranked(rank, FirstMerge(rank, cmp, s, k), base, base + Min(2 * k, |s|))
    ensures Runs(rank, cmp, s[Min(2 * k, |s|)..], k, base + Min(2 * k, |s|))
  {
    var a, b := Min(k, |s|), Min(2 * k, |s|);
    FirstRuns(rank, cmp, s, k, base, a, b);
    MergeOrdered(rank, cmp, s[..a], s[a..b]);
    MergeMembers(rank, cmp, s[..a], s[a..b]);
  }

  lemma {:induction false} PassRuns(rank: seq<int>, cmp: Cmp, s: seq<int>, k: nat, base: int)
    requires TotalPreorder(cmp) && k > 0 && InPool(s, |rank|) && Runs(rank, cmp, s, k, base)
    ensures Runs(rank, cmp, Pass(rank, cmp, s, k), 2 * k, base)
    decreases |s|
  {
    if s != [] {
      var b := Min(2 * k, |s|);
      FirstMergeRun(rank, cmp, s, k, base);
      PassRuns(rank, cmp, s[b..], k, base + b);
      RunsCons(rank, cmp, FirstMerge(rank, cmp, s, k), Pass(rank, cmp, s[b..], k), 2 * k, base);
    }
  }

  lemma RunsCons(rank: seq<int>, cmp: Cmp, m: seq<int>, rest: seq<int>, k: nat, base: int)
    requires k > 0 && Ordered(rank, cmp, m) && 0 < |m| && |m| == Min(k, |m| + |rest|)
    requires Ranked(rank, m, base, base + |m|) && Runs(rank, cmp, rest, k, base + |m|)
    ensures Runs(rank, cmp, m + rest, k, base)
  {
    assert (m + rest)[..|m|] == m && (m + rest)[|m|..] == rest;
  }

  lemma {:induction false} PassMultiset(rank: seq<int>, cmp: Cmp, s: seq<int>, k: nat)
    requires k > 0 && InPool(s, |rank|)
    ensures multiset(Pass(rank, cmp, s, k)) == multiset(s)
    decreases |s|
  {
    if s != [] {
      var a, b := Min(k, |s|), Min(2 * k, |s|);
      MergeMultiset(rank, cmp, s[..a], s[a..b]);
      PassMultiset(rank, cmp, s[b..], k);
      Thirds(s, a, b);
    }
  }

  lemma Thirds(s: seq<int>, a: nat, b: nat)
    requires a <= b <= |s|
    ensures multiset(s) == multiset(s[..a]) + multiset(s[a..b]) + multiset(s[b..])
  {
    assert s == s[..a] + s[a..b] + s[b..];
  }

  // ---- Links ----------------------------------------------------------------------------------------

  /** The output list grows by one handle. */
  lemma EmitOk(nx: seq<int>, pv: seq<int>, out: seq<int>, e: int, nx': seq<int>, pv': seq<int>)
    requires Chain(nx, out) && BackChain(pv, out) && |nx| == |pv| && NoDup(out) && e !in out && 0 <= e < |nx|
    requires nx' == (if out == [] then nx else nx[Last(out) := e]) && pv' == pv[e := Last(out)]
    ensures Chain(nx', out + [e]) && BackChain(pv', out + [e])
  {
    EmitForward(nx, out, e, nx', out + [e]);
    EmitBack(pv, out, e, pv', out + [e]);
  }

  lemma EmitForward(nx: seq<int>, out: seq<int>, e: int, nx': seq<int>, o: seq<int>)
    requires Chain(nx, out) && NoDup(out) && 0 <= e < |nx| && o == out + [e]
    requires nx' == if out == [] then nx else nx[Last(out) := e]
    ensures Chain(nx', o)
  {
    forall i | 0 <= i < |o| - 1 ensures nx'[o[i]] == o[i + 1] {
      assert o[i] == out[i];
      if i < |out| - 1 { assert out[i] != Last(out); }
    }
  }

  lemma EmitBack(pv: seq<int>, out: seq<int>, e: int, pv': seq<int>, o: seq<int>)
    requires BackChain(pv, out) && e !in out && 0 <= e < |pv| && pv' == pv[e := Last(out)] && o == out + [e]
    ensures BackChain(pv', o)
  {
    forall i | 0 <= i < |o| ensures pv'[o[i]] == Before(o, i) {
      if i < |out| {
        assert o[i] == out[i] && out[i] in out;
        assert pv[out[i]] == Before(out, i);
        if i > 0 { assert o[i - 1] == out[i - 1]; }
      } else {
        assert o[i] == e && pv'[e] == Last(out);
        if i > 0 { assert o[i - 1] == out[i - 1]; }
      }
    }
  }

  /** What has been merged so far: forward and backward links, head and tail. */
  ghost predicate OutOk(nx: seq<int>, pv: seq<int>, out: seq<int>, list: int, tail: int) {
    Chain(nx, out) && BackChain(pv, out) && list == First(out) && tail == Last(out)
  }

  ghost predicate Disjoint3(a: seq<int>, b: seq<int>, c: seq<int>) {
    && NoDup(a) && NoDup(b) && NoDup(c)
    && (forall x :: x in a ==> x !in b && x !in c) && (forall x :: x in b ==> x !in c)
  }

  /** Link handle `e` behind the output list. */
  method Emit(next: array<int>, prev: array<int>, list: int, tail: int, e: int, ghost out: seq<int>,
              ghost p: seq<int>, ghost q: seq<int>) returns (list': int)
    requires next != prev && next.Length == prev.Length && 0 <= e < next.Length
    requires OutOk(next[..], prev[..], out, list, tail) && Disjoint3(out + [e], p, q)
    requires Chain(next[..], p) && List(next[..], q)
    modifies next, prev
    ensures OutOk(next[..], prev[..], out + [e], list', e) && Chain(next[..], p) && List(next[..], q)
  {
    assert e in out + [e];
    NoDupInit(out, e);
    ghost var nx, pv := next[..], prev[..];
    list' := list;
    if tail != NULL {
      assert tail in out && tail in out + [e];
      ChainFrame(nx, p, tail, e);
      ChainFrame(nx, q, tail, e);
      next[tail] := e;
    } else {
      list' := e;
    }
    prev[e] := tail;
    EmitOk(nx, pv, out, e, next[..], prev[..]);
  }

  lemma NoDupInit(out: seq<int>, e: int)
    requires NoDup(out + [e])
    ensures NoDup(out) && e !in out
  {
    forall i, j | 0 <= i < j < |out| ensures out[i] != out[j] {
      assert (out + [e])[i] == out[i] && (out + [e])[j] == out[j];
    }
    forall i | 0 <= i < |out| ensures out[i] != e {
      assert (out + [e])[i] == out[i] && (out + [e])[|out|] == e;
    }
  }

  lemma TailChain(nx: seq<int>, s: seq<int>)
    requires Chain(nx, s) && s != []
    ensures Chain(nx, s[1..]) && (s[1..] != [] ==> nx[s[0]] == s[1])
    ensures List(nx, s) ==> List(nx, s[1..]) && nx[s[0]] == First(s[1..])
  {
    assert forall i :: 0 <= i < |s| - 1 ==> s[1..][i] == s[i + 1];
  }

  lemma TakeP(out: seq<int>, p: seq<int>, q: seq<int>)
    requires Disjoint3(out, p, q) && p != []
    ensures Disjoint3(out + [p[0]], p[1..], q)
  {
    assert p[0] in p;
    assert forall x :: x in p[1..] ==> x in p && x != p[0];
  }

  lemma TakeQ(out: seq<int>, p: seq<int>, q: seq<int>)
    requires Disjoint3(out, p, q) && q != []
    ensures Disjoint3(out + [q[0]], p, q[1..])
  {
    assert q[0] in q;
    assert forall x :: x in q[1..] ==> x in q && x != q[0];
  }

  /** The part of the second run that is still to be merged. */
  function Left(q: seq<int>, qsize: nat): seq<int> {
    q[..Min(qsize, |q|)]
  }

  lemma Snoc(a: seq<int>, x: int, b: seq<int>)
    ensures a + ([x] + b) == (a + [x]) + b
  {
  }

  lemma TailInPool(s: seq<int>, n: nat)
    requires InPool(s, n) && s != []
    ensures InPool(s[1..], n) && s == [s[0]] + s[1..]
  {
    assert forall i :: 0 <= i < |s[1..]| ==> s[1..][i] == s[i + 1];
  }

  lemma MergeFromP(rank: seq<int>, cmp: Cmp, p: seq<int>, q: seq<int>, out: seq<int>)
    requires InPool(p, |rank|) && InPool(q, |rank|) && p != []
    requires q == [] || cmp(p[0], q[0]) <= 0
    ensures InPool(p[1..], |rank|)
    ensures out + Merge(rank, cmp, p, q) == (out + [p[0]]) + Merge(rank, cmp, p[1..], q)
  {
    TailInPool(p, |rank|);
    assert Merge(rank, cmp, p, q) == [p[0]] + Merge(rank, cmp, p[1..], q) by {
      if q == [] { assert Merge(rank, cmp, p[1..], q) == p[1..]; }
    }
    Snoc(out, p[0], Merge(rank, cmp, p[1..], q));
  }

  lemma MergeHeadQ(rank: seq<int>, cmp: Cmp, p: seq<int>, q: seq<int>, out: seq<int>)
    requires InPool(p, |rank|) && InPool(q, |rank|) && q != []
    requires p == [] || cmp(p[0], q[0]) > 0
    ensures InPool(q[1..], |rank|)
    ensures out + Merge(rank, cmp, p, q) == (out + [q[0]]) + Merge(rank, cmp, p, q[1..])
  {
    TailInPool(q, |rank|);
    Snoc(out, q[0], Merge(rank, cmp, p, q[1..]));
  }

  lemma LeftTail(q: seq<int>, qsize: nat, n: nat)
    requires InPool(q, n) && q != [] && qsize > 0
    ensures InPool(Left(q, qsize), n) && Left(q, qsize) != [] && Left(q, qsize)[0] == q[0]
    ensures Left(q, qsize)[1..] == Left(q[1..], qsize - 1)
    ensures q[Min(qsize, |q|)..] == q[1..][Min(qsize - 1, |q| - 1)..]
  {
  }

  lemma MergeFromQ(rank: seq<int>, cmp: Cmp, p: seq<int>, q: seq<int>, qsize: nat, out: seq<int>)
    requires InPool(p, |rank|) && InPool(q, |rank|) && q != [] && qsize > 0
    requires p == [] || cmp(p[0], q[0]) > 0
    ensures InPool(q[1..], |rank|) && InPool(Left(q, qsize), |rank|) && InPool(Left(q[1..], qsize - 1), |rank|)
    ensures out + Merge(rank, cmp, p, Left(q, qsize)) == (out + [q[0]]) + Merge(rank, cmp, p, Left(q[1..], qsize - 1))
    ensures q[Min(qsize, |q|)..] == q[1..][Min(qsize - 1, |q| - 1)..]
  {
    TailInPool(q, |rank|);
    LeftTail(q, qsize, |rank|);
    MergeHeadQ(rank, cmp, p, Left(q, qsize), out);
  }

  /** In the middle of a merge: `pr` and `qr` are what is left of the two runs and of the list behind;
      what is out already, and what is still to be merged, make up the target. */
  ghost predicate Remaining(rank: seq<int>, cmp: Cmp, p: int, psize: nat, q: int, qsize: nat, out: seq<int>,
                            pr: seq<int>, qr: seq<int>, target: seq<int>, rest: seq<int>)
  {
    && InPool(pr, |rank|) && InPool(qr, |rank|) && InPool(Left(qr, qsize), |rank|)
    && psize == |pr| && (pr != [] ==> p == pr[0]) && q == First(qr)
    && out + Merge(rank, cmp, pr, Left(qr, qsize)) == target
    && qr[Min(qsize, |qr|)..] == rest
  }

  ghost predicate Merging(nx: seq<int>, pv: seq<int>, rank: seq<int>, cmp: Cmp, p: int, psize: nat, q: int,
                          qsize: nat, list: int, tail: int, out: seq<int>, pr: seq<int>, qr: seq<int>,
                          target: seq<int>, rest: seq<int>)
  {
    && |nx| == |pv| == |rank| && Remaining(rank, cmp, p, psize, q, qsize, out, pr, qr, target, rest)
    && OutOk(nx, pv, out, list, tail) && Disjoint3(out, pr, qr) && Chain(nx, pr) && List(nx, qr)
  }

  lemma RemainingQ(rank: seq<int>, cmp: Cmp, p: int, psize: nat, q: int, qsize: nat, out: seq<int>,
                   pr: seq<int>, qr: seq<int>, target: seq<int>, rest: seq<int>)
    requires Remaining(rank, cmp, p, psize, q, qsize, out, pr, qr, target, rest)
    requires qsize != 0 && q != NULL && (psize == 0 || cmp(p, q) > 0)
    ensures Remaining(rank, cmp, p, psize, First(qr[1..]), qsize - 1, out + [q], pr, qr[1..], target, rest)
  {
    MergeFromQ(rank, cmp, pr, qr, qsize, out);
  }

  lemma RemainingP(rank: seq<int>, cmp: Cmp, p: int, psize: nat, q: int, qsize: nat, out: seq<int>,
                   pr: seq<int>, qr: seq<int>, target: seq<int>, rest: seq<int>, p': int)
    requires Remaining(rank, cmp, p, psize, q, qsize, out, pr, qr, target, rest)
    requires psize != 0 && (qsize == 0 || q == NULL || cmp(p, q) <= 0) && (|pr| > 1 ==> p' == pr[1])
    ensures Remaining(rank, cmp, p', psize - 1, q, qsize, out + [p], pr[1..], qr, target, rest)
  {
    MergeFromP(rank, cmp, pr, Left(qr, qsize), out);
  }

  /** The next handle comes from the second run. */
  method TakeFromQ(next: array<int>, prev: array<int>, ghost rank: seq<int>, cmp: Cmp, p0: int, psize0: nat,
                   q0: int, qsize0: nat, list0: int, tail0: int, ghost out: seq<int>, ghost pr: seq<int>,
                   ghost qr: seq<int>, ghost target: seq<int>, ghost rest: seq<int>)
    returns (q: int, qsize: nat, list: int, tail: int, ghost out': seq<int>, ghost qr': seq<int>)
    requires next != prev && qsize0 != 0 && q0 != NULL && (psize0 == 0 || cmp(p0, q0) > 0)
    requires Merging(next[..], prev[..], rank, cmp, p0, psize0, q0, qsize0, list0, tail0, out, pr, qr, target, rest)
    modifies next, prev
    ensures Merging(next[..], prev[..], rank, cmp, p0, psize0, q, qsize, list, tail, out', pr, qr', target, rest)
    ensures qsize < qsize0
  {
    tail, q, qsize := q0, next[q0], qsize0 - 1;
    TailChain(next[..], qr);
    TakeQ(out, pr, qr);
    RemainingQ(rank, cmp, p0, psize0, q0, qsize0, out, pr, qr, target, rest);
    qr', out' := qr[1..], out + [tail];
    list := Emit(next, prev, list0, tail0, tail, out, pr, qr');
  }

  /** The next handle comes from the first run. */
  method TakeFromP(next: array<int>, prev: array<int>, ghost rank: seq<int>, cmp: Cmp, p0: int, psize0: nat,
                   q0: int, qsize0: nat, list0: int, tail0: int, ghost out: seq<int>, ghost pr: seq<int>,
                   ghost qr: seq<int>, ghost target: seq<int>, ghost rest: seq<int>)
    returns (p: int, psize: nat, list: int, tail: int, ghost out': seq<int>, ghost pr': seq<int>)
    requires next != prev && psize0 != 0 && (qsize0 == 0 || q0 == NULL || cmp(p0, q0) <= 0)
    requires Merging(next[..], prev[..], rank, cmp, p0, psize0, q0, qsize0, list0, tail0, out, pr, qr, target, rest)
    modifies next, prev
    ensures Merging(next[..], prev[..], rank, cmp, p, psize, q0, qsize0, list, tail, out', pr', qr, target, rest)
    ensures psize < psize0
  {
    tail, p, psize := p0, next[p0], psize0 - 1;
    TailChain(next[..], pr);
    TakeP(out, pr, qr);
    RemainingP(rank, cmp, p0, psize0, q0, qsize0, out, pr, qr, target, rest, p);
    pr', out' := pr[1..], out + [tail];
    list := Emit(next, prev, list0, tail0, tail, out, pr', qr);
  }

  /** The merge loop: runs `p` (of length `psize`) and `q` (of length at most `qsize`, the rest of the
      list behind it) go to the end of the output list. */
  method MergeRuns(next: array<int>, prev: array<int>, ghost rank: seq<int>, cmp: Cmp, p0: int, psize0: nat, q0: int,
                   qsize0: nat, list0: int, tail0: int, ghost out0: seq<int>, ghost ps: seq<int>, ghost qs: seq<int>)
    returns (list: int, tail: int, q: int)
    requires next != prev && next.Length == prev.Length == |rank| && InPool(ps, |rank|) && InPool(qs, |rank|)
    requires psize0 == |ps| && (ps != [] ==> p0 == ps[0]) && q0 == First(qs)
    requires OutOk(next[..], prev[..], out0, list0, tail0) && Disjoint3(out0, ps, qs)
    requires Chain(next[..], ps) && List(next[..], qs)
    modifies next, prev
    ensures InPool(Left(qs, qsize0), |rank|)
    ensures OutOk(next[..], prev[..], out0 + Merge(rank, cmp, ps, Left(qs, qsize0)), list, tail)
    ensures q == First(qs[Min(qsize0, |qs|)..]) && List(next[..], qs[Min(qsize0, |qs|)..])
    ensures Disjoint3(out0 + Merge(rank, cmp, ps, Left(qs, qsize0)), [], qs[Min(qsize0, |qs|)..])
  {
    var p, psize, qsize := p0, psize0, qsize0;
    list, tail, q := list0, tail0, q0;
    ghost var out, pr, qr := out0, ps, qs;
    ghost var target, rest := out0 + Merge(rank, cmp, ps, Left(qs, qsize0)), qs[Min(qsize0, |qs|)..];
    while psize != 0 || (qsize != 0 && q != NULL)
      invariant Merging(next[..], prev[..], rank, cmp, p, psize, q, qsize, list, tail, out, pr, qr, target, rest)
      decreases psize + qsize
    {
      if psize == 0 || (qsize != 0 && q != NULL && cmp(p, q) > 0) {
        q, qsize, list, tail, out, qr :=
          TakeFromQ(next, prev, rank, cmp, p, psize, q, qsize, list, tail, out, pr, qr, target, rest);
      } else {
        p, psize, list, tail, out, pr :=
          TakeFromP(next, prev, rank, cmp, p, psize, q, qsize, list, tail, out, pr, qr, target, rest);
      }
    }
    assert Left(qr, qsize) == [] && out == target && qr == rest;
  }

  /** Step over at most `insize` handles to find where the second run starts. */
  method FindQ(next: array<int>, p: int, insize: nat, ghost s: seq<int>) returns (q: int, psize: nat)
    requires List(next[..], s) && s != [] && p == s[0] && insize > 0
    ensures psize == Min(insize, |s|) && q == First(s[psize..])
  {
    q, psize := p, 0;
    var i := 0;
    while i < insize
      invariant 0 <= i <= insize && psize == i <= |s| && q == First(s[psize..])
      invariant i < insize ==> psize < |s|
    {
      SuffixList(next[..], s, psize);
      FirstNull(s[psize + 1..], next.Length);
      psize := psize + 1;
      q := next[q];
      if q == NULL { break; }
      i := i + 1;
    }
  }

  lemma Halves(s: seq<int>, k: nat, out: seq<int>)
    requires Disjoint3(out, [], s)
    ensures Disjoint3(out, s[..Min(k, |s|)], s[Min(k, |s|)..])
    ensures Left(s[Min(k, |s|)..], k) == s[Min(k, |s|)..Min(2 * k, |s|)]
    ensures s[Min(k, |s|)..][Min(k, |s| - Min(k, |s|))..] == s[Min(2 * k, |s|)..]
  {
    var a := Min(k, |s|);
    Split(s, a, out, s[..a], s[a..]);
    SecondRun(s, a, Min(k, |s| - a), Min(2 * k, |s|));
  }

  lemma SecondRun(s: seq<int>, a: nat, n: nat, b: nat)
    requires b == a + n <= |s|
    ensures s[a..][..n] == s[a..b] && s[a..][n..] == s[b..]
  {
  }

  lemma Split(s: seq<int>, a: nat, out: seq<int>, p: seq<int>, q: seq<int>)
    requires Disjoint3(out, [], s) && a <= |s| && p == s[..a] && q == s[a..]
    ensures Disjoint3(out, p, q)
  {
    assert forall i :: 0 <= i < |p| ==> p[i] == s[i];
    assert forall i :: 0 <= i < |q| ==> q[i] == s[i + a];
    forall x | x in p ensures x in s && x !in q {
      var i :| 0 <= i < |p| && p[i] == x;
      assert forall j :: 0 <= j < |q| ==> q[j] != s[i];
    }
    forall x | x in q ensures x in s {
      var j :| 0 <= j < |q| && q[j] == x;
      assert s[j + a] == x;
    }
  }

  /** Where a pass is: `rest` is still to be merged. */
  ghost predicate Passing(nx: seq<int>, pv: seq<int>, rank: seq<int>, cmp: Cmp, p: int, list: int, tail: int, k: nat,
                          out: seq<int>, rest: seq<int>, target: seq<int>)
  {
    && |nx| == |pv| == |rank| && k > 0 && InPool(rest, |rank|)
    && p == First(rest) && OutOk(nx, pv, out, list, tail) && List(nx, rest) && Disjoint3(out, [], rest)
    && out + Pass(rank, cmp, rest, k) == target
  }

  lemma PassStart(nx: seq<int>, rank: seq<int>, cmp: Cmp, s: seq<int>, k: nat, out: seq<int>, p: seq<int>, q: seq<int>)
    requires |nx| == |rank| && k > 0 && s != [] && InPool(s, |rank|) && List(nx, s) && Disjoint3(out, [], s)
    requires p == s[..Min(k, |s|)] && q == s[Min(k, |s|)..]
    ensures InPool(p, |rank|) && InPool(q, |rank|) && InPool(Left(q, k), |rank|) && InPool(q[Min(k, |q|)..], |rank|)
    ensures Disjoint3(out, p, q) && Chain(nx, p) && List(nx, q)
    ensures |q[Min(k, |q|)..]| == |s| - Min(2 * k, |s|)
  {
    Halves(s, k, out);
    SuffixList(nx, s, Min(k, |s|));
  }

  lemma PassUnfold(rank: seq<int>, cmp: Cmp, s: seq<int>, k: nat, out: seq<int>, p: seq<int>, l: seq<int>,
                   rest: seq<int>)
    requires k > 0 && s != [] && InPool(s, |rank|) && InPool(p, |rank|) && InPool(l, |rank|) && InPool(rest, |rank|)
    requires p == s[..Min(k, |s|)] && l == s[Min(k, |s|)..Min(2 * k, |s|)] && rest == s[Min(2 * k, |s|)..]
    ensures out + Merge(rank, cmp, p, l) + Pass(rank, cmp, rest, k) == out + Pass(rank, cmp, s, k)
  {
    var m, t := Merge(rank, cmp, p, l), Pass(rank, cmp, rest, k);
    assert Pass(rank, cmp, s, k) == m + t;
    assert out + m + t == out + (m + t);
  }

  lemma PassingEnd(nx: seq<int>, pv: seq<int>, rank: seq<int>, cmp: Cmp, list: int, tail: int, k: nat,
                   out: seq<int>, rest: seq<int>, target: seq<int>)
    requires Passing(nx, pv, rank, cmp, NULL, list, tail, k, out, rest, target)
    ensures rest == [] && out == target && NoDup(target) && OutOk(nx, pv, target, list, tail)
  {
    FirstNull(rest, |rank|);
    assert out + [] == out;
  }

  method PassOne(next: array<int>, prev: array<int>, ghost rank: seq<int>, cmp: Cmp, p0: int, list0: int, tail0: int,
                 insize: nat, ghost out: seq<int>, ghost rest: seq<int>, ghost target: seq<int>)
    returns (p: int, list: int, tail: int, ghost out': seq<int>, ghost rest': seq<int>)
    requires next != prev && p0 != NULL
    requires Passing(next[..], prev[..], rank, cmp, p0, list0, tail0, insize, out, rest, target)
    modifies next, prev
    ensures Passing(next[..], prev[..], rank, cmp, p, list, tail, insize, out', rest', target)
    ensures |rest'| < |rest| && Merges(|rest|, insize) == 1 + Merges(|rest'|, insize)
  {
    var q, psize := FindQ(next, p0, insize, rest);
    ghost var ps, qs := rest[..psize], rest[psize..];
    PassStart(next[..], rank, cmp, rest, insize, out, ps, qs);
    assert Left(qs, insize) == rest[psize..Min(2 * insize, |rest|)]
        && qs[Min(insize, |qs|)..] == rest[Min(2 * insize, |rest|)..] by {
      Halves(rest, insize, out);
    }
    PassUnfold(rank, cmp, rest, insize, out, ps, Left(qs, insize), qs[Min(insize, |qs|)..]);
    list, tail, p := MergeRuns(next, prev, rank, cmp, p0, psize, q, insize, list0, tail0, out, ps, qs);
    rest' := qs[Min(insize, |qs|)..];
    out' := out + Merge(rank, cmp, ps, Left(qs, insize));
  }

  /** One pass of the outer loop: merge neighbouring runs of length `insize`, and end the list. */
  method OnePass(next: array<int>, prev: array<int>, ghost rank: seq<int>, cmp: Cmp, list0: int, insize: nat,
                 ghost s: seq<int>)
    returns (list: int, tail: int, merges: nat)
    requires next != prev && next.Length == prev.Length == |rank| && insize > 0
    requires InPool(s, |rank|) && NoDup(s) && List(next[..], s) && list0 == First(s)
    modifies next, prev
    ensures OutOk(next[..], prev[..], Pass(rank, cmp, s, insize), list, tail)
    ensures List(next[..], Pass(rank, cmp, s, insize)) && NoDup(Pass(rank, cmp, s, insize))
    ensures merges == Merges(|s|, insize)
  {
    var p := list0;
    list, tail, merges := NULL, NULL, 0;
    ghost var out, rest, target := [], s, Pass(rank, cmp, s, insize);
    assert [] + target == target;
    while p != NULL
      invariant Passing(next[..], prev[..], rank, cmp, p, list, tail, insize, out, rest, target)
      invariant merges + Merges(|rest|, insize) == Merges(|s|, insize)
      decreases |rest|
    {
      merges := merges + 1;
      p, list, tail, out, rest := PassOne(next, prev, rank, cmp, p, list, tail, insize, out, rest, target);
    }
    PassingEnd(next[..], prev[..], rank, cmp, list, tail, insize, out, rest, target);
    EndPass(next, prev, list, tail, target);
  }

  method EndPass(next: array<int>, prev: array<int>, list: int, tail: int, ghost out: seq<int>)
    requires next != prev && next.Length == prev.Length && OutOk(next[..], prev[..], out, list, tail) && NoDup(out)
    modifies next
    ensures OutOk(next[..], prev[..], out, list, tail) && List(next[..], out)
  {
    if tail != NULL {
      EndList(next[..], out);
      next[tail] := NULL;
    }
  }

  lemma EndList(nx: seq<int>, out: seq<int>)
    requires Chain(nx, out) && NoDup(out) && out != []
    ensures List(nx[Last(out) := NULL], out)
  {
  }

  lemma {:induction false} SingletonRuns(rank: seq<int>, cmp: Cmp, s: seq<int>, base: nat)
    requires InPool(s, |rank|) && forall i :: 0 <= i < |s| ==> rank[s[i]] == base + i
    ensures Runs(rank, cmp, s, 1, base)
    decreases |s|
  {
    if s != [] {
      assert forall i :: 0 <= i < |s[1..]| ==> s[1..][i] == s[i + 1];
      SingletonRuns(rank, cmp, s[1..], base + 1);
    }
  }

  lemma SinglePass(rank: seq<int>, cmp: Cmp, s: seq<int>, k: nat)
    requires TotalPreorder(cmp) && k > 0 && InPool(s, |rank|) && Runs(rank, cmp, s, k, 0)
    ensures Merges(|s|, k) <= 1 ==> Ordered(rank, cmp, Pass(rank, cmp, s, k))
    ensures Merges(|s|, k) > 1 ==> 2 * k < |s|
  {
    PassRuns(rank, cmp, s, k, 0);
    MergesOne(|s|, k);
    if Merges(|s|, k) <= 1 { OneRun(rank, cmp, Pass(rank, cmp, s, k), 2 * k, 0); }
  }

  lemma MergesOne(n: nat, k: nat)
    requires k > 0
    ensures Merges(n, k) <= 1 <==> n <= 2 * k
  {
    if n > 2 * k { assert Merges(n - 2 * k, k) >= 1; }
  }

  lemma OneRun(rank: seq<int>, cmp: Cmp, s: seq<int>, k: nat, base: int)
    requires k > 0 && |s| <= k && Runs(rank, cmp, s, k, base)
    ensures Ordered(rank, cmp, s)
  {
    if s != [] { assert s[..Min(k, |s|)] == s; }
  }

  /** What one pass does to the whole list. */
  lemma PassSorts(rank: seq<int>, cmp: Cmp, s: seq<int>, k: nat, r: seq<int>)
    requires TotalPreorder(cmp) && k > 0 && InPool(s, |rank|) && Runs(rank, cmp, s, k, 0) && r == Pass(rank, cmp, s, k)
    ensures multiset(r) == multiset(s) && |r| == |s| && InPool(r, |rank|) && Runs(rank, cmp, r, 2 * k, 0)
    ensures Merges(|s|, k) <= 1 ==> Ordered(rank, cmp, r)
    ensures Merges(|s|, k) > 1 ==> 2 * k < |s|
  {
    SinglePass(rank, cmp, s, k);
    PassMultiset(rank, cmp, s, k);
    PassRuns(rank, cmp, s, k, 0);
    forall i | 0 <= i < |r| ensures 0 <= r[i] < |rank| {
      assert r[i] in multiset(r) && r[i] in multiset(s);
      assert r[i] in s;
    }
  }

  /** Twice a 32-bit size. */
  function Doubled(k: nat): (r: nat)
    ensures 2 * k < UINT_LIMIT ==> r == 2 * k
  {
    k * 2 % UINT_LIMIT
  }

  /** Between two passes over the list that was `s0`. */
  ghost predicate Sorting(nx: seq<int>, rank: seq<int>, cmp: Cmp, list: int, k: nat, s: seq<int>, s0: seq<int>) {
    && InPool(s, |rank|) && NoDup(s) && multiset(s) == multiset(s0) && |s| == |s0| && |nx| == |rank|
    && List(nx, s) && list == First(s) && 0 < k < UINT_LIMIT && Runs(rank, cmp, s, k, 0)
  }

  ghost predicate Done(nx: seq<int>, pv: seq<int>, rank: seq<int>, cmp: Cmp, head: int, tail: int,
                       s: seq<int>, s0: seq<int>)
  {
    && multiset(s) == multiset(s0) && NoDup(s) && Ordered(rank, cmp, s)
    && List(nx, s) && BackChain(pv, s) && head == First(s) && tail == Last(s)
  }

  method SortPass(next: array<int>, prev: array<int>, ghost rank: seq<int>, cmp: Cmp, list0: int, insize: nat,
                  ghost s: seq<int>, ghost s0: seq<int>)
    returns (list: int, tail: int, merges: nat)
    requires TotalPreorder(cmp) && next != prev && next.Length == prev.Length == |rank| && |s0| <= UINT_LIMIT
    requires Sorting(next[..], rank, cmp, list0, insize, s, s0)
    modifies next, prev
    ensures merges <= 1 ==> Done(next[..], prev[..], rank, cmp, list, tail, Pass(rank, cmp, s, insize), s0)
    ensures merges > 1 ==> 2 * insize < |s0|
    ensures merges > 1 ==> Sorting(next[..], rank, cmp, list, 2 * insize, Pass(rank, cmp, s, insize), s0)
  {
    PassSorts(rank, cmp, s, insize, Pass(rank, cmp, s, insize));
    list, tail, merges := OnePass(next, prev, rank, cmp, list0, insize, s);
  }

  /** `HASH_SRT`: afterwards the list is the stable sort of what it was, linked both ways from its new
      head to its new tail.  Sizes are 32-bit. */
  method Sort(next: array<int>, prev: array<int>, ghost rank: seq<int>, cmp: Cmp, head: int, ghost s0: seq<int>)
    returns (head': int, tail: int, ghost sorted: seq<int>)
    requires TotalPreorder(cmp) && next != prev && next.Length == prev.Length == |rank| && |s0| <= UINT_LIMIT
    requires List(next[..], s0) && NoDup(s0) && head == First(s0)
    requires forall i :: 0 <= i < |s0| ==> rank[s0[i]] == i
    modifies next, prev
    ensures Done(next[..], prev[..], rank, cmp, head', tail, sorted, s0)
  {
    sorted := s0;
    head', tail := head, NULL;
    FirstNull(sorted, |rank|);
    if head == NULL { return; }
    var insize, looping, list := 1, true, head;
    SingletonRuns(rank, cmp, sorted, 0);
    while looping
      invariant looping ==> Sorting(next[..], rank, cmp, list, insize, sorted, s0)
      invariant !looping ==> Done(next[..], prev[..], rank, cmp, head', tail, sorted, s0)
      decreases looping, |s0| - insize
    {
      var last, merges;
      list, last, merges := SortPass(next, prev, rank, cmp, list, insize, sorted, s0);
      sorted := Pass(rank, cmp, sorted, insize);
      if merges <= 1 {
        looping := false;
        tail := last;
        head' := list;
      }
      insize := Doubled(insize);
    }
  }
}
