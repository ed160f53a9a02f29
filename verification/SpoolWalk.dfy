/** Subscribers that go away while a list is walked: what is left of the list, and that the walk still finds
    its way along the links. */
module SpoolWalk {
  import opened Basics
  import opened Links
  import opened MsgIds
  import opened Spooler
  import opened SpoolMemory

  function ToSet(s: seq<Sub>): set<Sub> {
    set x | x in s
  }

  /** The subscribers of a list that are not in `leaving`, in order. */
  function Staying(s: seq<Sub>, leaving: set<Sub>): seq<Sub> {
    if s == [] then []
    else
      var n := |s| - 1;
      if s[n] in leaving then Staying(s[..n], leaving) else Staying(s[..n], leaving) + [s[n]]
  }

  lemma {:induction false} StayingSet(s: seq<Sub>, leaving: set<Sub>)
    ensures ToSet(Staying(s, leaving)) == ToSet(s) - leaving
  {
    if s != [] {
      var n := |s| - 1;
      StayingSet(s[..n], leaving);
      assert s == s[..n] + [s[n]];
      assert ToSet(s) == ToSet(s[..n]) + {s[n]};
      assert s[n] !in leaving ==> ToSet(Staying(s, leaving)) == ToSet(Staying(s[..n], leaving)) + {s[n]};
    }
  }

  lemma {:induction false} StayingAll(s: seq<Sub>, leaving: set<Sub>)
    requires forall i :: 0 <= i < |s| ==> s[i] !in leaving
    ensures Staying(s, leaving) == s
  {
    if s != [] { StayingAll(s[..|s| - 1], leaving); }
  }

  /** One subscriber out of a list. */
  lemma {:induction false} CutIsStaying(s: seq<Sub>, k: nat)
    requires NoDup(s) && k < |s|
    ensures s[..k] + s[k + 1..] == Staying(s, {s[k]})
  {
    var n := |s| - 1;
    if k == n {
      StayingAll(s[..n], {s[n]});
    } else {
      CutIsStaying(s[..n], k);
      assert s[k] != s[n];
      assert s[..k] + s[k + 1..] == (s[..n][..k] + s[..n][k + 1..]) + [s[n]];
    }
  }

  /** The nodes of the subscribers that stay. */
  function KeptNodes(sub: seq<Sub>, list: seq<int>, leaving: set<Sub>): seq<int> {
    if list == [] then []
    else
      var n := |list| - 1;
      if Names(sub, list)[n] in leaving then KeptNodes(sub, list[..n], leaving)
      else KeptNodes(sub, list[..n], leaving) + [list[n]]
  }

  lemma {:induction false} KeptNames(sub: seq<Sub>, list: seq<int>, leaving: set<Sub>)
    ensures Names(sub, KeptNodes(sub, list, leaving)) == Staying(Names(sub, list), leaving)
    ensures forall n :: n in KeptNodes(sub, list, leaving) ==> n in list
  {
    if list != [] {
      var n := |list| - 1;
      KeptNames(sub, list[..n], leaving);
      assert Names(sub, list)[..n] == Names(sub, list[..n]);
    }
  }

  /** A list after its first `i` nodes have been answered. */
  function Walked(sub: seq<Sub>, list: seq<int>, i: nat, leaving: set<Sub>): seq<int>
    requires i <= |list|
  {
    KeptNodes(sub, list[..i], leaving) + list[i..]
  }

  lemma {:induction false} WalkedEnds(sub: seq<Sub>, list: seq<int>, leaving: set<Sub>)
    ensures Walked(sub, list, 0, leaving) == list && Walked(sub, list, |list|, leaving) == KeptNodes(sub, list, leaving)
  {
    assert list[..|list|] == list;
  }

  /** The next node to answer is still linked where it was, and so is the one after it. */
  lemma WalkedAt(sub: seq<Sub>, list: seq<int>, i: nat, leaving: set<Sub>)
    requires i < |list| && NoDup(list)
    ensures var w, k := Walked(sub, list, i, leaving), |KeptNodes(sub, list[..i], leaving)|;
            && k < |w| && w[k] == list[i] && list[i] in w && w[k + 1..] == list[i + 1..]
            && (NoDup(w) ==> Place(w, list[i]) == k)
            && Walked(sub, list, i + 1, leaving) == if Names(sub, list)[i] in leaving then Cut(w, k) else w
  {
    var kept := KeptNodes(sub, list[..i], leaving);
    var w, k := Walked(sub, list, i, leaving), |kept|;
    assert w[k] == list[i];
    assert list[..i + 1][..i] == list[..i] && Names(sub, list[..i + 1])[i] == Names(sub, list)[i];
    assert Cut(w, k) == kept + list[i + 1..];
    assert kept + [list[i]] + list[i + 1..] == w;
  }

  /** The walk of `spool_respond_general` at node `nsub`, with `i` nodes of the list `list0` behind it. */
  ghost predicate Walking(sub0: seq<Sub>, lists0: Lists, p: int, i: int, leaving: set<Sub>, sub: seq<Sub>, lists: Lists,
                          nsub: int)
  {
    && p in lists0 && 0 <= i <= |lists0[p]| && NoDup(lists0[p]) && sub == sub0
    && lists == lists0[p := Walked(sub0, lists0[p], i, leaving)] && nsub == First(lists0[p][i..])
  }

  /** The node being answered is in its list, its callback data lead back to it, and its link leads on. */
  lemma WalkNext(m: Mem, p: int, list: seq<int>, k: nat, rest: seq<int>, internal: set<Sub>)
    requires PoolOk(m, p, list, internal) && k < |list| && list[k + 1..] == rest
    ensures 0 <= list[k] < |m.next| && list[k] < |m.sub| && m.next[list[k]] == First(rest)
    ensures m.sub[list[k]] in m.callback && m.callback[m.sub[list[k]]] == list[k]
    ensures list[k] < |m.spool| && m.spool[list[k]] == p
  {
    assert list[k] in list;
    SuffixList(m.next, list, k);
  }

  /** Where an answer leaves the walk. */
  lemma WalkOn(sub: seq<Sub>, lists0: Lists, p: int, i: nat, leaving: set<Sub>, lists: Lists, nsub: int, nnext: int)
    requires Walking(sub, lists0, p, i, leaving, sub, lists, nsub) && i < |lists0[p]| && NoDup(lists[p])
    requires nnext == First(lists0[p][i + 1..])
    ensures nsub in lists[p]
    ensures var lists' := if Names(sub, lists0[p])[i] !in leaving then lists
                          else lists[p := Cut(lists[p], Place(lists[p], nsub))];
            Walking(sub, lists0, p, i + 1, leaving, sub, lists', nnext)
  {
    WalkedAt(sub, lists0[p], i, leaving);
  }

  /** What the walk is at. */
  lemma WalkHere(m: Mem, lists: Lists, internal: set<Sub>, lists0: Lists, p: int, i: nat, leaving: set<Sub>, nsub: int)
    requires MemOk(m, lists, internal) && Walking(m.sub, lists0, p, i, leaving, m.sub, lists, nsub) && i < |lists0[p]|
    ensures NoDup(lists[p]) && 0 <= nsub < |m.sub| && nsub < |m.next| && m.next[nsub] == First(lists0[p][i + 1..])
    ensures m.sub[nsub] == Names(m.sub, lists0[p])[i] && m.sub[nsub] in m.callback && m.callback[m.sub[nsub]] == nsub
    ensures nsub < |m.spool| && m.spool[nsub] == p
  {
    var list, k := lists[p], |KeptNodes(m.sub, lists0[p][..i], leaving)|;
    assert PoolOk(m, p, list, internal);
    assert k < |list| && list[k] == nsub && list[k + 1..] == lists0[p][i + 1..] by {
      WalkedAt(m.sub, lists0[p], i, leaving);
    }
    WalkNext(m, p, list, k, lists0[p][i + 1..], internal);
  }

  lemma WalkMore(lists0: Lists, p: int, i: nat, nsub: int)
    requires p in lists0 && i <= |lists0[p]| && nsub == First(lists0[p][i..]) && nsub != NULL
    ensures i < |lists0[p]|
  {
  }

  lemma WalkStart(m: Mem, lists: Lists, internal: set<Sub>, p: int, leaving: set<Sub>)
    requires MemOk(m, lists, internal) && p in lists
    ensures p in m.pools && Walking(m.sub, lists, p, 0, leaving, m.sub, lists, m.pools[p].first)
  {
    assert PoolOk(m, p, lists[p], internal);
    WalkedEnds(m.sub, lists[p], leaving);
    assert lists[p][0..] == lists[p];
  }

  lemma WalkEnd(m: Mem, lists: Lists, internal: set<Sub>, lists0: Lists, p: int, i: nat, leaving: set<Sub>)
    requires MemOk(m, lists, internal) && Walking(m.sub, lists0, p, i, leaving, m.sub, lists, NULL)
    ensures i == |lists0[p]|
    ensures NamesOf(m.sub, lists) == NamesOf(m.sub, lists0)[p := Staying(Names(m.sub, lists0[p]), leaving)]
  {
    if i < |lists0[p]| { WalkHere(m, lists, internal, lists0, p, i, leaving, NULL); }
    WalkedEnds(m.sub, lists0[p], leaving);
    KeptNames(m.sub, lists0[p], leaving);
  }
}
