/** The memory behind a spooler: list nodes with their links, their subscribers and the spool their
    dequeue callback data names; spools with the head of their list and two counters.  What linking and
    unlinking one node does to all of it. */
module SpoolMemory {
  import opened Basics
  import opened Links
  import opened MsgIds
  import opened Spooler

  /** The list of a `subscriber_pool_t`: its first node and its two counters. */
  datatype Pool = Pool(first: int, subCount: int, externals: int)

  /** Every `spooled_subscriber_t` ever made, by address: its links, its subscriber and the spool in its
      callback data; the node in each subscriber's callback data; and the lists of the spools. */
  datatype Mem = Mem(next: seq<int>, prev: seq<int>, sub: seq<Sub>, spool: seq<int>, callback: map<Sub, int>,
                     pools: map<int, Pool>)

  type Lists = map<int, seq<int>>

  function Names(sub: seq<Sub>, list: seq<int>): (s: seq<Sub>)
    ensures |s| == |list|
  {
    seq(|list|, i requires 0 <= i < |list| => if 0 <= list[i] < |sub| then sub[list[i]] else 0)
  }

  /** How many subscribers are not internal. */
  function Externals(internal: set<Sub>, s: seq<Sub>): nat {
    if s == [] then 0 else Weight(internal, s[0]) + Externals(internal, s[1..])
  }

  function Weight(internal: set<Sub>, s: Sub): nat {
    if s in internal then 0 else 1
  }

  /** Each node of a list names this spool, and its subscriber's callback data names the node. */
  ghost predicate Owned(m: Mem, p: int, list: seq<int>) {
    forall n :: n in list ==>
      && 0 <= n < |m.spool| && n < |m.sub| && m.spool[n] == p
      && m.sub[n] in m.callback && m.callback[m.sub[n]] == n
  }

  /** A spool and its list agree: links both ways, head and counters. */
  ghost predicate PoolOk(m: Mem, p: int, list: seq<int>, internal: set<Sub>) {
    && p in m.pools && DList(m.next, m.prev, list) && Owned(m, p, list)
    && m.pools[p].first == First(list) && m.pools[p].subCount == |list|
    && m.pools[p].externals == Externals(internal, Names(m.sub, list))
  }

  /** Every subscriber that has a node is in the list of the spool its node names. */
  ghost predicate Known(m: Mem, lists: Lists) {
    forall s {:trigger KnownAt(m, lists, s, m.callback[s])} :: s in m.callback ==> KnownAt(m, lists, s, m.callback[s])
  }

  ghost predicate KnownAt(m: Mem, lists: Lists, s: Sub, n: int) {
    0 <= n < |m.sub| && n < |m.spool| && m.sub[n] == s && m.spool[n] in lists && n in lists[m.spool[n]]
  }

  ghost predicate Sized(m: Mem) {
    |m.next| == |m.prev| == |m.sub| == |m.spool|
  }

  ghost predicate MemOk(m: Mem, lists: Lists, internal: set<Sub>) {
    && Sized(m) && lists.Keys == m.pools.Keys
    && (forall p {:trigger PoolOk(m, p, lists[p], internal)} :: p in lists ==> PoolOk(m, p, lists[p], internal))
    && Known(m, lists)
  }

  // ---- Who is where ---------------------------------------------------------------------------------

  /** A subscriber is in one list, once. */
  lemma OneList(m: Mem, lists: Lists, internal: set<Sub>, p: int, i: nat, q: int, j: nat)
    requires MemOk(m, lists, internal) && p in lists && q in lists && i < |lists[p]| && j < |lists[q]|
    requires Names(m.sub, lists[p])[i] == Names(m.sub, lists[q])[j]
    ensures p == q && i == j
  {
    var a, b := lists[p][i], lists[q][j];
    assert PoolOk(m, p, lists[p], internal) && PoolOk(m, q, lists[q], internal);
    assert a in lists[p] && b in lists[q];
    assert a == b && p == q;
  }

  /** It is in one exactly if its callback data names a node. */
  lemma InSomeListIff(m: Mem, lists: Lists, internal: set<Sub>, s: Sub)
    requires MemOk(m, lists, internal)
    ensures s in m.callback <==> exists p :: p in lists && s in Names(m.sub, lists[p])
  {
    if s in m.callback {
      var n := m.callback[s];
      assert KnownAt(m, lists, s, n);
      var p := m.spool[n];
      assert Names(m.sub, lists[p])[Place(lists[p], n)] == s;
      assert p in lists && s in Names(m.sub, lists[p]);
    }
    if p :| p in lists && s in Names(m.sub, lists[p]) {
      var i :| 0 <= i < |lists[p]| && Names(m.sub, lists[p])[i] == s;
      assert PoolOk(m, p, lists[p], internal) && lists[p][i] in lists[p];
    }
  }

  lemma NamesNoDup(m: Mem, lists: Lists, internal: set<Sub>, p: int)
    requires MemOk(m, lists, internal) && p in lists
    ensures NoDup(Names(m.sub, lists[p]))
  {
    forall i, j | 0 <= i < j < |lists[p]| ensures Names(m.sub, lists[p])[i] != Names(m.sub, lists[p])[j] {
      if Names(m.sub, lists[p])[i] == Names(m.sub, lists[p])[j] { OneList(m, lists, internal, p, i, p, j); }
    }
  }

  // ---- Counting -------------------------------------------------------------------------------------

  lemma {:induction false} ExternalsConcat(internal: set<Sub>, a: seq<Sub>, b: seq<Sub>)
    ensures Externals(internal, a + b) == Externals(internal, a) + Externals(internal, b)
  {
    if a == [] {
      assert a + b == b;
    } else {
      ExternalsConcat(internal, a[1..], b);
      assert (a + b)[1..] == a[1..] + b;
    }
  }

  lemma ExternalsCut(internal: set<Sub>, s: seq<Sub>, k: nat)
    requires k < |s|
    ensures Externals(internal, s) == Externals(internal, s[..k] + s[k + 1..]) + Weight(internal, s[k])
  {
    ExternalsConcat(internal, s[..k], s[k + 1..]);
    ExternalsConcat(internal, s[..k], [s[k]] + s[k + 1..]);
    assert s == s[..k] + ([s[k]] + s[k + 1..]);
    assert ([s[k]] + s[k + 1..])[1..] == s[k + 1..];
  }

  lemma NamesCut(sub: seq<Sub>, list: seq<int>, k: nat)
    requires k < |list|
    ensures Names(sub, Cut(list, k)) == Names(sub, list)[..k] + Names(sub, list)[k + 1..]
  {
    CutAt(list, k);
  }

  lemma NamesCons(sub: seq<Sub>, list: seq<int>, s: Sub)
    requires InPool(list, |sub|)
    ensures Names(sub + [s], [|sub|] + list) == [s] + Names(sub, list)
    ensures Names(sub + [s], list) == Names(sub, list)
  {
  }

  // ---- Linking a new node in front ------------------------------------------------------------------

  /** `spool_add_subscriber`: the memory with a new first node in spool `p`. */
  function LinkedIn(m: Mem, p: int, s: Sub, internal: set<Sub>): Mem
    requires p in m.pools
  {
    var e, pool := |m.next|, m.pools[p];
    Mem(m.next + [pool.first], Patch(m.prev + [NULL], pool.first, e), m.sub + [s], m.spool + [p], m.callback[s := e],
        m.pools[p := Pool(e, pool.subCount + 1, pool.externals + Weight(internal, s))])
  }

  lemma LinkedLinks(m: Mem, p: int, list: seq<int>, s: Sub, internal: set<Sub>)
    requires PoolOk(m, p, list, internal) && Sized(m)
    ensures var m' := LinkedIn(m, p, s, internal); DList(m'.next, m'.prev, [|m.next|] + list)
  {
    var e, m' := |m.next|, LinkedIn(m, p, s, internal);
    FirstNull(list, |m.next|);
    var nx, pv := m.next + [First(list)], m.prev + [NULL];
    DListFrame(m.next, m.prev, list, nx, pv);
    PushFront(nx, pv, list, e, m'.prev);
    assert nx[e := First(list)] == nx;
  }

  lemma LinkedOwned(m: Mem, p: int, list: seq<int>, s: Sub, internal: set<Sub>)
    requires PoolOk(m, p, list, internal) && Sized(m) && s !in m.callback
    ensures Owned(LinkedIn(m, p, s, internal), p, [|m.next|] + list)
  {
    var e, m' := |m.next|, LinkedIn(m, p, s, internal);
    forall n | n in [e] + list ensures n == e || (n in list && m'.spool[n] == p && m'.sub[n] == m.sub[n] != s) {}
  }

  lemma LinkedHere(m: Mem, p: int, list: seq<int>, s: Sub, internal: set<Sub>)
    requires PoolOk(m, p, list, internal) && Sized(m) && s !in m.callback
    ensures PoolOk(LinkedIn(m, p, s, internal), p, [|m.next|] + list, internal)
  {
    LinkedLinks(m, p, list, s, internal);
    LinkedOwned(m, p, list, s, internal);
    NamesCons(m.sub, list, s);
    assert ([s] + Names(m.sub, list))[1..] == Names(m.sub, list);
  }

  lemma LinkedElsewhere(m: Mem, p: int, here: seq<int>, s: Sub, q: int, list: seq<int>, internal: set<Sub>)
    requires PoolOk(m, p, here, internal) && PoolOk(m, q, list, internal) && p != q && Sized(m) && s !in m.callback
    ensures PoolOk(LinkedIn(m, p, s, internal), q, list, internal)
  {
    var m' := LinkedIn(m, p, s, internal);
    forall i | 0 <= i < |list| ensures m'.next[list[i]] == m.next[list[i]] && m'.prev[list[i]] == m.prev[list[i]] {
      assert list[i] in list;
      if here != [] { assert here[0] in here; }
    }
    DListFrame(m.next, m.prev, list, m'.next, m'.prev);
    NamesCons(m.sub, list, s);
    assert Owned(m', q, list) by {
      forall n | n in list ensures m'.spool[n] == q && m'.sub[n] == m.sub[n] != s {}
    }
  }

  lemma LinkedKnown(m: Mem, lists: Lists, p: int, s: Sub, internal: set<Sub>)
    requires MemOk(m, lists, internal) && p in lists && s !in m.callback
    ensures Known(LinkedIn(m, p, s, internal), lists[p := [|m.next|] + lists[p]])
  {
    var m', lists' := LinkedIn(m, p, s, internal), lists[p := [|m.next|] + lists[p]];
    forall t | t in m'.callback ensures KnownAt(m', lists', t, m'.callback[t]) {
      if t == s {
        assert ([|m.next|] + lists[p])[0] == |m.next|;
      } else {
        assert KnownAt(m, lists, t, m.callback[t]);
      }
    }
  }

  lemma LinkedOk(m: Mem, lists: Lists, p: int, s: Sub, internal: set<Sub>)
    requires MemOk(m, lists, internal) && p in lists && s !in m.callback
    ensures MemOk(LinkedIn(m, p, s, internal), lists[p := [|m.next|] + lists[p]], internal)
  {
    var m', lists' := LinkedIn(m, p, s, internal), lists[p := [|m.next|] + lists[p]];
    LinkedKnown(m, lists, p, s, internal);
    assert PoolOk(m, p, lists[p], internal);
    forall q | q in lists' ensures PoolOk(m', q, lists'[q], internal) {
      if q == p {
        LinkedHere(m, p, lists[p], s, internal);
      } else {
        assert PoolOk(m, q, lists[q], internal);
        LinkedElsewhere(m, p, lists[p], s, q, lists[q], internal);
      }
    }
  }

  // ---- Unlinking a node -----------------------------------------------------------------------------

  /** `spool_remove_subscriber`: the memory without a node, whose callback data says where it is. */
  function Unlinked(m: Mem, n: int, internal: set<Sub>): Mem
    requires Sized(m) && 0 <= n < |m.sub| && m.spool[n] in m.pools
  {
    var pool := m.pools[m.spool[n]];
    Mem(Patch(m.next, m.prev[n], m.next[n]), Patch(m.prev, m.next[n], m.prev[n]), m.sub, m.spool,
        m.callback - {m.sub[n]},
        m.pools[m.spool[n] := pool.(first := if pool.first == n then m.next[n] else pool.first,
                                    subCount := pool.subCount - 1,
                                    externals := pool.externals - Weight(internal, m.sub[n]))])
  }

  /** A node in the list of the spool it names. */
  ghost predicate Placed(m: Mem, lists: Lists, n: int) {
    Sized(m) && 0 <= n < |m.sub| && m.spool[n] in m.pools && m.spool[n] in lists && n in lists[m.spool[n]]
  }

  lemma CallbackPlaced(m: Mem, lists: Lists, s: Sub, internal: set<Sub>)
    requires MemOk(m, lists, internal) && s in m.callback
    ensures Placed(m, lists, m.callback[s]) && m.sub[m.callback[s]] == s
  {
    assert KnownAt(m, lists, s, m.callback[s]);
  }

  /** What a node in a list can rely on. */
  lemma NodeFacts(m: Mem, lists: Lists, n: int, internal: set<Sub>)
    requires MemOk(m, lists, internal) && Placed(m, lists, n)
    ensures m.pools[m.spool[n]].subCount > 0
    ensures -1 <= m.next[n] < |m.next| && -1 <= m.prev[n] < |m.next| && m.next[n] != n && m.prev[n] != n
    ensures m.sub[n] in m.callback && m.callback[m.sub[n]] == n
  {
    var list := lists[m.spool[n]];
    assert PoolOk(m, m.spool[n], list, internal);
    Unlink(m.next, m.prev, list, Place(list, n), Patch(m.next, m.prev[n], m.next[n]),
           Patch(m.prev, m.next[n], m.prev[n]));
  }

  lemma UnlinkedLinks(m: Mem, p: int, list: seq<int>, k: nat, internal: set<Sub>)
    requires PoolOk(m, p, list, internal) && Sized(m) && k < |list| && m.spool[list[k]] == p
    ensures var m' := Unlinked(m, list[k], internal);
            DList(m'.next, m'.prev, Cut(list, k)) && m'.pools[p].first == First(Cut(list, k))
  {
    var n := list[k];
    var m' := Unlinked(m, n, internal);
    Unlink(m.next, m.prev, list, k, m'.next, m'.prev);
    CutAt(list, k);
    if k > 0 { assert list[0] != list[k]; }
  }

  lemma UnlinkedOwned(m: Mem, p: int, list: seq<int>, k: nat, internal: set<Sub>)
    requires PoolOk(m, p, list, internal) && Sized(m) && k < |list| && m.spool[list[k]] == p
    ensures Owned(Unlinked(m, list[k], internal), p, Cut(list, k))
  {
    CutNoDup(list, k);
    assert list[k] in list;
    forall a | a in Cut(list, k) ensures a in list && a != list[k] && m.sub[a] != m.sub[list[k]] {}
  }

  lemma UnlinkedHere(m: Mem, p: int, list: seq<int>, k: nat, internal: set<Sub>)
    requires PoolOk(m, p, list, internal) && Sized(m) && k < |list| && m.spool[list[k]] == p
    ensures PoolOk(Unlinked(m, list[k], internal), p, Cut(list, k), internal)
  {
    UnlinkedLinks(m, p, list, k, internal);
    UnlinkedOwned(m, p, list, k, internal);
    NamesCut(m.sub, list, k);
    ExternalsCut(internal, Names(m.sub, list), k);
    assert list[k] in list && Names(m.sub, list)[k] == m.sub[list[k]];
  }

  lemma UnlinkedFar(m: Mem, p: int, here: seq<int>, k: nat, q: int, list: seq<int>, internal: set<Sub>)
    requires PoolOk(m, p, here, internal) && PoolOk(m, q, list, internal) && p != q && Sized(m)
    requires k < |here| && m.spool[here[k]] == p
    ensures var m' := Unlinked(m, here[k], internal); DList(m'.next, m'.prev, list)
  {
    var m' := Unlinked(m, here[k], internal);
    Unlink(m.next, m.prev, here, k, m'.next, m'.prev);
    if k > 0 { assert here[k - 1] in here; }
    if k + 1 < |here| { assert here[k + 1] in here; }
    forall i | 0 <= i < |list| ensures m'.next[list[i]] == m.next[list[i]] && m'.prev[list[i]] == m.prev[list[i]] {
      assert list[i] in list;
    }
    DListFrame(m.next, m.prev, list, m'.next, m'.prev);
  }

  lemma UnlinkedElsewhere(m: Mem, p: int, here: seq<int>, k: nat, q: int, list: seq<int>, internal: set<Sub>)
    requires PoolOk(m, p, here, internal) && PoolOk(m, q, list, internal) && p != q && Sized(m)
    requires k < |here| && m.spool[here[k]] == p
    ensures PoolOk(Unlinked(m, here[k], internal), q, list, internal)
  {
    var m' := Unlinked(m, here[k], internal);
    UnlinkedFar(m, p, here, k, q, list, internal);
    assert here[k] in here;
    assert Owned(m', q, list) by {
      forall a | a in list ensures m.spool[a] == q && m.sub[a] != m.sub[here[k]] {}
    }
  }

  lemma {:induction false} UnlinkedKnown(m: Mem, lists: Lists, n: int, internal: set<Sub>)
    requires MemOk(m, lists, internal) && Placed(m, lists, n)
    ensures var list := lists[m.spool[n]];
            Known(Unlinked(m, n, internal), lists[m.spool[n] := Cut(list, Place(list, n))])
  {
    var list, m' := lists[m.spool[n]], Unlinked(m, n, internal);
    var lists' := lists[m.spool[n] := Cut(list, Place(list, n))];
    assert PoolOk(m, m.spool[n], list, internal);
    CutNoDup(list, Place(list, n));
    forall t | t in m'.callback ensures KnownAt(m', lists', t, m'.callback[t]) {
      assert KnownAt(m, lists, t, m.callback[t]);
    }
  }

  /** After a removal everything agrees again. */
  lemma {:induction false} UnlinkedOk(m: Mem, lists: Lists, n: int, internal: set<Sub>)
    requires MemOk(m, lists, internal) && Placed(m, lists, n)
    ensures var list := lists[m.spool[n]];
            MemOk(Unlinked(m, n, internal), lists[m.spool[n] := Cut(list, Place(list, n))], internal)
  {
    var p := m.spool[n];
    var list := lists[p];
    var m', lists' := Unlinked(m, n, internal), lists[p := Cut(list, Place(list, n))];
    UnlinkedKnown(m, lists, n, internal);
    assert PoolOk(m, p, list, internal);
    forall q | q in lists' ensures PoolOk(m', q, lists'[q], internal) {
      if q == p {
        UnlinkedHere(m, p, list, Place(list, n), internal);
      } else {
        assert PoolOk(m, q, lists[q], internal);
        UnlinkedElsewhere(m, p, list, Place(list, n), q, lists[q], internal);
      }
    }
  }

  // ---- Spools that come and go ----------------------------------------------------------------------

  /** Memory in which only nodes nobody refers to have been added, and lists without nodes made or dropped. */
  ghost predicate Grown(m: Mem, m': Mem) {
    && Sized(m) && Sized(m') && m.next <= m'.next && m.prev <= m'.prev && m.sub <= m'.sub && m.spool <= m'.spool
    && m'.callback == m.callback
  }

  ghost predicate Outgrown(m: Mem, m': Mem, lists: Lists, lists': Lists) {
    && lists'.Keys == m'.pools.Keys
    && (forall p :: p in lists && lists[p] != [] ==> p in lists')
    && forall p :: p in lists' ==>
         if p in lists then lists'[p] == lists[p] && p in m.pools && m'.pools[p] == m.pools[p]
         else lists'[p] == [] && m'.pools[p] == Pool(NULL, 0, 0)
  }

  lemma GrownPool(m: Mem, m': Mem, p: int, list: seq<int>, internal: set<Sub>)
    requires Grown(m, m') && PoolOk(m, p, list, internal) && p in m'.pools && m'.pools[p] == m.pools[p]
    ensures PoolOk(m', p, list, internal) && Names(m'.sub, list) == Names(m.sub, list)
  {
    forall i | 0 <= i < |list| ensures m'.next[list[i]] == m.next[list[i]] && m'.prev[list[i]] == m.prev[list[i]] {
      assert list[i] in list;
    }
    DListFrame(m.next, m.prev, list, m'.next, m'.prev);
    assert Names(m'.sub, list) == Names(m.sub, list) by { assert forall n :: n in list ==> m'.sub[n] == m.sub[n]; }
  }

  lemma GrownKnown(m: Mem, m': Mem, lists: Lists, lists': Lists)
    requires Grown(m, m') && Known(m, lists) && Outgrown(m, m', lists, lists')
    ensures Known(m', lists')
  {
    forall s | s in m'.callback ensures KnownAt(m', lists', s, m'.callback[s]) {
      var n := m.callback[s];
      assert KnownAt(m, lists, s, n);
      assert m'.spool[n] == m.spool[n] && m'.sub[n] == m.sub[n] && lists[m.spool[n]] != [];
    }
  }

  lemma GrownOk(m: Mem, m': Mem, lists: Lists, lists': Lists, internal: set<Sub>)
    requires MemOk(m, lists, internal) && Grown(m, m') && Outgrown(m, m', lists, lists')
    ensures MemOk(m', lists', internal)
  {
    GrownKnown(m, m', lists, lists');
    forall p | p in lists' ensures PoolOk(m', p, lists'[p], internal) {
      if p in lists {
        assert PoolOk(m, p, lists[p], internal);
        GrownPool(m, m', p, lists[p], internal);
      }
    }
  }

  // ---- Lists as their users see them ----------------------------------------------------------------

  /** The subscribers of each list, first one first. */
  function NamesOf(sub: seq<Sub>, lists: Lists): map<int, seq<Sub>> {
    map p | p in lists :: Names(sub, lists[p])
  }

  /** The sequences a memory stands for. */
  ghost predicate Shown(names: map<int, seq<Sub>>, sub: seq<Sub>, lists: Lists) {
    && names.Keys == lists.Keys
    && forall p {:trigger ShownAt(names, sub, lists, p)} :: p in lists ==> ShownAt(names, sub, lists, p)
  }

  ghost predicate ShownAt(names: map<int, seq<Sub>>, sub: seq<Sub>, lists: Lists, p: int) {
    p in names && p in lists && names[p] == Names(sub, lists[p])
  }

  lemma ShownIff(names: map<int, seq<Sub>>, sub: seq<Sub>, lists: Lists)
    ensures Shown(names, sub, lists) <==> names == NamesOf(sub, lists)
  {
    if Shown(names, sub, lists) {
      forall p | p in lists ensures names[p] == NamesOf(sub, lists)[p] { assert ShownAt(names, sub, lists, p); }
    }
  }

  lemma GrownNames(m: Mem, m': Mem, lists: Lists, lists': Lists, internal: set<Sub>)
    requires MemOk(m, lists, internal) && Grown(m, m') && Outgrown(m, m', lists, lists')
    ensures forall p :: p in lists' ==>
              NamesOf(m'.sub, lists')[p] == if p in lists then NamesOf(m.sub, lists)[p] else []
  {
    forall p | p in lists' ensures NamesOf(m'.sub, lists')[p] == if p in lists then NamesOf(m.sub, lists)[p] else [] {
      if p in lists {
        assert PoolOk(m, p, lists[p], internal);
        GrownPool(m, m', p, lists[p], internal);
      }
    }
  }

  /** A node that was made and given up. */
  lemma GrownSame(m: Mem, m': Mem, lists: Lists, internal: set<Sub>)
    requires MemOk(m, lists, internal) && Grown(m, m') && m'.pools == m.pools
    ensures MemOk(m', lists, internal) && NamesOf(m'.sub, lists) == NamesOf(m.sub, lists)
  {
    GrownOk(m, m', lists, lists, internal);
    GrownNames(m, m', lists, lists, internal);
    assert forall p :: p in lists ==> NamesOf(m'.sub, lists)[p] == NamesOf(m.sub, lists)[p];
  }

  lemma LinkedNames(m: Mem, lists: Lists, p: int, s: Sub, internal: set<Sub>)
    requires MemOk(m, lists, internal) && p in lists
    ensures NamesOf(m.sub + [s], lists[p := [|m.next|] + lists[p]])
              == NamesOf(m.sub, lists)[p := [s] + Names(m.sub, lists[p])]
  {
    forall q | q in lists ensures Names(m.sub + [s], lists[q]) == Names(m.sub, lists[q]) {
      assert PoolOk(m, q, lists[q], internal);
      NamesCons(m.sub, lists[q], s);
    }
    assert PoolOk(m, p, lists[p], internal);
    NamesCons(m.sub, lists[p], s);
  }

  /** The head of a list. */
  lemma HeadFacts(m: Mem, lists: Lists, internal: set<Sub>, p: int)
    requires MemOk(m, lists, internal) && p in lists
    ensures p in m.pools && m.pools[p].subCount == |lists[p]| && -1 <= m.pools[p].first < |m.next| == |m.prev|
    ensures m.pools[p].first == NULL <==> lists[p] == []
    ensures m.pools[p].first != NULL ==> m.prev[m.pools[p].first] == NULL && m.pools[p].first == lists[p][0]
  {
    assert PoolOk(m, p, lists[p], internal);
    FirstNull(lists[p], |m.next|);
    if lists[p] != [] { assert m.prev[lists[p][0]] == Before(lists[p], 0); }
  }
}
