/** The subscriber lists of one spooler's spools in memory, as `spool.c` works on them: linked both ways, two
    counters a list, callback data that leads from a subscriber to its node and from the node to its spool.
    What each operation does is stated on the sequences the memory stands for. */
module SpoolNodes {
  import opened Basics
  import opened Links
  import opened MsgIds
  import opened Spooler
  import opened SpoolMemory
  import opened SpoolWalk

  lemma DeliverOne(got: map<Sub, seq<MsgId>>, to: set<Sub>, s: Sub, m: MsgId)
    requires s !in to
    ensures var one := Deliver(got, to, m);
            Deliver(got, to + {s}, m) == if s in one then one[s := one[s] + [m]] else one
  {
  }

  lemma PrefixSet(list: seq<Sub>, i: nat)
    requires NoDup(list) && i < |list|
    ensures ToSet(list[..i + 1]) == ToSet(list[..i]) + {list[i]} && list[i] !in ToSet(list[..i])
  {
    assert list[..i + 1] == list[..i] + [list[i]];
    assert forall x :: x in list[..i + 1] <==> x in list[..i] || x == list[i];
  }

  /** What the subscribers have been handed after the first `i` of a list have been answered. */
  function Answered(got: map<Sub, seq<MsgId>>, msg: Option<MsgId>, list: seq<Sub>, i: nat): map<Sub, seq<MsgId>>
    requires i <= |list|
  {
    if msg.Some? then Deliver(got, ToSet(list[..i]), msg.value) else got
  }

  lemma AnsweredNext(got: map<Sub, seq<MsgId>>, msg: Option<MsgId>, list: seq<Sub>, i: nat)
    requires NoDup(list) && i < |list|
    ensures var one := Answered(got, msg, list, i);
            Answered(got, msg, list, i + 1)
              == if msg.Some? && list[i] in one then one[list[i] := one[list[i]] + [msg.value]] else one
  {
    PrefixSet(list, i);
    if msg.Some? { DeliverOne(got, ToSet(list[..i]), list[i], msg.value); }
  }

  lemma AnsweredEnds(got: map<Sub, seq<MsgId>>, msg: Option<MsgId>, list: seq<Sub>)
    ensures Answered(got, msg, list, 0) == got
    ensures Answered(got, msg, list, |list|) == if msg.Some? then Deliver(got, ToSet(list), msg.value) else got
  {
    assert ToSet(list[..0]) == {};
    assert list[..|list|] == list;
  }

  /** A subscriber's callback data lead to the list it is in, and what taking it out leaves there. */
  lemma NamesOut(m: Mem, lists: Lists, internal: set<Sub>, s: Sub, p: int)
    requires MemOk(m, lists, internal) && p in lists && s in Names(m.sub, lists[p])
    ensures s in m.callback
    ensures var n := m.callback[s];
            && 0 <= n < |m.spool| && m.spool[n] == p && n in lists[p]
            && NamesOf(m.sub, lists[p := Cut(lists[p], Place(lists[p], n))])
                 == NamesOf(m.sub, lists)[p := Staying(Names(m.sub, lists[p]), {s})]
  {
    var list := lists[p];
    var i :| 0 <= i < |list| && Names(m.sub, list)[i] == s;
    assert PoolOk(m, p, list, internal) && list[i] in list;
    var k := Place(list, list[i]);
    NamesCut(m.sub, list, k);
    NamesNoDup(m, lists, internal, p);
    assert Names(m.sub, list)[k] == s;
    CutIsStaying(Names(m.sub, list), k);
  }

  /** What taking the first node out of a list leaves there. */
  lemma FirstOut(m: Mem, lists: Lists, internal: set<Sub>, p: int)
    requires MemOk(m, lists, internal) && p in lists && lists[p] != []
    ensures var n := lists[p][0];
            && 0 <= n < |m.sub| && n < |m.spool| && m.spool[n] == p && m.sub[n] == Names(m.sub, lists[p])[0]
            && m.sub[n] in m.callback && m.callback[m.sub[n]] == n
            && NamesOf(m.sub, lists[p := Cut(lists[p], Place(lists[p], n))])
                 == NamesOf(m.sub, lists)[p := Names(m.sub, lists[p])[1..]]
  {
    var list := lists[p];
    assert PoolOk(m, p, list, internal) && list[0] in list;
    NamesCut(m.sub, list, 0);
    assert Names(m.sub, list)[..0] + Names(m.sub, list)[1..] == Names(m.sub, list)[1..];
  }

  /** One more moved over. */
  lemma Moved(all: seq<Sub>, k: nat, there: seq<Sub>)
    requires k < |all|
    ensures all[k..][1..] == all[k + 1..] && all[k..][0] == all[k]
    ensures [all[k]] + (Reversed(all[..k]) + there) == Reversed(all[..k + 1]) + there
  {
    ReversedSnoc(all, k);
  }

  function Partway(names: map<int, seq<Sub>>, p: int, q: int, all: seq<Sub>, k: nat, there: seq<Sub>)
    : map<int, seq<Sub>>
    requires k <= |all|
  {
    names[p := all[k..]][q := Reversed(all[..k]) + there]
  }

  lemma MovedNames(names: map<int, seq<Sub>>, p: int, q: int, all: seq<Sub>, k: nat, there: seq<Sub>)
    requires p != q && k < |all|
    ensures var at := Partway(names, p, q, all, k, there);
            at[p] != [] && at[p := at[p][1..]][q := [at[p][0]] + at[q]] == Partway(names, p, q, all, k + 1, there)
  {
    Moved(all, k, there);
  }

  lemma {:induction false} ReversedSnoc(all: seq<Sub>, k: nat)
    requires k < |all|
    ensures Reversed(all[..k + 1]) == [all[k]] + Reversed(all[..k])
  {
    if k == 0 {
      assert all[..1] == [all[0]] && all[..0] == [];
    } else {
      ReversedSnoc(all[1..], k - 1);
      assert all[..k + 1][1..] == all[1..][..k];
      assert all[..k][1..] == all[1..][..k - 1];
    }
  }

  class Nodes {
    /** Subscribers of type INTERNAL. */
    const internal: set<Sub>
    var next: seq<int>
    var prev: seq<int>
    var sub: seq<Sub>
    var spool: seq<int>
    var callback: map<Sub, int>
    var pools: map<int, Pool>
    /** What each subscriber has been handed. */
    var got: map<Sub, seq<MsgId>>
    ghost var lists: Lists
    /** The subscribers of each list. */
    ghost var names: map<int, seq<Sub>>

    ghost function M(): Mem
      reads this
    {
      Mem(next, prev, sub, spool, callback, pools)
    }

    ghost predicate Valid()
      reads this
    {
      MemOk(M(), lists, internal) && Shown(names, sub, lists)
    }

    constructor (internal: set<Sub>)
      ensures Valid() && names == map[] && callback == map[] && got == map[] && this.internal == internal
    {
      this.internal := internal;
      next, prev, sub, spool, callback, pools, got := [], [], [], [], map[], map[], map[];
      lists, names := map[], map[];
    }

    // ---- One node ------------------------------------------------------------------------------------

    /** `spool_add_subscriber`, in front of the list of spool `p`; undone when the enqueue fails. */
    method AddNode(p: int, s: Sub, enqueued: bool)
      requires Sized(M()) && p in pools && -1 <= pools[p].first < |next|
      requires pools[p].first != NULL ==> prev[pools[p].first] == NULL
      modifies this`next, this`prev, this`sub, this`spool, this`callback, this`pools
      ensures enqueued ==> M() == LinkedIn(old(M()), p, s, internal)
      ensures !enqueued ==> Grown(old(M()), M()) && pools == old(pools)
    {
      var ssub, pool := |next|, pools[p];
      next, prev, sub, spool := next + [pool.first], prev + [NULL], sub + [s], spool + [p];
      if pool.first != NULL { prev := prev[pool.first := ssub]; }
      pool := Pool(ssub, pool.subCount + 1, pool.externals + Weight(internal, s));
      if !enqueued {
        pool := Pool(next[ssub], pool.subCount - 1, pool.externals - Weight(internal, s));
        if pool.first != NULL { prev := prev[pool.first := NULL]; }
        assert prev == old(prev) + [NULL];
        assert pools[p := pool] == pools;
        pools := pools[p := pool];
        return;
      }
      pools, callback := pools[p := pool], callback[s := ssub];
    }

    /** `spool_remove_subscriber`; the node's callback data names the spool. */
    method RemoveNode(n: int)
      requires Sized(M()) && 0 <= n < |sub| && spool[n] in pools
      requires -1 <= next[n] < |next| && -1 <= prev[n] < |next| && next[n] != n && prev[n] != n
      requires pools[spool[n]].subCount > 0
      modifies this`next, this`prev, this`callback, this`pools
      ensures M() == Unlinked(old(M()), n, internal)
    {
      var p, before, after := spool[n], prev[n], next[n];
      if after != NULL { prev := prev[after := before]; }
      if before != NULL { next := next[before := after]; }
      var pool := pools[p];
      if pool.first == n { pool := pool.(first := after); }
      pool := pool.(subCount := pool.subCount - 1, externals := pool.externals - Weight(internal, sub[n]));
      pools, callback := pools[p := pool], callback - {sub[n]};
    }

    /** `spool_sub_dequeue_callback`: from a subscriber to its node, and from there to its spool. */
    method Unlist(s: Sub)
      requires MemOk(M(), lists, internal) && s in callback
      modifies this`next, this`prev, this`callback, this`pools, this`lists
      ensures MemOk(M(), lists, internal) && callback == old(callback) - {s}
      ensures var n := old(callback)[s];
              && Placed(old(M()), old(lists), n)
              && var list := old(lists)[spool[n]]; lists == old(lists)[spool[n] := Cut(list, Place(list, n))]
    {
      CallbackPlaced(M(), lists, s, internal);
      var n := callback[s];
      NodeFacts(M(), lists, n, internal);
      UnlinkedOk(M(), lists, n, internal);
      RemoveNode(n);
      lists := lists[spool[n] := Cut(lists[spool[n]], Place(lists[spool[n]], n))];
    }

    // ---- Whole lists ---------------------------------------------------------------------------------

    method Make(p: int)
      requires Valid() && p !in names
      modifies this`pools, this`lists, this`names
      ensures Valid() && names == old(names)[p := []]
    {
      ghost var m, was := M(), lists;
      ShownIff(names, sub, lists);
      pools, lists, names := pools[p := Pool(NULL, 0, 0)], lists[p := []], names[p := []];
      GrownOk(m, M(), was, lists, internal);
      GrownNames(m, M(), was, lists, internal);
      ShownIff(names, sub, lists);
    }

    method Drop(p: int)
      requires Valid() && p in names && names[p] == []
      modifies this`pools, this`lists, this`names
      ensures Valid() && names == old(names) - {p}
    {
      ghost var m, was := M(), lists;
      ShownIff(names, sub, lists);
      assert |Names(sub, lists[p])| == 0;
      pools, lists, names := pools - {p}, lists - {p}, names - {p};
      GrownOk(m, M(), was, lists, internal);
      GrownNames(m, M(), was, lists, internal);
      ShownIff(names, sub, lists);
    }

    method Count(p: int) returns (n: int)
      requires Valid() && p in names
      ensures n == |names[p]|
    {
      HeadFacts(M(), lists, internal, p);
      assert ShownAt(names, sub, lists, p);
      n := pools[p].subCount;
    }

    /** A subscriber first in a list, or nothing changed. */
    method Add(p: int, s: Sub, enqueued: bool)
      requires Valid() && p in names && s !in callback
      modifies this`next, this`prev, this`sub, this`spool, this`callback, this`pools, this`lists, this`names
      ensures Valid() && names == if enqueued then old(names)[p := [s] + old(names)[p]] else old(names)
      ensures callback.Keys == old(callback).Keys + if enqueued then {s} else {}
    {
      ghost var m, was := M(), lists;
      ShownIff(names, sub, lists);
      HeadFacts(m, was, internal, p);
      AddNode(p, s, enqueued);
      if enqueued {
        LinkedOk(m, was, p, s, internal);
        LinkedNames(m, was, p, s, internal);
        lists, names := was[p := [|m.next|] + was[p]], names[p := [s] + names[p]];
      } else {
        GrownSame(m, M(), lists, internal);
      }
      ShownIff(names, sub, lists);
    }

    /** A subscriber gone from the list it was in, wherever that is. */
    method Dequeue(s: Sub, ghost p: int)
      requires Valid() && p in names && s in names[p]
      modifies this`next, this`prev, this`callback, this`pools, this`lists, this`names
      ensures Valid() && names == old(names)[p := Staying(old(names)[p], {s})]
    {
      ShownIff(names, sub, lists);
      NamesOut(M(), lists, internal, s, p);
      Unlist(s);
      names := names[p := Staying(names[p], {s})];
      ShownIff(names, sub, lists);
    }

    /** A subscriber that has been handed nothing yet. */
    method Register(s: Sub)
      requires Valid()
      modifies this`got
      ensures Valid() && got == old(got)[s := []]
    {
      got := got[s := []];
    }

    // ---- Answering a whole list ----------------------------------------------------------------------

    method Answer(s: Sub, msg: Option<MsgId>)
      modifies this`got
      ensures got == if msg.Some? && s in old(got) then old(got)[s := old(got)[s] + [msg.value]] else old(got)
    {
      if msg.Some? && s in got {
        got := got[s := got[s] + [msg.value]];
      }
    }

    /** One round of `spool_respond_general`: the link is read before the subscriber is answered, because it
        may dequeue itself. */
    method AnswerNode(nsub: int, msg: Option<MsgId>, leaving: set<Sub>, ghost lists0: Lists, ghost p: int, ghost i: nat)
      returns (nnext: int)
      requires MemOk(M(), lists, internal) && Walking(sub, lists0, p, i, leaving, sub, lists, nsub) && i < |lists0[p]|
      modifies this`next, this`prev, this`callback, this`pools, this`lists, this`got
      ensures MemOk(M(), lists, internal) && Walking(sub, lists0, p, i + 1, leaving, sub, lists, nnext)
      ensures var s := Names(sub, lists0[p])[i];
              got == if msg.Some? && s in old(got) then old(got)[s := old(got)[s] + [msg.value]] else old(got)
    {
      WalkHere(M(), lists, internal, lists0, p, i, leaving, nsub);
      var s := sub[nsub];
      nnext := next[nsub];
      WalkOn(sub, lists0, p, i, leaving, lists, nsub, nnext);
      Answer(s, msg);
      if s in leaving { Unlist(s); }
    }

    method AnswerNext(nsub: int, msg: Option<MsgId>, leaving: set<Sub>, ghost lists0: Lists, ghost p: int, ghost i: nat,
                      ghost got0: map<Sub, seq<MsgId>>)
      returns (nnext: int, ghost i': nat)
      requires MemOk(M(), lists, internal) && Walking(sub, lists0, p, i, leaving, sub, lists, nsub) && nsub != NULL
      requires NoDup(Names(sub, lists0[p])) && got == Answered(got0, msg, Names(sub, lists0[p]), i)
      modifies this`next, this`prev, this`callback, this`pools, this`lists, this`got
      ensures MemOk(M(), lists, internal) && Walking(sub, lists0, p, i', leaving, sub, lists, nnext) && i' == i + 1
      ensures got == Answered(got0, msg, Names(sub, lists0[p]), i')
    {
      WalkMore(lists0, p, i, nsub);
      AnsweredNext(got0, msg, Names(sub, lists0[p]), i);
      nnext := AnswerNode(nsub, msg, leaving, lists0, p, i);
      i' := i + 1;
    }

    /** The loop of `spool_respond_general`. */
    method AnswerAll(p: int, msg: Option<MsgId>, leaving: set<Sub>) returns (ghost i: nat)
      requires MemOk(M(), lists, internal) && p in lists && p in pools
      requires NoDup(Names(sub, lists[p])) && Walking(sub, lists, p, 0, leaving, sub, lists, pools[p].first)
      modifies this`next, this`prev, this`callback, this`pools, this`lists, this`got
      ensures MemOk(M(), lists, internal) && Walking(sub, old(lists), p, i, leaving, sub, lists, NULL)
      ensures got == Answered(old(got), msg, Names(sub, old(lists)[p]), i)
    {
      ghost var lists0, subs := lists, Names(sub, lists[p]);
      i := 0;
      AnsweredEnds(got, msg, subs);
      var nsub := pools[p].first;
      while nsub != NULL
        invariant MemOk(M(), lists, internal) && Walking(sub, lists0, p, i, leaving, sub, lists, nsub)
        invariant got == Answered(old(got), msg, subs, i)
        decreases |lists0[p]| - i
      {
        nsub, i := AnswerNext(nsub, msg, leaving, lists0, p, i, old(got));
      }
    }

    /** `spool_respond_general`: everybody in the list is answered, in order, and those in `leaving` dequeue
        themselves as they are. */
    method RespondGeneral(p: int, msg: Option<MsgId>, leaving: set<Sub>)
      requires Valid() && p in names
      modifies this`next, this`prev, this`callback, this`pools, this`lists, this`names, this`got
      ensures Valid() && names == old(names)[p := Staying(old(names)[p], leaving)]
      ensures got == if msg.Some? then Deliver(old(got), ToSet(old(names)[p]), msg.value) else old(got)
    {
      ghost var lists0, subs := lists, names[p];
      ShownIff(names, sub, lists);
      NamesNoDup(M(), lists, internal, p);
      WalkStart(M(), lists, internal, p, leaving);
      ghost var i := AnswerAll(p, msg, leaving);
      WalkEnd(M(), lists, internal, lists0, p, i, leaving);
      AnsweredEnds(old(got), msg, subs);
      names := names[p := Staying(subs, leaving)];
      ShownIff(names, sub, lists);
    }

    // ---- Moving a whole list -------------------------------------------------------------------------

    /** The first subscriber out of a list. */
    method RemoveFirst(p: int) returns (s: Sub)
      requires Valid() && p in names && names[p] != []
      modifies this`next, this`prev, this`callback, this`pools, this`lists, this`names
      ensures Valid() && s == old(names)[p][0] && s !in callback && names == old(names)[p := old(names)[p][1..]]
    {
      ShownIff(names, sub, lists);
      HeadFacts(M(), lists, internal, p);
      FirstOut(M(), lists, internal, p);
      var cur := pools[p].first;
      s := sub[cur];
      Unlist(s);
      names := names[p := names[p][1..]];
      ShownIff(names, sub, lists);
    }

    /** One round of the transfer loop. */
    method MoveFirst(p: int, q: int)
      requires Valid() && p in names && q in names && p != q && names[p] != []
      modifies this`next, this`prev, this`sub, this`spool, this`callback, this`pools, this`lists, this`names
      ensures Valid() && names == old(names)[p := old(names)[p][1..]][q := [old(names)[p][0]] + old(names)[q]]
    {
      var s := RemoveFirst(p);
      Add(q, s, true);
    }

    method IsEmpty(p: int) returns (empty: bool)
      requires Valid() && p in names
      ensures empty <==> names[p] == []
    {
      HeadFacts(M(), lists, internal, p);
      assert ShownAt(names, sub, lists, p);
      empty := pools[p].first == NULL;
    }

    /** `spool_transfer_subscribers`: the whole list in front of the other one, in reverse, and every node's
        callback data name its new spool. */
    method TransferSubscribers(p: int, q: int) returns (count: nat)
      requires Valid() && p in names && q in names && p != q
      modifies this`next, this`prev, this`sub, this`spool, this`callback, this`pools, this`lists, this`names
      ensures Valid() && names == old(names)[p := []][q := Reversed(old(names)[p]) + old(names)[q]]
      ensures count == |old(names)[p]|
    {
      ghost var all, there := names[p], names[q];
      count := 0;
      assert all[0..] == all && Reversed(all[..0]) + there == there;
      var empty := IsEmpty(p);
      while !empty
        invariant Valid() && 0 <= count <= |all| && (empty <==> all[count..] == [])
        invariant names == Partway(old(names), p, q, all, count, there)
        decreases |all| - count
      {
        MovedNames(old(names), p, q, all, count, there);
        MoveFirst(p, q);
        count := count + 1;
        empty := IsEmpty(p);
      }
      assert all[..count] == all;
    }

    /** Callback data lead to a node exactly for the subscribers in the lists, each in one list, once. */
    lemma Present(s: Sub)
      requires Valid()
      ensures s in callback <==> exists p :: p in names && s in names[p]
      ensures forall p :: p in names ==> NoDup(names[p])
      ensures forall p, q :: p in names && q in names && s in names[p] && s in names[q] ==> p == q
    {
      ShownIff(names, sub, lists);
      InSomeListIff(M(), lists, internal, s);
      if s in callback {
        var p :| p in lists && s in Names(sub, lists[p]);
        assert p in names && s in names[p];
      }
      if p :| p in names && s in names[p] { assert p in lists && s in Names(sub, lists[p]); }
      forall p | p in names ensures NoDup(names[p]) { NamesNoDup(M(), lists, internal, p); }
      forall p, q | p in names && q in names && s in names[p] && s in names[q] ensures p == q {
        var i :| 0 <= i < |names[p]| && names[p][i] == s;
        var j :| 0 <= j < |names[q]| && names[q][j] == s;
        OneList(M(), lists, internal, p, i, q, j);
      }
    }

    /** The counters are those of the list. */
    lemma Counted(p: int)
      requires Valid() && p in names
      ensures p in pools && pools[p].subCount == |names[p]| && pools[p].externals == Externals(internal, names[p])
    {
      assert PoolOk(M(), p, lists[p], internal) && ShownAt(names, sub, lists, p);
    }
  }
}
