/** The spooler as its code runs on the spools in memory: they are looked up, re-keyed, merged and
    destroyed one at a time, and their lists walked and relinked.  Each entry point is proved to make one
    step of `Spooler`. */
module ChannelSpooler {
  import opened Basics
  import opened MsgIds
  import opened Spooler
  import opened SpoolerProofs
  import opened SpoolTree
  import opened SpoolCollector
  import opened SpoolWalk
  import opened SpoolDirectory
  import opened SpoolStore

  function AbsSpool(r: SpoolRec): Spool {
    Spool(ToSet(r.subs), r.status)
  }

  function AbsTree(t: map<MsgId, SpoolRec>): map<MsgId, Spool> {
    map x | x in t :: AbsSpool(t[x])
  }

  lemma AbsPut(t: map<MsgId, SpoolRec>, x: MsgId, r: SpoolRec)
    ensures AbsTree(t[x := r]) == AbsTree(t)[x := AbsSpool(r)]
  {
  }

  lemma AbsRemove(t: map<MsgId, SpoolRec>, x: MsgId)
    ensures AbsTree(t - {x}) == AbsTree(t) - {x}
  {
  }

  /** Between steps no spool holds a message. */
  ghost predicate TreeOk(t: map<MsgId, SpoolRec>) {
    forall x :: x in t ==> t[x].msg == None
  }

  lemma AbsWith(t: map<MsgId, SpoolRec>, x: MsgId, subs: seq<Sub>)
    requires x in t
    ensures AbsTree(TreeWith(t, At(x), subs)) == AbsTree(t)[x := Spool(ToSet(subs), t[x].status)]
  {
  }

  lemma ReversedSet(a: seq<Sub>, b: seq<Sub>)
    ensures ToSet(Reversed(a) + b) == ToSet(b) + ToSet(a)
  {
    ReversedMembers(a);
    assert forall x :: x in Reversed(a) + b <==> x in Reversed(a) || x in b;
  }

  /** Subscribers that have come to the spool at `m`. */
  function Arrived(t: map<MsgId, Spool>, m: MsgId, subs: set<Sub>): map<MsgId, Spool> {
    t[m := Spool(SpoolAt(t, m).subs + subs, SpoolAt(t, m).status)]
  }

  /** A spool merged into another one, or re-keyed. */
  lemma MovedTree(t: map<MsgId, SpoolRec>, x: MsgId, m: MsgId)
    requires x in t && x != m
    ensures var t' := if m in t then (t - {x})[m := t[m].(subs := Reversed(t[x].subs) + t[m].subs)]
                      else (t - {x})[m := SpoolRec(Invalid, None, t[x].subs)];
            AbsTree(t') == Arrived(AbsTree(t) - {x}, m, ToSet(t[x].subs))
  {
    AbsRemove(t, x);
    if m in t {
      ReversedSet(t[x].subs, t[m].subs);
      AbsPut(t - {x}, m, t[m].(subs := Reversed(t[x].subs) + t[m].subs));
      assert m in AbsTree(t) - {x};
    } else {
      AbsPut(t - {x}, m, SpoolRec(Invalid, None, t[x].subs));
      assert {} + ToSet(t[x].subs) == ToSet(t[x].subs);
    }
  }

  lemma ArrivedTree(t: map<MsgId, SpoolRec>, m: MsgId, subs: seq<Sub>)
    ensures var sp := SpoolOr(t, m);
            AbsTree(t[m := sp.(subs := Reversed(subs) + sp.subs)]) == Arrived(AbsTree(t), m, ToSet(subs))
  {
    var sp := SpoolOr(t, m);
    ReversedSet(subs, sp.subs);
    AbsPut(t, m, sp.(subs := Reversed(subs) + sp.subs));
    assert AbsSpool(sp) == SpoolAt(AbsTree(t), m) by { assert ToSet([]) == {}; }
  }

  lemma AddedTree(t: map<MsgId, SpoolRec>, x: MsgId, s: Sub, enqueued: bool)
    ensures var sp := SpoolOr(t, x);
            AbsTree(t[x := sp.(subs := if enqueued then [s] + sp.subs else sp.subs)])
              == AbsTree(t)[x := Added(SpoolAt(AbsTree(t), x), s, enqueued)]
  {
    var sp := SpoolOr(t, x);
    AbsPut(t, x, sp.(subs := if enqueued then [s] + sp.subs else sp.subs));
    AddedToList(sp.subs, s);
    assert AbsSpool(sp) == SpoolAt(AbsTree(t), x) by { assert ToSet([]) == {}; }
  }

  lemma {:induction false} ReversedMembers(a: seq<Sub>)
    ensures forall x :: x in Reversed(a) <==> x in a
  {
    if a != [] {
      ReversedMembers(a[1..]);
      assert forall x :: x in a <==> x == a[0] || x in a[1..];
    }
  }

  // ---- A publish, spool by spool --------------------------------------------------------------------

  lemma DeliverTwice(got: map<Sub, seq<MsgId>>, a: set<Sub>, b: set<Sub>, m: MsgId)
    requires a !! b
    ensures Deliver(Deliver(got, a, m), b, m) == Deliver(got, a + b, m)
  {
  }

  /** Two batches of arrivals amount to one. */
  lemma LandTwice(st: State, m: MsgId, a: set<Sub>, b: set<Sub>, leaving: set<Sub>)
    ensures Land(Land(st, m, a, leaving), m, b, leaving) == Land(st, m, a + b, leaving)
  {
    if SpoolAt(st.tree, m).status == Expected {
      LandTwiceExpected(st, m, a, b, leaving);
    } else {
      LandTwiceOther(st, m, a, b, leaving);
    }
  }

  lemma LandTwiceExpected(st: State, m: MsgId, a: set<Sub>, b: set<Sub>, leaving: set<Sub>)
    requires SpoolAt(st.tree, m).status == Expected
    ensures Land(Land(st, m, a, leaving), m, b, leaving) == Land(st, m, a + b, leaving)
  {
    var was := SpoolAt(st.tree, m).subs;
    assert ((was + a - leaving) + b) - leaving == was + (a + b) - leaving;
    assert st.tree[m := Spool(was + a - leaving, Expected)][m := Spool(was + (a + b) - leaving, Expected)]
        == st.tree[m := Spool(was + (a + b) - leaving, Expected)];
  }

  lemma LandTwiceOther(st: State, m: MsgId, a: set<Sub>, b: set<Sub>, leaving: set<Sub>)
    requires SpoolAt(st.tree, m).status != Expected
    ensures Land(Land(st, m, a, leaving), m, b, leaving) == Land(st, m, a + b, leaving)
  {
    var was := SpoolAt(st.tree, m);
    var one := Land(st, m, a, leaving);
    assert (was.subs + a) + b == was.subs + (a + b);
    assert one.tree[m := SpoolAt(one.tree, m)] == one.tree;
    if was.status == Invalid && was.subs + a == {} {
      assert was.subs + (a + b) == b == {} + b;
    }
  }

  /** After the spools in `done` have been dealt with. */
  function Partly(st: State, m: MsgId, done: set<MsgId>, leaving: set<Sub>): State {
    if done == {} then st
    else
      var subs := SubsOf(st.tree, done);
      Land(st.(tree := st.tree - done, got := Deliver(st.got, subs, m)), m, subs - leaving, leaving)
  }

  /** `x` has handed its subscribers the message and let go of them. */
  function Emptied(st: State, x: MsgId, subs: set<Sub>, m: MsgId): State {
    st.(tree := st.tree - {x}, got := Deliver(st.got, subs, m))
  }

  lemma PartlyStep(st: State, m: MsgId, done: set<MsgId>, x: MsgId, leaving: set<Sub>)
    requires x in st.tree && x !in done && done <= st.tree.Keys && x != m && m !in done
    requires forall y, s :: y in done && s in st.tree[y].subs ==> s !in st.tree[x].subs
    ensures var subs := st.tree[x].subs;
            Land(Emptied(Partly(st, m, done, leaving), x, subs, m), m, subs - leaving, leaving)
              == Partly(st, m, done + {x}, leaving)
  {
    var subs, before := st.tree[x].subs, SubsOf(st.tree, done);
    assert SubsOf(st.tree, done + {x}) == before + subs;
    assert before !! subs;
    DeliverTwice(st.got, before, subs, m);
    if done == {} {
      assert before == {};
      assert done + {x} == {x};
      assert {} + subs == subs;
    } else {
      var st1 := st.(tree := st.tree - done, got := Deliver(st.got, before, m));
      var st2 := st1.(tree := st.tree - (done + {x}), got := Deliver(st.got, before + subs, m));
      assert (before + subs) - leaving == (before - leaving) + (subs - leaving);
      assert (st.tree - done) - {x} == st.tree - (done + {x});
      EmptiedLand(st1, x, subs, m, before - leaving, leaving, st2);
      LandTwice(st2, m, before - leaving, subs - leaving, leaving);
    }
  }

  lemma EmptiedLand(st: State, x: MsgId, subs: set<Sub>, m: MsgId, a: set<Sub>, leaving: set<Sub>, st': State)
    requires x != m && st' == Emptied(st, x, subs, m)
    ensures Emptied(Land(st, m, a, leaving), x, subs, m) == Land(st', m, a, leaving)
  {
    var v := Land(st, m, a, leaving).tree[m];
    assert st.tree[m := v] - {x} == (st.tree - {x})[m := v];
  }

  /** And last the immortal spool: the whole publish. */
  lemma PartlyDone(st: State, m: MsgId, leaving: set<Sub>)
    requires Disjoint(st)
    ensures var range := InRange(st.tree, Head(st.log), m);
            var p := Partly(st.(log := st.log + [m]), m, range, leaving);
            DoPublish(st, m, leaving) ==
              if st.newest == {} then p
              else Land(p.(newest := {}, got := Deliver(p.got, st.newest, m)), m, st.newest - leaving, leaving)
  {
    var range := InRange(st.tree, Head(st.log), m);
    var subs := SubsOf(st.tree, range);
    var st0 := st.(log := st.log + [m]);
    assert subs !! st.newest;
    DeliverTwice(st.got, subs, st.newest, m);
    assert (subs + st.newest) - leaving == (subs - leaving) + (st.newest - leaving);
    if range == {} {
      assert st.tree - range == st.tree;
      assert subs == {};
      assert {} + st.newest == st.newest;
      assert Deliver(st.got, {}, m) == st.got;
    } else {
      var st1 := st0.(tree := st.tree - range, got := Deliver(st.got, subs + st.newest, m), newest := {});
      if st.newest == {} {
        assert subs + {} == subs;
      } else {
        LandTwice(st1, m, subs - leaving, st.newest - leaving, leaving);
      }
    }
  }

  class ChannelSpooler {
    const store: Store
    var log: seq<MsgId>
    var requests: seq<Request>
    var start: map<Sub, MsgId>

    ghost function View(): State
      reads this, store, store.nodes
    {
      State(log, AbsTree(store.tree), ToSet(store.current), requests, start, store.nodes.got)
    }

    /** The memory is in order and no spool holds a message. */
    ghost predicate Ready()
      reads store, store.nodes
    {
      store.Valid() && TreeOk(store.tree)
    }

    ghost predicate Valid()
      reads this, store, store.nodes
    {
      Ready() && Reachable(View())
    }

    constructor (messages: seq<MsgId>, internal: set<Sub>)
      requires Sorted(messages)
      ensures Valid() && fresh(store) && fresh(store.nodes) && View() == Init(messages)
    {
      store := new Store(internal);
      log, requests, start := messages, [], map[];
      new;
      assert View() == Init(messages);
      ReachableInit(messages);
    }

    /** `spool_fetch_msg` on a ready channel: one more request to the store. */
    method FetchMsg(x: MsgId)
      requires Ready() && x in store.tree && store.tree[x].status == Invalid
      modifies this`requests, store
      ensures Ready()
      ensures View() == old(View()).(tree := old(View()).tree[x := Spool(ToSet(old(store.tree)[x].subs), Pending)],
                                     requests := [Request(x, |log|)] + old(requests))
    {
      requests := [Request(x, |log|)] + requests;
      ghost var t := store.tree;
      store.Change(x, x, Pending, None);
      assert store.tree == t[x := SpoolRec(Pending, None, t[x].subs)];
      AbsPut(t, x, store.tree[x]);
    }

    /** The end of `spool_nextmsg`: subscribers have arrived at spool `m`. */
    method Settle(m: MsgId, leaving: set<Sub>)
      requires Ready() && m in store.tree && store.tree[m].status in {Invalid, Pending, Expected}
      modifies this`requests, store, store.nodes
      ensures Ready() && View() == Settled(old(View()), m, leaving)
    {
      ghost var t, subs := store.tree, store.tree[m].subs;
      AbsPut(t, m, t[m]);
      assert t == t[m := t[m]];
      StayingSet(subs, leaving);
      var count := store.Count(At(m));
      if count > 0 {
        assert subs[0] in ToSet(subs);
        var status := store.StatusOf(m);
        match status {
          case Invalid =>
            FetchMsg(m);
          case Expected =>
            store.RespondGeneral(At(m), None, leaving);
            AbsWith(t, m, store.tree[m].subs);
          case _ =>
        }
      } else {
        assert ToSet(subs) == {} && ToSet(subs) - leaving == {};
      }
    }

    /** `spool_nextmsg` for a spool of the tree, up to where its subscribers have arrived: it is merged into
        the spool at the new id, or becomes that spool itself. */
    method MoveSpool(x: MsgId, m: MsgId)
      requires store.Valid() && x in store.tree && x != m && TreeOk(store.tree - {x})
      modifies store, store.nodes
      ensures Ready() && store.current == old(store.current) && store.nodes.got == old(store.nodes.got)
      ensures AbsTree(store.tree) == Arrived(AbsTree(old(store.tree)) - {x}, m, ToSet(old(store.tree)[x].subs))
    {
      ghost var t := store.tree;
      MovedTree(t, x, m);
      assert m in t ==> t[m] == (t - {x})[m];
      var found := store.Find(m);
      if found {
        store.Merge(x, m);
      } else {
        store.Change(x, m, Invalid, None);
      }
    }

    /** `spool_nextmsg` for a spool of the tree. */
    method NextMsg(x: MsgId, m: MsgId, leaving: set<Sub>)
      requires store.Valid() && x in store.tree && x != m && TreeOk(store.tree - {x})
      requires m in store.tree ==> store.tree[m].status in {Invalid, Pending, Expected}
      modifies this`requests, store, store.nodes
      ensures Ready()
      ensures View() == Land(old(View()).(tree := old(View()).tree - {x}), m, ToSet(old(store.tree)[x].subs), leaving)
    {
      ghost var v, subs := View(), ToSet(store.tree[x].subs);
      MoveSpool(x, m);
      assert View() == v.(tree := Arrived(v.tree - {x}, m, subs));
      LandSettled(v.(tree := v.tree - {x}), m, subs, leaving);
      assert View().tree[m] == AbsSpool(store.tree[m]);
      Settle(m, leaving);
    }

    method MoveNewest(m: MsgId)
      requires Ready()
      modifies store, store.nodes
      ensures Ready() && store.current == [] && store.nodes.got == old(store.nodes.got)
      ensures AbsTree(store.tree) == Arrived(AbsTree(old(store.tree)), m, ToSet(old(store.current)))
    {
      ghost var t, subs := store.tree, store.current;
      ArrivedTree(t, m, subs);
      store.DrainNewest(m);
    }

    /** `spool_nextmsg` for the immortal spool. */
    method NextMsgNewest(m: MsgId, leaving: set<Sub>)
      requires Ready() && (m in store.tree ==> store.tree[m].status in {Invalid, Pending, Expected})
      modifies this`requests, store, store.nodes
      ensures Ready()
      ensures View() == Land(old(View()).(newest := {}), m, ToSet(old(store.current)), leaving)
    {
      ghost var v, subs := View(), ToSet(store.current);
      MoveNewest(m);
      assert View() == v.(newest := {}, tree := Arrived(v.tree, m, subs));
      LandSettled(v.(newest := {}), m, subs, leaving);
      assert View().tree[m] == AbsSpool(store.tree[m]);
      Settle(m, leaving);
    }

    /** `get_spool` and `spool_add_subscriber` for a newcomer. */
    method AddToSpool(s: Sub, x: MsgId, enqueued: bool)
      requires Ready() && s !in store.current && Outside(store.tree, s)
      modifies store, store.nodes
      ensures Ready() && x in store.tree && (enqueued ==> s in store.tree[x].subs)
      ensures store.current == old(store.current) && store.nodes.got == old(store.nodes.got)
      ensures var v := AbsTree(old(store.tree)); AbsTree(store.tree) == v[x := Added(SpoolAt(v, x), s, enqueued)]
    {
      AddedTree(store.tree, x, s, enqueued);
      store.Join(x, s, enqueued);
    }

    /** The end of `spooler_add_subscriber`: what the spool's status asks for. */
    method ReactToStatus(s: Sub, x: MsgId, leaves: bool)
      requires Ready() && x in store.tree && s in store.tree[x].subs
      modifies this`requests, store, store.nodes
      ensures Ready()
      ensures View() == Reacted(old(View()), s, x, leaves)
    {
      ghost var t := store.tree;
      AbsPut(t, x, t[x]);
      assert t == t[x := t[x]];
      var status := store.StatusOf(x);
      if status == Invalid {
        FetchMsg(x);
      } else if status == Expected && leaves {
        StayingSet(t[x].subs, {s});
        store.Dequeue(s, At(x));
        AbsWith(t, x, store.tree[x].subs);
      }
    }

    /** A newcomer for the immortal spool. */
    method AddToNewest(s: Sub)
      requires Ready() && s !in store.current && Outside(store.tree, s)
      modifies this`start, store, store.nodes
      ensures Ready() && View() == DoJoin(old(View()), s, Newest, true, false) && s in store.current
    {
      AddedToList(store.current, s);
      store.Add(Newest, s, true);
      start := start[s := Head(log)];
      store.nodes.Register(s);
    }

    method JoinNewest(s: Sub, leaves: bool)
      requires Ready() && s !in store.current && Outside(store.tree, s)
      modifies this`start, store, store.nodes
      ensures Ready() && View() == DoJoin(old(View()), s, Newest, true, leaves)
    {
      ghost var v := View();
      AddToNewest(s);
      if leaves {
        StayingSet(store.current, {s});
        store.Dequeue(s, Newest);
        assert v.newest + {s} - {s} == v.newest;
      }
    }

    /** A newcomer for a spool of the tree. */
    method AddAt(s: Sub, x: MsgId, enqueued: bool, leaves: bool)
      requires Ready() && s !in store.current && Outside(store.tree, s)
      requires x in View().tree ==> s !in View().tree[x].subs
      modifies this`start, this`requests, store, store.nodes
      ensures Ready() && View() == DoJoin(old(View()), s, At(x), enqueued, leaves)
    {
      JoinReacts(View(), s, x, enqueued, leaves);
      AddToSpool(s, x, enqueued);
      if enqueued {
        start := start[s := x];
        store.nodes.Register(s);
        ReactToStatus(s, x, leaves);
      }
    }

    /** `spooler_add_subscriber`; `enqueued` is whether the subscriber's own enqueue succeeds, `leaves`
        whether it goes away on being told "no content". */
    method AddSubscriber(s: Sub, id: JoinId, enqueued: bool, leaves: bool) returns (ok: bool)
      requires Valid() && s !in start && (id.At? ==> Le(OLDEST, id.id))
      modifies this, store, store.nodes
      ensures Valid() && ok == enqueued
      ensures View() == DoJoin(old(View()), s, id, enqueued, leaves)
    {
      ReachableStep(View(), Join(s, id, enqueued, leaves));
      Nowhere(s);
      match id
      case Newest =>
        if enqueued {
          JoinNewest(s, leaves);
        } else {
          store.Add(Newest, s, false);
        }
        return enqueued;
      case At(x) =>
        AddAt(s, x, enqueued, leaves);
        return enqueued;
    }

    lemma Nowhere(s: Sub)
      requires Valid() && s !in start
      ensures s !in store.current && Outside(store.tree, s)
      ensures forall x :: x in View().tree ==> s !in View().tree[x].subs
    {
      NewcomerNowhere(View(), s);
      assert s !in ToSet(store.current);
      forall x | x in store.tree ensures s !in store.tree[x].subs {
        assert s !in View().tree[x].subs;
      }
    }

    /** `spool_sub_dequeue_callback`; the subscriber is in the spool `id`, which its callback data lead to. */
    method Dequeue(s: Sub, ghost id: JoinId)
      requires Valid() && (id.At? ==> id.id in store.tree) && s in SubsAt(store.tree, store.current, id)
      modifies this, store, store.nodes
      ensures Valid() && View() == DoLeave(old(View()), s)
    {
      ghost var t, subs := store.tree, SubsAt(store.tree, store.current, id);
      ReachableStep(View(), Leave(s));
      LeaveOne(View(), s, id);
      StayingSet(subs, {s});
      store.Dequeue(s, id);
      if id.At? { AbsWith(t, id.id, Staying(subs, {s})); }
    }

    /** A message reaches the spool at `x`: answer its subscribers, then move those that stay. */
    method HandOver(x: MsgId, m: MsgId, leaving: set<Sub>)
      requires store.Valid() && x in store.tree && x != m && TreeOk(store.tree - {x})
      requires m in store.tree ==> store.tree[m].status in {Invalid, Pending, Expected}
      modifies this`requests, store, store.nodes
      ensures Ready()
      ensures var subs := ToSet(old(store.tree)[x].subs);
              View() == Land(Emptied(old(View()), x, subs, m), m, subs - leaving, leaving)
    {
      ghost var t := store.tree;
      StayingSet(t[x].subs, leaving);
      store.RespondGeneral(At(x), Some(m), leaving);
      assert store.tree - {x} == t - {x};
      AbsRemove(store.tree, x);
      AbsRemove(t, x);
      NextMsg(x, m, leaving);
    }

    /** The FOUND case of `spool_fetch_msg_callback`. */
    method ReplyWith(x: MsgId, m: MsgId, leaving: set<Sub>)
      requires Ready() && x in store.tree && x != m
      requires m in store.tree ==> store.tree[m].status in {Invalid, Pending, Expected}
      modifies this`requests, store, store.nodes
      ensures Ready()
      ensures var subs := ToSet(old(store.tree)[x].subs);
              View() == Land(Emptied(old(View()), x, subs, m), m, subs - leaving, leaving)
    {
      ghost var t := store.tree;
      store.Change(x, x, Found, Some(m));
      assert store.tree - {x} == t - {x};
      AbsRemove(store.tree, x);
      AbsRemove(t, x);
      HandOver(x, m, leaving);
    }

    /** The EXPECTED case of `spool_fetch_msg_callback`. */
    method ReplyExpect(x: MsgId, leaving: set<Sub>)
      requires Ready() && x in store.tree
      modifies store, store.nodes
      ensures Ready()
      ensures var v := old(View()); View() == v.(tree := v.tree[x := Spool(v.tree[x].subs - leaving, Expected)])
    {
      ghost var t := store.tree;
      ghost var subs := Staying(t[x].subs, leaving);
      StayingSet(t[x].subs, leaving);
      store.Change(x, x, Expected, None);
      store.RespondGeneral(At(x), None, leaving);
      assert store.tree == t[x := SpoolRec(Expected, None, subs)];
      AbsPut(t, x, SpoolRec(Expected, None, subs));
    }

    /** `spool_fetch_msg_callback` with MSG_FOUND or MSG_EXPECTED. */
    method FetchMsgCallback(k: nat, found: bool, leaving: set<Sub>)
      requires Valid() && k < |requests|
      requires if found then Behind(log, requests[k].id) else !Must(log, requests[k])
      modifies this, store, store.nodes
      ensures Valid()
      ensures View() == if found then DoReplyFound(old(View()), k, leaving)
                        else DoReplyExpected(old(View()), k, leaving)
    {
      ghost var v := View();
      ReachableStep(v, if found then ReplyFound(k, leaving) else ReplyExpected(k, leaving));
      var x := requests[k].id;
      if x in store.tree && found { FoundFacts(store.tree, v, x); }
      requests := requests[..k] + requests[k + 1..];
      var there := store.Find(x);
      if there {
        if found {
          ReplyWith(x, log[Passed(log, x)], leaving);
        } else {
          ReplyExpect(x, leaving);
        }
      }
    }

    method HandOverNext(x: MsgId, m: MsgId, leaving: set<Sub>, ghost v0: State, ghost done: set<MsgId>)
      requires Ready() && View() == Partly(v0, m, done, leaving)
      requires Disjoint(v0) && (m in v0.tree ==> v0.tree[m].status in {Invalid, Pending, Expected})
      requires x in v0.tree && x !in done && x != m && done <= v0.tree.Keys && m !in done
      modifies this`requests, store, store.nodes
      ensures Ready() && View() == Partly(v0, m, done + {x}, leaving)
    {
      PartlyAt(v0, m, done, x, leaving);
      PartlyStep(v0, m, done, x, leaving);
      assert AbsSpool(store.tree[x]) == View().tree[x];
      assert m in store.tree ==> AbsSpool(store.tree[m]) == View().tree[m];
      HandOver(x, m, leaving);
    }

    /** One round of the unwinding loop. */
    method HandOverOne(collected: Collector, x: MsgId, m: MsgId, leaving: set<Sub>, ghost v0: State,
                       ghost done: set<MsgId>, ghost all: set<MsgId>)
      returns (next: Next)
      requires collected.Valid() && Ready() && View() == Partly(v0, m, done, leaving)
      requires Disjoint(v0) && (m in v0.tree ==> v0.tree[m].status in {Invalid, Pending, Expected})
      requires ToDo(collected.Contents() + [x], done, all, v0, m)
      modifies this`requests, store, store.nodes, collected, collected.spools
      ensures collected.Valid() && Ready() && View() == Partly(v0, m, done + {x}, leaving)
      ensures ToDo(old(collected.Contents()), done + {x}, all, v0, m)
      ensures match next
              case Done => old(collected.Contents()) == collected.Contents() == []
              case More(y) => old(collected.Contents()) == collected.Contents() + [y]
    {
      ToDoStep(collected.Contents(), x, done, all, v0, m);
      HandOverNext(x, m, leaving, v0, done);
      next := collected.UnwindNext();
    }

    /** The unwinding loop of `spooler_respond_message`. */
    method RespondCollected(collected: Collector, m: MsgId, leaving: set<Sub>, ghost v0: State)
      requires collected.Valid() && Ready() && View() == v0
      requires Disjoint(v0) && (m in v0.tree ==> v0.tree[m].status in {Invalid, Pending, Expected})
      requires forall x :: x in collected.Contents() ==> x in v0.tree && x != m
      requires NoDup(collected.Contents())
      modifies this`requests, store, store.nodes, collected, collected.spools
      ensures Ready() && View() == Partly(v0, m, IdSet(old(collected.Contents())), leaving)
    {
      ghost var left, done := collected.Contents(), {};
      ghost var all := IdSet(left);
      var next := collected.UnwindNext();
      while next.More?
        invariant collected.Valid() && Ready()
        invariant if next.Done? then left == [] else left == collected.Contents() + [next.id]
        invariant next.Done? ==> collected.Contents() == []
        invariant ToDo(left, done, all, v0, m)
        invariant View() == Partly(v0, m, done, leaving)
        decreases |left|
      {
        ghost var x := next.id;
        left := collected.Contents();
        next := HandOverOne(collected, next.id, m, leaving, v0, done, all);
        done := done + {x};
      }
      assert done == all by { assert IdSet([]) == {}; }
    }

    /** The message for the subscribers of the immortal spool. */
    method RespondNewest(m: MsgId, leaving: set<Sub>)
      requires Ready() && (m in store.tree ==> View().tree[m].status in {Invalid, Pending, Expected})
      modifies this`requests, store, store.nodes
      ensures Ready()
      ensures var p := old(View());
              View() == if p.newest == {} then p
                        else Land(p.(newest := {}, got := Deliver(p.got, p.newest, m)), m, p.newest - leaving, leaving)
    {
      var count := store.Count(Newest);
      if count > 0 {
        assert store.current[0] in ToSet(store.current);
        assert m in store.tree ==> AbsSpool(store.tree[m]) == View().tree[m];
        StayingSet(store.current, leaving);
        store.RespondGeneral(Newest, Some(m), leaving);
        NextMsgNewest(m, leaving);
      } else {
        assert ToSet(store.current) == {};
      }
    }

    /** The two parts of a publish, after the spools have been collected. */
    method RespondAll(collected: Collector, m: MsgId, leaving: set<Sub>, ghost v: State, ghost shape: Tree<MsgId>)
      requires Ready() && Reachable(v) && Lt(Head(v.log), m) && View() == v.(log := v.log + [m])
      requires Ordered(shape, FiledLt) && forall x :: x in Ids(shape) <==> x in v.tree
      requires collected.Valid() && collected.Contents() == Collected(shape, Head(v.log), m)
      modifies this`requests, store, store.nodes, collected, collected.spools
      ensures Ready() && View() == Published(v, m, Taken(shape, v.log, m), leaving)
    {
      RespondCollected(collected, m, leaving, View()) by { PublishFacts(v, m, shape); }
      RespondNewest(m, leaving) by { PublishMiddle(v, m, shape, leaving, View()); }
    }

    /** `spooler_respond_message`: `shape` is the search tree holding the spools, ordered as the tree orders
        them, however balanced.  The spools the walk takes, and the immortal one, get the message; with times
        that fit 32 bits that is the publish step. */
    method RespondMessage(m: MsgId, shape: Tree<MsgId>, leaving: set<Sub>)
      requires Valid() && Lt(Head(log), m)
      requires Ordered(shape, FiledLt) && forall x :: x in Ids(shape) <==> x in store.tree
      modifies this, store, store.nodes
      ensures Ready() && View() == Published(old(View()), m, Taken(shape, old(log), m), leaving)
      ensures (forall x :: x in old(store.tree) ==> Fits32(OneTag(x))) ==>
                Valid() && View() == DoPublish(old(View()), m, leaving)
    {
      ghost var v := View();
      var collected := new Collector();
      collected.CollectRange(shape, Head(log), m);
      log := log + [m];
      RespondAll(collected, m, leaving, v, shape);
      if forall x :: x in v.tree ==> Fits32(OneTag(x)) {
        PublishEnd(v, m, shape, leaving);
        ReachableStep(v, Publish(m, leaving));
      }
    }
  }

  /** The spools the walk of the tree takes for a message. */
  function Taken(shape: Tree<MsgId>, log: seq<MsgId>, m: MsgId): set<MsgId> {
    IdSet(Collected(shape, Head(log), m))
  }

  /** The message for the spools in `range`, then for the immortal one. */
  function Published(v: State, m: MsgId, range: set<MsgId>, leaving: set<Sub>): State {
    var p := Partly(v.(log := v.log + [m]), m, range, leaving);
    if p.newest == {} then p
    else Land(p.(newest := {}, got := Deliver(p.got, p.newest, m)), m, p.newest - leaving, leaving)
  }

  function IdSet(c: seq<MsgId>): set<MsgId> {
    set x | x in c
  }

  lemma PopId(c: seq<MsgId>, x: MsgId)
    requires NoDup(c + [x])
    ensures NoDup(c) && x !in IdSet(c) && IdSet(c + [x]) == IdSet(c) + {x}
  {
    forall i, j | 0 <= i < j < |c| ensures c[i] != c[j] {
      assert (c + [x])[i] == c[i] && (c + [x])[j] == c[j];
    }
    forall i | 0 <= i < |c| ensures c[i] != x {
      assert (c + [x])[i] == c[i] && (c + [x])[|c|] == x;
    }
  }

  /** Spools `left` are still to be dealt with, spools `done` have been. */
  ghost predicate ToDo(left: seq<MsgId>, done: set<MsgId>, all: set<MsgId>, v0: State, m: MsgId) {
    && NoDup(left) && IdSet(left) !! done && IdSet(left) + done == all
    && all <= v0.tree.Keys && m !in all
  }

  lemma ToDoStep(c: seq<MsgId>, x: MsgId, done: set<MsgId>, all: set<MsgId>, v0: State, m: MsgId)
    requires ToDo(c + [x], done, all, v0, m)
    ensures ToDo(c, done + {x}, all, v0, m)
    ensures x in v0.tree && x !in done && x != m && done <= v0.tree.Keys && m !in done
  {
    PopId(c, x);
    assert x in IdSet(c + [x]);
  }

  /** The spools not dealt with yet are as they were, and disjoint from the one at `m`. */
  lemma PartlyAt(st: State, m: MsgId, done: set<MsgId>, x: MsgId, leaving: set<Sub>)
    requires Disjoint(st) && x in st.tree && x !in done && x != m && done <= st.tree.Keys && m !in done
    requires m in st.tree ==> st.tree[m].status in {Invalid, Pending, Expected}
    ensures var p := Partly(st, m, done, leaving);
            && x in p.tree && p.tree[x] == st.tree[x]
            && (m in p.tree ==> p.tree[m].status in {Invalid, Pending, Expected} && p.tree[m].subs !! st.tree[x].subs)
  {
    assert SubsOf(st.tree, done) !! st.tree[x].subs;
  }

  lemma PartlyAtNewest(st: State, m: MsgId, done: set<MsgId>, leaving: set<Sub>)
    requires Disjoint(st) && (m in st.tree ==> st.tree[m].status in {Invalid, Pending, Expected})
    ensures var p := Partly(st, m, done, leaving);
            && p.newest == st.newest
            && (m in p.tree ==> p.tree[m].status in {Invalid, Pending, Expected} && p.tree[m].subs !! st.newest)
  {
    assert SubsOf(st.tree, done) !! st.newest;
  }

  lemma PublishFacts(v: State, m: MsgId, shape: Tree<MsgId>)
    requires Reachable(v) && Lt(Head(v.log), m)
    requires Ordered(shape, FiledLt) && forall x :: x in Ids(shape) <==> x in v.tree
    ensures Disjoint(v) && (m in v.tree ==> v.tree[m].status in {Invalid, Pending, Expected})
    ensures var c := Collected(shape, Head(v.log), m); NoDup(c) && forall x :: x in c ==> x in v.tree && x != m
  {
    ReachableSafe(v);
    FiledDistinct(shape);
    CollectedWithin(shape, Head(v.log), m);
  }

  lemma PublishMiddle(v: State, m: MsgId, shape: Tree<MsgId>, leaving: set<Sub>, p: State)
    requires Reachable(v) && Lt(Head(v.log), m)
    requires Ordered(shape, FiledLt) && forall x :: x in Ids(shape) <==> x in v.tree
    requires p == Partly(v.(log := v.log + [m]), m, Taken(shape, v.log, m), leaving)
    ensures p.newest == v.newest
    ensures m in p.tree ==> p.tree[m].status in {Invalid, Pending, Expected} && p.tree[m].subs !! v.newest
  {
    PublishFacts(v, m, shape);
    PartlyAtNewest(v.(log := v.log + [m]), m, Taken(shape, v.log, m), leaving);
  }

  /** With times that fit, the walk takes exactly the spools the message is next for. */
  lemma TakenInRange(v: State, m: MsgId, shape: Tree<MsgId>)
    requires Lt(Head(v.log), m) && (forall x :: x in v.tree ==> Fits32(OneTag(x)))
    requires Ordered(shape, FiledLt) && forall x :: x in Ids(shape) <==> x in v.tree
    ensures Taken(shape, v.log, m) == InRange(v.tree, Head(v.log), m)
  {
    FiledInOrder(shape);
    CollectedExactly(shape, Head(v.log), m);
  }

  lemma PublishEnd(v: State, m: MsgId, shape: Tree<MsgId>, leaving: set<Sub>)
    requires Reachable(v) && Lt(Head(v.log), m) && (forall x :: x in v.tree ==> Fits32(OneTag(x)))
    requires Ordered(shape, FiledLt) && forall x :: x in Ids(shape) <==> x in v.tree
    ensures DoPublish(v, m, leaving) == Published(v, m, Taken(shape, v.log, m), leaving)
  {
    var p := Partly(v.(log := v.log + [m]), m, Taken(shape, v.log, m), leaving);
    assert p.newest == v.newest by { PublishMiddle(v, m, shape, leaving, p); }
    assert Disjoint(v) by { PublishFacts(v, m, shape); }
    TakenInRange(v, m, shape);
    PartlyDone(v, m, leaving);
  }

  /** What holds of the spools `x` and `m` when the successor `m` of `x` arrives. */
  lemma FoundFacts(tree: map<MsgId, SpoolRec>, st: State, x: MsgId)
    requires Reachable(st) && st.tree == AbsTree(tree) && x in tree && Behind(st.log, x)
    ensures var m := st.log[Passed(st.log, x)];
            x != m && (m in tree ==> tree[m].status in {Invalid, Pending, Expected})
  {
    ReachableSafe(st);
    NextIs(st.log, x);
    var m := st.log[Passed(st.log, x)];
    assert m in tree ==> st.tree[m].status == tree[m].status;
  }

  /** A subscriber is in one spool only, so it is gone once it has left that one. */
  lemma LeaveOne(st: State, s: Sub, id: JoinId)
    requires Reachable(st)
    requires match id case Newest => s in st.newest case At(x) => x in st.tree && s in st.tree[x].subs
    ensures DoLeave(st, s) == match id
                              case Newest => st.(newest := st.newest - {s})
                              case At(x) => st.(tree := st.tree[x := Spool(st.tree[x].subs - {s}, st.tree[x].status)])
  {
    ReachableSafe(st);
    forall y | y in st.tree && id != At(y) ensures st.tree[y].subs - {s} == st.tree[y].subs {
      assert s !in st.tree[y].subs;
    }
    assert id.At? ==> st.newest - {s} == st.newest;
  }

  function Added(sp: Spool, s: Sub, enqueued: bool): Spool {
    if enqueued then Spool(sp.subs + {s}, sp.status) else sp
  }

  function Reacted(st: State, s: Sub, x: MsgId, leaves: bool): State
    requires x in st.tree
  {
    var sp := st.tree[x];
    if sp.status == Invalid then
      st.(tree := st.tree[x := Spool(sp.subs, Pending)], requests := [Request(x, |st.log|)] + st.requests)
    else
      st.(tree := st.tree[x := Spool(if sp.status == Expected && leaves then sp.subs - {s} else sp.subs, sp.status)])
  }

  lemma JoinReacts(st: State, s: Sub, x: MsgId, enqueued: bool, leaves: bool)
    requires x in st.tree ==> s !in st.tree[x].subs
    ensures var sp := Added(SpoolAt(st.tree, x), s, enqueued);
            DoJoin(st, s, At(x), enqueued, leaves) ==
              if enqueued then Reacted(Register(st.(tree := st.tree[x := sp]), s, x), s, x, leaves)
              else st.(tree := st.tree[x := sp])
  {
    var sp := SpoolAt(st.tree, x);
    assert sp.subs + {s} - {s} == sp.subs;
  }

  lemma NewcomerNowhere(st: State, s: Sub)
    requires Reachable(st) && s !in st.start
    ensures s !in st.newest && forall x :: x in st.tree ==> s !in st.tree[x].subs
  {
    ReachableSafe(st);
  }

  lemma AddedToList(l: seq<Sub>, s: Sub)
    ensures ToSet([s] + l) == ToSet(l) + {s} && s in [s] + l
  {
  }

  function Settled(st: State, m: MsgId, leaving: set<Sub>): State
    requires m in st.tree
  {
    var sp := st.tree[m];
    if sp.status == Invalid && sp.subs != {} then
      st.(tree := st.tree[m := sp.(status := Pending)], requests := [Request(m, |st.log|)] + st.requests)
    else if sp.status == Expected then st.(tree := st.tree[m := sp.(subs := sp.subs - leaving)])
    else st.(tree := st.tree[m := sp])
  }

  lemma LandSettled(st: State, m: MsgId, arriving: set<Sub>, leaving: set<Sub>)
    ensures Land(st, m, arriving, leaving) == Settled(st.(tree := Arrived(st.tree, m, arriving)), m, leaving)
  {
    var was := SpoolAt(st.tree, m);
    var subs := was.subs + arriving;
    PutTwice(st.tree, m, Spool(subs, was.status), Land(st, m, arriving, leaving).tree[m]);
  }

  lemma PutTwice(t: map<MsgId, Spool>, m: MsgId, a: Spool, b: Spool)
    ensures t[m := a][m := b] == t[m := b]
  {
  }
}
