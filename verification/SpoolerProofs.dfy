/** Every step of the spooler keeps its invariant, and what follows for whole runs. */
module SpoolerProofs {
  import opened MsgIds
  import opened Spooler

  lemma BehindIff(log: seq<MsgId>, x: MsgId)
    requires Sorted(log)
    ensures Behind(log, x) <==> log != [] && Lt(x, Head(log))
  {
    PassedSplits(log, x);
  }

  // ---- Safety, step by step -------------------------------------------------------------------------

  /** Replacing one spool (and the request list) by a proper one keeps the state safe. */
  lemma PutKeeps(st: State, m: MsgId, sp: Spool, st': State)
    requires Safe(st) && Le(OLDEST, m)
    requires st' == st.(tree := st.tree[m := sp], requests := st'.requests)
    requires forall s :: s in sp.subs ==>
               s in st.start && s !in st.newest && CaughtUpTo(st.log, st.start[s], st.got[s], m)
    requires forall s, x :: s in sp.subs && x in st.tree && x != m ==> s !in st.tree[x].subs
    requires sp.status in {Invalid, Pending, Expected} && (sp.status == Invalid ==> sp.subs == {})
    requires RequestsOk(st')
    ensures Safe(st')
  {
  }

  /** Fewer subscribers in fewer spools are still safe. */
  lemma ShrinkKeeps(st: State, st': State)
    requires Safe(st) && RequestsOk(st')
    requires st'.log == st.log && st'.start == st.start && st'.got == st.got && st'.newest <= st.newest
    requires forall x :: x in st'.tree ==> x in st.tree && st'.tree[x].subs <= st.tree[x].subs
                                           && st'.tree[x].status == st.tree[x].status
    ensures Safe(st')
  {
  }

  lemma LandSafe(st: State, m: MsgId, arriving: set<Sub>, leaving: set<Sub>)
    requires Safe(st) && Le(OLDEST, m)
    requires forall s :: s in arriving ==>
               s in st.start && s !in st.newest && CaughtUpTo(st.log, st.start[s], st.got[s], m)
    requires forall s, x :: s in arriving && x in st.tree ==> s !in st.tree[x].subs
    ensures Safe(Land(st, m, arriving, leaving))
  {
    var st' := Land(st, m, arriving, leaving);
    PutKeeps(st, m, st'.tree[m], st');
  }

  function Register(st: State, s: Sub, x: MsgId): State {
    st.(start := st.start[s := x], got := st.got[s := []])
  }

  /** A new subscriber is registered before it is put in a spool. */
  lemma RegisterSafe(st: State, s: Sub, x: MsgId)
    requires Safe(st) && s !in st.start
    ensures Safe(Register(st, s, x)) && CaughtUpTo(st.log, x, [], x)
  {
    assert Gapless(st.log, x, []);
  }

  lemma JoinNewestSafe(st: State, s: Sub, leaves: bool)
    requires Safe(st) && s !in st.start
    ensures Safe(DoJoin(st, s, Newest, true, leaves))
  {
    var st1 := Register(st, s, Head(st.log));
    assert Safe(st1) by { RegisterSafe(st, s, Head(st.log)); }
    if !leaves {
      NewestKeeps(st1, s) by {
        assert Passed(st.log, Head(st.log)) == |st.log| by { PassedSplits(st.log, Head(st.log)); }
        NotWaiting(st, s);
      }
    }
  }

  lemma NotWaiting(st: State, s: Sub)
    requires SubsOk(st) && s !in st.start
    ensures forall x :: x in st.tree ==> s !in st.tree[x].subs
  {
    forall x | x in st.tree ensures s !in st.tree[x].subs {
      if s in st.tree[x].subs { assert false; }
    }
  }

  lemma NewestKeeps(st: State, s: Sub)
    requires Safe(st) && s in st.start && st.got[s] == []
    requires Passed(st.log, st.start[s]) == |st.log| && Le(st.start[s], Head(st.log))
    requires forall x :: x in st.tree ==> s !in st.tree[x].subs
    ensures Safe(st.(newest := st.newest + {s}))
  {
  }

  lemma JoinAtSafe(st: State, s: Sub, x: MsgId, leaves: bool)
    requires Safe(st) && s !in st.start && Le(OLDEST, x)
    ensures Safe(DoJoin(st, s, At(x), true, leaves))
  {
    var st' := DoJoin(st, s, At(x), true, leaves);
    var st1, sp := Register(st, s, x), st'.tree[x];
    assert st' == st1.(tree := st1.tree[x := sp], requests := st'.requests);
    assert Safe(st1) by { RegisterSafe(st, s, x); }
    JoinedAt(st, s, x, leaves);
    JoinedSubs(st, s, x, leaves);
    JoinedApart(st, s, x, leaves);
    PutKeeps(st1, x, sp, st');
  }

  /** The spool that has been joined is as it should be. */
  lemma JoinedAt(st: State, s: Sub, x: MsgId, leaves: bool)
    requires Safe(st) && s !in st.start && Le(OLDEST, x)
    ensures var st' := DoJoin(st, s, At(x), true, leaves);
            && RequestsOk(st')
            && st'.tree[x].status in {Pending, Expected} && st'.tree[x].subs <= SpoolAt(st.tree, x).subs + {s}
  {
  }

  lemma JoinedSubs(st: State, s: Sub, x: MsgId, leaves: bool)
    requires Safe(st) && s !in st.start && Le(OLDEST, x)
    ensures var st' := DoJoin(st, s, At(x), true, leaves);
            forall t :: t in st'.tree[x].subs ==>
              t in st'.start && t !in st'.newest && CaughtUpTo(st'.log, st'.start[t], st'.got[t], x)
  {
    assert Gapless(st.log, x, []);
    var st', was := DoJoin(st, s, At(x), true, leaves), SpoolAt(st.tree, x).subs;
    assert forall t :: t in was ==> x in st.tree && t in st.tree[x].subs;
    forall t | t in st'.tree[x].subs
      ensures t in st'.start && t !in st'.newest && CaughtUpTo(st'.log, st'.start[t], st'.got[t], x)
    {
      assert t == s || t in was;
    }
  }

  lemma JoinedApart(st: State, s: Sub, x: MsgId, leaves: bool)
    requires Safe(st) && s !in st.start && Le(OLDEST, x)
    ensures var st' := DoJoin(st, s, At(x), true, leaves);
            forall t, y :: t in st'.tree[x].subs && y in st.tree && y != x ==> t !in st.tree[y].subs
  {
    var was := SpoolAt(st.tree, x).subs;
    assert forall t :: t in was ==> x in st.tree && t in st.tree[x].subs;
  }

  lemma JoinSafe(st: State, s: Sub, id: JoinId, enqueued: bool, leaves: bool)
    requires Safe(st) && s !in st.start && (id.At? ==> Le(OLDEST, id.id))
    ensures Safe(DoJoin(st, s, id, enqueued, leaves))
  {
    match id
    case Newest =>
      if enqueued { JoinNewestSafe(st, s, leaves); }
    case At(x) =>
      if enqueued {
        JoinAtSafe(st, s, x, leaves);
      } else {
        PutKeeps(st, x, SpoolAt(st.tree, x), DoJoin(st, s, id, enqueued, leaves));
      }
  }

  lemma LeaveSafe(st: State, s: Sub)
    requires Safe(st)
    ensures Safe(DoLeave(st, s))
  {
    ShrinkKeeps(st, DoLeave(st, s));
  }

  lemma ReplyExpectedSafe(st: State, k: nat, leaving: set<Sub>)
    requires Safe(st) && k < |st.requests|
    ensures Safe(DoReplyExpected(st, k, leaving))
  {
    var st' := DoReplyExpected(st, k, leaving);
    var x := st.requests[k].id;
    if x in st.tree {
      PutKeeps(st, x, st'.tree[x], st');
    } else {
      ShrinkKeeps(st, st');
    }
  }

  /** The successor of an id is the first message after it. */
  lemma NextIs(log: seq<MsgId>, x: MsgId)
    requires Sorted(log) && Behind(log, x)
    ensures var m := log[Passed(log, x)];
            Lt(x, m) && Passed(log, m) == Passed(log, x) + 1 && !Lt(Head(log), m)
  {
    var m := log[Passed(log, x)];
    PassedSplits(log, x);
    PassedIs(log, m, Passed(log, x) + 1);
  }

  lemma GrowGapless(log: seq<MsgId>, start: MsgId, got: seq<MsgId>, x: MsgId, m: MsgId)
    requires Passed(log, x) < |log| && m == log[Passed(log, x)]
    requires Passed(log, m) == Passed(log, x) + 1 && Lt(x, m) && !Lt(Head(log), m)
    requires Gapless(log, start, got) && CaughtUpTo(log, start, got, x)
    ensures Gapless(log, start, got + [m]) && CaughtUpTo(log, start, got + [m], m)
  {
    var a, n := Passed(log, start), |got|;
    assert log[a..a + n + 1] == log[a..a + n] + [log[a + n]];
  }

  /** Recording a delivery to subscribers that wait nowhere. */
  lemma DeliverSubs(st: State, to: set<Sub>, m: MsgId, st': State)
    requires SubsOk(st) && st' == st.(got := Deliver(st.got, to, m))
    requires forall s :: s in to ==> s in st.start && s !in st.newest && Gapless(st.log, st.start[s], st.got[s] + [m])
    requires forall s, x :: s in to && x in st.tree ==> s !in st.tree[x].subs
    ensures SubsOk(st')
  {
    DeliverGapless(st.log, st.start, st.got, to, m);
    DeliverOthers(st.got, to, m);
    assert forall x, s :: x in st.tree && s in st.tree[x].subs ==> s !in to;
  }

  lemma DeliverGapless(log: seq<MsgId>, start: map<Sub, MsgId>, got: map<Sub, seq<MsgId>>, to: set<Sub>, m: MsgId)
    requires start.Keys == got.Keys && forall s :: s in start ==> Gapless(log, start[s], got[s])
    requires forall s :: s in to ==> s in start && Gapless(log, start[s], got[s] + [m])
    ensures forall s :: s in start ==> Gapless(log, start[s], Deliver(got, to, m)[s])
  {
    forall s | s in start ensures Gapless(log, start[s], Deliver(got, to, m)[s]) {
      assert Gapless(log, start[s], got[s]);
    }
  }

  lemma DeliverOthers(got: map<Sub, seq<MsgId>>, to: set<Sub>, m: MsgId)
    ensures Deliver(got, to, m).Keys == got.Keys
    ensures forall s :: s in got && s !in to ==> Deliver(got, to, m)[s] == got[s]
  {
  }

  lemma DeliverSafe(st: State, to: set<Sub>, m: MsgId)
    requires Safe(st)
    requires forall s :: s in to ==> s in st.start && s !in st.newest && Gapless(st.log, st.start[s], st.got[s] + [m])
    requires forall s, x :: s in to && x in st.tree ==> s !in st.tree[x].subs
    ensures Safe(st.(got := Deliver(st.got, to, m)))
  {
    DeliverSubs(st, to, m, st.(got := Deliver(st.got, to, m)));
  }

  lemma ReplyFoundSafe(st: State, k: nat, leaving: set<Sub>)
    requires Safe(st) && k < |st.requests| && Behind(st.log, st.requests[k].id)
    ensures Safe(DoReplyFound(st, k, leaving))
  {
    var x := st.requests[k].id;
    var st1 := st.(requests := Drop(st.requests, k), tree := st.tree - {x});
    ShrinkKeeps(st, st1);
    if x in st.tree {
      var m := st.log[Passed(st.log, x)];
      var subs := st.tree[x].subs;
      NextIs(st.log, x);
      forall s | s in subs
        ensures && Gapless(st.log, st.start[s], st.got[s] + [m])
                && CaughtUpTo(st.log, st.start[s], st.got[s] + [m], m)
      {
        GrowGapless(st.log, st.start[s], st.got[s], x, m);
      }
      DeliverSafe(st1, subs, m);
      LandSafe(st1.(got := Deliver(st.got, subs, m)), m, subs - leaving, leaving);
    } else {
      assert st1.tree == st.tree;
    }
  }

  lemma AppendGapless(log: seq<MsgId>, m: MsgId, start: MsgId, got: seq<MsgId>)
    requires Sorted(log) && Lt(Head(log), m) && Gapless(log, start, got)
    ensures Gapless(log + [m], start, got)
  {
    PassedAppend(log, m, start);
    PassedSplits(log, start);
    if Lt(start, m) {
      var a := Passed(log, start);
      assert (log + [m])[a..a + |got|] == log[a..a + |got|];
    } else {
      PassedIs(log, start, |log|);
    }
  }

  /** A spool outside the range of a publish waits as before. */
  lemma AppendCaughtUp(log: seq<MsgId>, m: MsgId, start: MsgId, got: seq<MsgId>, x: MsgId)
    requires Sorted(log) && Lt(Head(log), m) && CaughtUpTo(log, start, got, x)
    requires !(Le(Head(log), x) && Lt(x, m))
    ensures CaughtUpTo(log + [m], start, got, x)
  {
    PassedAppend(log, m, start);
    PassedAppend(log, m, x);
  }

  /** A spool in the range of a publish has missed nothing but the new message. */
  lemma AppendMoved(log: seq<MsgId>, m: MsgId, start: MsgId, got: seq<MsgId>, x: MsgId)
    requires Sorted(log) && Lt(Head(log), m) && Gapless(log, start, got) && CaughtUpTo(log, start, got, x)
    requires Le(Head(log), x) && Lt(x, m)
    ensures Gapless(log + [m], start, got + [m]) && CaughtUpTo(log + [m], start, got + [m], m)
  {
    PassedAppend(log, m, start);
    PassedAppend(log, m, m);
    PassedIs(log, x, |log|);
    var a := Passed(log, start);
    assert a + |got| == |log|;
    assert (log + [m])[a..a + |got| + 1] == log[a..] + [m];
  }

  /** The log grows while no spool is in the range of the new message. */
  lemma AppendSafe(st: State, m: MsgId)
    requires Safe(st) && Lt(Head(st.log), m) && InRange(st.tree, Head(st.log), m) == {} && st.newest == {}
    ensures Safe(st.(log := st.log + [m]))
  {
    SortedAppend(st.log, m);
    forall s | s in st.start ensures Gapless(st.log + [m], st.start[s], st.got[s]) {
      AppendGapless(st.log, m, st.start[s], st.got[s]);
    }
    forall x, s | x in st.tree && s in st.tree[x].subs
      ensures CaughtUpTo(st.log + [m], st.start[s], st.got[s], x)
    {
      assert x !in InRange(st.tree, Head(st.log), m);
      AppendCaughtUp(st.log, m, st.start[s], st.got[s], x);
    }
  }

  lemma MovedOk(st: State, m: MsgId, s: Sub)
    requires Safe(st) && Lt(Head(st.log), m)
    requires s in SubsOf(st.tree, InRange(st.tree, Head(st.log), m)) + st.newest
    ensures s in st.start
    ensures Gapless(st.log + [m], st.start[s], st.got[s] + [m])
    ensures CaughtUpTo(st.log + [m], st.start[s], st.got[s] + [m], m)
  {
    if s in st.newest {
      PassedIs(st.log, Head(st.log), |st.log|);
      AppendMoved(st.log, m, st.start[s], st.got[s], Head(st.log));
    } else {
      var x :| x in InRange(st.tree, Head(st.log), m) && s in st.tree[x].subs;
      AppendMoved(st.log, m, st.start[s], st.got[s], x);
    }
  }

  lemma PublishSafe(st: State, m: MsgId, leaving: set<Sub>)
    requires Safe(st) && Lt(Head(st.log), m)
    ensures Safe(DoPublish(st, m, leaving))
  {
    var range := InRange(st.tree, Head(st.log), m);
    var moved := SubsOf(st.tree, range) + st.newest;
    var st1 := st.(tree := st.tree - range, newest := {});
    var st2 := st1.(log := st.log + [m]);
    ShrinkKeeps(st, st1);
    AppendSafe(st1, m);
    forall s | s in moved
      ensures s in st.start && Gapless(st.log + [m], st.start[s], st.got[s] + [m])
                            && CaughtUpTo(st.log + [m], st.start[s], st.got[s] + [m], m)
    {
      MovedOk(st, m, s);
    }
    MovedWaitsNowhere(st, range, st1);
    DeliverSafe(st2, moved, m);
    LandSafe(st2.(got := Deliver(st.got, moved, m)), m, moved - leaving, leaving);
  }

  lemma MovedWaitsNowhere(st: State, range: set<MsgId>, st1: State)
    requires Disjoint(st) && st1.tree == st.tree - range
    ensures forall s, x :: s in SubsOf(st.tree, range) + st.newest && x in st1.tree ==> s !in st1.tree[x].subs
  {
  }

  lemma StepSafe(st: State, e: Event)
    requires Safe(st) && Enabled(st, e)
    ensures Safe(Step(st, e))
  {
    match e
    case Join(s, id, enqueued, leaves) => JoinSafe(st, s, id, enqueued, leaves);
    case Leave(s) => LeaveSafe(st, s);
    case Publish(m, leaving) => PublishSafe(st, m, leaving);
    case ReplyFound(k, leaving) => ReplyFoundSafe(st, k, leaving);
    case ReplyExpected(k, leaving) => ReplyExpectedSafe(st, k, leaving);
  }

  // ---- Whole runs -----------------------------------------------------------------------------------

  lemma InitSafe(log: seq<MsgId>)
    requires Sorted(log)
    ensures Safe(Init(log))
  {
  }

  lemma {:induction false} RunSafe(st: State, es: seq<Event>)
    requires Safe(st) && RunOk(st, es)
    ensures Safe(Run(st, es))
    decreases |es|
  {
    if es != [] {
      StepSafe(st, es[0]);
      RunSafe(Step(st, es[0]), es[1..]);
    }
  }

  lemma {:induction false} RunAppend(st: State, es: seq<Event>, e: Event)
    requires RunOk(st, es) && Enabled(Run(st, es), e)
    ensures RunOk(st, es + [e]) && Run(st, es + [e]) == Step(Run(st, es), e)
    decreases |es|
  {
    if es == [] {
      assert [e][1..] == [];
    } else {
      RunAppend(Step(st, es[0]), es[1..], e);
      assert (es + [e])[1..] == es[1..] + [e];
    }
  }

  lemma ReachableInit(log: seq<MsgId>)
    requires Sorted(log)
    ensures Reachable(Init(log))
  {
    assert RunOk(Init(log), []) && Run(Init(log), []) == Init(log);
  }

  lemma ReachableStep(st: State, e: Event)
    requires Reachable(st) && Enabled(st, e)
    ensures Reachable(Step(st, e))
  {
    var log, es :| Sorted(log) && RunOk(Init(log), es) && Run(Init(log), es) == st;
    RunAppend(Init(log), es, e);
  }

  lemma ReachableSafe(st: State)
    requires Reachable(st)
    ensures Safe(st)
  {
    var log, es :| Sorted(log) && RunOk(Init(log), es) && Run(Init(log), es) == st;
    InitSafe(log);
    RunSafe(Init(log), es);
  }
}
