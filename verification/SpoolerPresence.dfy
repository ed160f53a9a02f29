/** Who is in a spool: every run keeps exactly the subscribers that joined and did not go away, and what they
    have received once all requests are answered is everything published since they joined. */
module SpoolerPresence {
  import opened MsgIds
  import opened Spooler
  import opened SpoolerProofs
  import opened SpoolerLive

  ghost predicate InTree(t: map<MsgId, Spool>, s: Sub) {
    exists x :: x in t && s in t[x].subs
  }

  ghost predicate InSpool(st: State, s: Sub) {
    s in st.newest || InTree(st.tree, s)
  }

  predicate Joins(e: Event, s: Sub) {
    e.Join? && e.sub == s && e.enqueued
  }

  /** A spool whose subscribers are answered when a message is published: it waits for that message, or it is
      the one at the new id, up to date, and somebody arrives there. */
  ghost predicate AnsweredAt(st: State, m: MsgId, x: MsgId)
    requires x in st.tree
  {
    || (Le(Head(st.log), x) && Lt(x, m))
    || (x == m && st.tree[m].status == Expected && Arrives(st, m))
  }

  ghost predicate Arrives(st: State, m: MsgId) {
    st.newest != {} || exists y :: y in st.tree && Le(Head(st.log), y) && Lt(y, m)
  }

  /** A subscriber goes away: on its own, or because it is answered and wants to go upon an answer. */
  ghost predicate Quits(st: State, e: Event, s: Sub)
    requires Enabled(st, e)
  {
    match e
    case Join(t, id, enqueued, leaves) =>
      s == t && enqueued && leaves && (id.At? ==> id.id in st.tree && st.tree[id.id].status == Expected)
    case Leave(t) =>
      s == t
    case Publish(m, leaving) =>
      s in leaving && (s in st.newest || exists x :: x in st.tree && s in st.tree[x].subs && AnsweredAt(st, m, x))
    case ReplyFound(k, leaving) =>
      var x := st.requests[k].id;
      var m := st.log[Passed(st.log, x)];
      && s in leaving && x in st.tree
      && (s in st.tree[x].subs || (m in st.tree && st.tree[m].status == Expected && s in st.tree[m].subs))
    case ReplyExpected(k, leaving) =>
      var x := st.requests[k].id;
      s in leaving && x in st.tree && s in st.tree[x].subs
  }

  // ---- One step -------------------------------------------------------------------------------------

  lemma InTreePut(t: map<MsgId, Spool>, m: MsgId, sp: Spool, s: Sub)
    ensures InTree(t[m := sp], s) <==> s in sp.subs || InTree(t - {m}, s)
  {
    var t' := t[m := sp];
    if s in sp.subs { assert m in t' && s in t'[m].subs; }
    if x :| x in t - {m} && s in (t - {m})[x].subs { assert x in t' && s in t'[x].subs; }
    if x :| x in t' && s in t'[x].subs {
      if x != m { assert x in t - {m} && s in (t - {m})[x].subs; }
    }
  }

  lemma InTreeSplit(t: map<MsgId, Spool>, m: MsgId, s: Sub)
    ensures InTree(t, s) <==> s in SpoolAt(t, m).subs || InTree(t - {m}, s)
  {
    if m in t {
      assert t[m := t[m]] == t;
      InTreePut(t, m, t[m], s);
    } else {
      assert t - {m} == t;
    }
  }

  /** Arriving at a spool: everybody is there afterwards but those who go on being told "no content". */
  lemma LandPresence(st: State, m: MsgId, arriving: set<Sub>, leaving: set<Sub>, s: Sub)
    requires s in SpoolAt(st.tree, m).subs + arriving ==> !InTree(st.tree - {m}, s)
    ensures Land(st, m, arriving, leaving).newest == st.newest
    ensures InTree(Land(st, m, arriving, leaving).tree, s) <==>
              && (InTree(st.tree, s) || s in arriving)
              && !(s in leaving && SpoolAt(st.tree, m).status == Expected && s in SpoolAt(st.tree, m).subs + arriving)
  {
    var st' := Land(st, m, arriving, leaving);
    InTreeSplit(st.tree, m, s);
    InTreePut(st.tree, m, st'.tree[m], s);
  }

  lemma OnlyOnce(st: State, x: MsgId, s: Sub)
    requires Disjoint(st) && x in st.tree && s in st.tree[x].subs
    ensures !InTree(st.tree - {x}, s) && s !in st.newest
  {
  }

  lemma JoinPresence(st: State, e: Event, s: Sub)
    requires Safe(st) && Enabled(st, e) && e.Join?
    ensures InSpool(Step(st, e), s) <==> (InSpool(st, s) || Joins(e, s)) && !Quits(st, e, s)
  {
    assert !InSpool(st, e.sub) by { assert e.sub !in st.start; }
    if e.joinId.At? {
      var x := e.joinId.id;
      InTreeSplit(st.tree, x, s);
      InTreePut(st.tree, x, Step(st, e).tree[x], s);
    }
  }

  lemma LeavePresence(st: State, t: Sub, s: Sub)
    ensures InSpool(DoLeave(st, t), s) <==> InSpool(st, s) && s != t
  {
    var st' := DoLeave(st, t);
    if x :| x in st.tree && s in st.tree[x].subs && s != t { assert x in st'.tree && s in st'.tree[x].subs; }
    if x :| x in st'.tree && s in st'.tree[x].subs { assert x in st.tree && s in st.tree[x].subs; }
  }

  lemma ReplyExpectedPresence(st: State, e: Event, s: Sub)
    requires Safe(st) && Enabled(st, e) && e.ReplyExpected?
    ensures InSpool(Step(st, e), s) <==> InSpool(st, s) && !Quits(st, e, s)
  {
    var x := st.requests[e.k].id;
    if x in st.tree {
      InTreeSplit(st.tree, x, s);
      InTreePut(st.tree, x, Step(st, e).tree[x], s);
      if s in st.tree[x].subs { OnlyOnce(st, x, s); }
    }
  }

  lemma ReplyFoundPresence(st: State, e: Event, s: Sub)
    requires Safe(st) && Enabled(st, e) && e.ReplyFound?
    ensures InSpool(Step(st, e), s) <==> InSpool(st, s) && !Quits(st, e, s)
  {
    var x := st.requests[e.k].id;
    if x in st.tree {
      var m, subs := st.log[Passed(st.log, x)], st.tree[x].subs;
      var st1 := st.(requests := Drop(st.requests, e.k), tree := st.tree - {x}, got := Deliver(st.got, subs, m));
      NextIs(st.log, x);
      assert SpoolAt(st1.tree, m) == SpoolAt(st.tree, m);
      InTreeSplit(st.tree, x, s);
      InTreeSplit(st1.tree, m, s);
      if s in subs { OnlyOnce(st, x, s); }
      if s in SpoolAt(st.tree, m).subs {
        OnlyOnce(st, m, s);
        InTreeFewer(st.tree - {m}, x, s);
        assert st1.tree - {m} == (st.tree - {m}) - {x};
      }
      LandPresence(st1, m, subs - e.leaving, e.leaving, s);
    }
  }

  lemma InTreeFewer(t: map<MsgId, Spool>, x: MsgId, s: Sub)
    ensures InTree(t - {x}, s) ==> InTree(t, s)
  {
    InTreeSplit(t, x, s);
  }

  lemma InTreeMinus(t: map<MsgId, Spool>, ids: set<MsgId>, s: Sub)
    ensures InTree(t, s) <==> InTree(t - ids, s) || s in SubsOf(t, ids)
  {
    if x :| x in t && s in t[x].subs {
      if x !in ids { assert x in t - ids && s in (t - ids)[x].subs; }
    }
    if x :| x in t - ids && s in (t - ids)[x].subs { assert x in t && s in t[x].subs; }
    if s in SubsOf(t, ids) {
      var x :| x in ids && x in t && s in t[x].subs;
    }
  }

  /** Somebody in the spools a message is for waits nowhere else. */
  lemma MovedOnce(st: State, range: set<MsgId>, s: Sub)
    requires Disjoint(st)
    ensures s in SubsOf(st.tree, range) ==> s !in st.newest && !InTree(st.tree - range, s)
    ensures s in st.newest ==> !InTree(st.tree, s)
  {
  }

  lemma PublishQuits(st: State, m: MsgId, leaving: set<Sub>, s: Sub)
    requires Safe(st) && Enabled(st, Publish(m, leaving))
    ensures var range := InRange(st.tree, Head(st.log), m);
            Quits(st, Publish(m, leaving), s) <==>
              s in leaving && (s in st.newest || s in SubsOf(st.tree, range)
                || (SpoolAt(st.tree, m).status == Expected && s in SpoolAt(st.tree, m).subs
                    && (st.newest != {} || range != {})))
  {
    var range := InRange(st.tree, Head(st.log), m);
    assert range != {} <==> exists y :: y in st.tree && Le(Head(st.log), y) && Lt(y, m) by {
      if y :| y in st.tree && Le(Head(st.log), y) && Lt(y, m) { assert y in range; }
      if range != {} { var y :| y in range; }
    }
    if s in SubsOf(st.tree, range) {
      var x :| x in range && x in st.tree && s in st.tree[x].subs;
      assert AnsweredAt(st, m, x);
    }
    if m in st.tree && s in st.tree[m].subs && st.tree[m].status == Expected && Arrives(st, m) {
      assert AnsweredAt(st, m, m);
    }
    if x :| x in st.tree && s in st.tree[x].subs && AnsweredAt(st, m, x) {
      if x != m { assert x in range; }
    }
  }

  lemma PublishPresence(st: State, m: MsgId, leaving: set<Sub>, s: Sub)
    requires Safe(st) && Enabled(st, Publish(m, leaving))
    ensures InSpool(DoPublish(st, m, leaving), s) <==> InSpool(st, s) && !Quits(st, Publish(m, leaving), s)
  {
    var range := InRange(st.tree, Head(st.log), m);
    var moved := SubsOf(st.tree, range) + st.newest;
    PublishQuits(st, m, leaving, s);
    InTreeMinus(st.tree, range, s);
    MovedOnce(st, range, s);
    if range != {} || st.newest != {} {
      var st1 := st.(log := st.log + [m], tree := st.tree - range, newest := {}, got := Deliver(st.got, moved, m));
      assert SpoolAt(st1.tree, m) == SpoolAt(st.tree, m) by { assert m !in range; }
      if s in SpoolAt(st.tree, m).subs {
        OnlyOnce(st, m, s);
        InTreeMinus(st.tree - {m}, range, s);
        assert st1.tree - {m} == (st.tree - {m}) - range;
      }
      if s in moved { InTreeFewer(st1.tree, m, s); }
      LandPresence(st1, m, moved - leaving, leaving, s);
    }
  }

  /** What one step does to who is there: those who join are added and those who quit are gone, nobody else. */
  lemma StepPresence(st: State, e: Event, s: Sub)
    requires Safe(st) && Enabled(st, e)
    ensures InSpool(Step(st, e), s) <==> (InSpool(st, s) || Joins(e, s)) && !Quits(st, e, s)
  {
    match e
    case Join(_, _, _, _) => JoinPresence(st, e, s);
    case Leave(t) => LeavePresence(st, t, s);
    case Publish(m, leaving) => PublishPresence(st, m, leaving, s);
    case ReplyFound(_, _) => ReplyFoundPresence(st, e, s);
    case ReplyExpected(_, _) => ReplyExpectedPresence(st, e, s);
  }

  // ---- Whole runs -----------------------------------------------------------------------------------

  /** Whether a subscriber that is there to begin with, or joins on the way, has not quit by the end. */
  ghost predicate Stays(st: State, es: seq<Event>, s: Sub, here: bool)
    requires RunOk(st, es)
    decreases |es|
  {
    if es == [] then here
    else Stays(Step(st, es[0]), es[1..], s, (here || Joins(es[0], s)) && !Quits(st, es[0], s))
  }

  /** At the end of a run exactly those are in a spool that stayed. */
  lemma {:induction false} PresenceIff(st: State, es: seq<Event>, s: Sub)
    requires Safe(st) && RunOk(st, es)
    ensures InSpool(Run(st, es), s) <==> Stays(st, es, s, InSpool(st, s))
    decreases |es|
  {
    if es != [] {
      StepSafe(st, es[0]);
      StepPresence(st, es[0], s);
      PresenceIff(Step(st, es[0]), es[1..], s);
    }
  }

  /** The event names the subscriber as one that goes, or would go upon an answer. */
  predicate Names(e: Event, s: Sub) {
    match e
    case Join(t, _, _, leaves) => t == s && leaves
    case Leave(t) => t == s
    case Publish(_, leaving) => s in leaving
    case ReplyFound(_, leaving) => s in leaving
    case ReplyExpected(_, leaving) => s in leaving
  }

  /** Whoever is there and is not named stays, over any run. */
  lemma {:induction false} StillThere(st: State, es: seq<Event>, s: Sub)
    requires Safe(st) && RunOk(st, es) && NeverNamed(es, s)
    requires InSpool(st, s) || exists i :: 0 <= i < |es| && Joins(es[i], s)
    ensures InSpool(Run(st, es), s)
    decreases |es|
  {
    if es != [] {
      StepSafe(st, es[0]);
      assert !Names(es[0], s);
      StepPresence(st, es[0], s);
      if !InSpool(Step(st, es[0]), s) {
        var i :| 0 <= i < |es| && Joins(es[i], s);
        assert Joins(es[1..][i - 1], s);
      }
      StillThere(Step(st, es[0]), es[1..], s);
    }
  }

  /** Whoever has gone does not come back. */
  lemma {:induction false} GoneForGood(st: State, es: seq<Event>, s: Sub)
    requires Safe(st) && RunOk(st, es) && s in st.start && !InSpool(st, s)
    ensures !InSpool(Run(st, es), s)
    decreases |es|
  {
    if es != [] {
      StepSafe(st, es[0]);
      StepPresence(st, es[0], s);
      StepStart(st, es[0], s);
      GoneForGood(Step(st, es[0]), es[1..], s);
    }
  }

  lemma StepStart(st: State, e: Event, s: Sub)
    requires Enabled(st, e) && s in st.start
    ensures s in Step(st, e).start && Step(st, e).start[s] == st.start[s]
  {
  }

  /** Whoever goes upon a message has been handed it first, and everything before it. */
  lemma PublishGoesServed(st: State, m: MsgId, leaving: set<Sub>, s: Sub)
    requires Safe(st) && Enabled(st, Publish(m, leaving)) && InSpool(st, s)
    requires !InSpool(Step(st, Publish(m, leaving)), s)
    ensures var st' := Step(st, Publish(m, leaving));
            s in st'.start && s in st'.got && CaughtUpTo(st'.log, st'.start[s], st'.got[s], m)
  {
    var range := InRange(st.tree, Head(st.log), m);
    PublishGot(st, m, leaving);
    PublishPresence(st, m, leaving, s);
    PublishQuits(st, m, leaving, s);
    if s in st.newest || s in SubsOf(st.tree, range) {
      MovedOk(st, m, s);
    } else {
      AppendCaughtUp(st.log, m, st.start[s], st.got[s], m);
    }
  }

  lemma PublishGot(st: State, m: MsgId, leaving: set<Sub>)
    ensures var st' := DoPublish(st, m, leaving);
            && st'.log == st.log + [m] && st'.start == st.start
            && st'.got == Deliver(st.got, SubsOf(st.tree, InRange(st.tree, Head(st.log), m)) + st.newest, m)
  {
  }

  lemma FoundGoesServed(st: State, k: nat, leaving: set<Sub>, s: Sub)
    requires Safe(st) && Enabled(st, ReplyFound(k, leaving)) && InSpool(st, s)
    requires !InSpool(Step(st, ReplyFound(k, leaving)), s)
    ensures var st' := Step(st, ReplyFound(k, leaving));
            var m := st.log[Passed(st.log, st.requests[k].id)];
            s in st'.start && s in st'.got && CaughtUpTo(st'.log, st'.start[s], st'.got[s], m)
  {
    var x := st.requests[k].id;
    var m := st.log[Passed(st.log, x)];
    StepPresence(st, ReplyFound(k, leaving), s);
    NextIs(st.log, x);
    if s in st.tree[x].subs {
      GrowGapless(st.log, st.start[s], st.got[s], x, m);
    }
  }

  // ---- No loss --------------------------------------------------------------------------------------

  lemma {:induction false} RunConcat(st: State, a: seq<Event>, b: seq<Event>)
    requires RunOk(st, a + b)
    ensures RunOk(st, a) && RunOk(Run(st, a), b) && Run(st, a + b) == Run(Run(st, a), b)
    decreases |a|
  {
    if a == [] {
      assert a + b == b;
    } else {
      assert (a + b)[0] == a[0] && (a + b)[1..] == a[1..] + b;
      RunConcat(Step(st, a[0]), a[1..], b);
    }
  }

  /** A run only appends to the log and forgets nobody's starting id. */
  lemma {:induction false} RunGrows(st: State, es: seq<Event>, s: Sub)
    requires RunOk(st, es)
    ensures st.log <= Run(st, es).log
    ensures s in st.start ==> s in Run(st, es).start && Run(st, es).start[s] == st.start[s]
    decreases |es|
  {
    if es != [] {
      if s in st.start { StepStart(st, es[0], s); }
      RunGrows(Step(st, es[0]), es[1..], s);
    }
  }

  /** The messages of a log that are after an id. */
  function After(log: seq<MsgId>, x: MsgId): seq<MsgId> {
    if log == [] then [] else (if Lt(x, log[0]) then [log[0]] else []) + After(log[1..], x)
  }

  lemma {:induction false} AfterAll(log: seq<MsgId>, x: MsgId)
    requires forall i :: 0 <= i < |log| ==> Lt(x, log[i])
    ensures After(log, x) == log
  {
    if log != [] { AfterAll(log[1..], x); }
  }

  lemma {:induction false} AfterIs(log: seq<MsgId>, x: MsgId, n: nat)
    requires n <= |log|
    requires forall i :: 0 <= i < n ==> Le(log[i], x)
    requires forall i :: n <= i < |log| ==> Lt(x, log[i])
    ensures After(log, x) == log[n..]
    decreases n
  {
    if n == 0 {
      AfterAll(log, x);
    } else {
      assert Le(log[0], x);
      AfterIs(log[1..], x, n - 1);
    }
  }

  ghost predicate NeverNamed(es: seq<Event>, s: Sub) {
    forall i :: 0 <= i < |es| ==> !Names(es[i], s)
  }

  /** Everything since a join: after the id asked for, or published since the newest was asked for. */
  ghost predicate Everything(log: seq<MsgId>, at: seq<MsgId>, id: JoinId, got: seq<MsgId>) {
    match id
    case At(x) => got == After(log, x)
    case Newest => at + got == log
  }

  lemma FromStart(log: seq<MsgId>, at: seq<MsgId>, id: JoinId)
    requires Sorted(log) && at <= log
    ensures Everything(log, at, id, log[Passed(log, if id.At? then id.id else Head(at))..])
  {
    match id
    case At(x) =>
      PassedSplits(log, x);
      AfterIs(log, x, Passed(log, x));
    case Newest =>
      PassedIs(log, Head(at), |at|);
  }

  /** No loss.  A subscriber joins at some point of a run in which no EXPECTED reply has been overtaken, and
      nothing in the run makes it go.  Once no request is outstanding it is in a spool and has received every
      message after the id it asked for, or every message published since it asked for the newest. */
  lemma NoLoss(log: seq<MsgId>, before: seq<Event>, s: Sub, id: JoinId, rest: seq<Event>)
    requires Sorted(log)
    requires var es := before + [Join(s, id, true, false)] + rest;
             && RunOk(Init(log), es) && CarefulRun(Init(log), es) && Run(Init(log), es).requests == []
             && NeverNamed(es, s)
    ensures RunOk(Init(log), before)
    ensures var st := Run(Init(log), before + [Join(s, id, true, false)] + rest);
            InSpool(st, s) && s in st.got && Everything(st.log, Run(Init(log), before).log, id, st.got[s])
  {
    var e := Join(s, id, true, false);
    var es := before + [e] + rest;
    JoinedAtStart(Init(log), before, e, rest);
    Presently(log, es, |before|, s);
    FromStart(Run(Init(log), es).log, Run(Init(log), before).log, id);
  }

  lemma Presently(log: seq<MsgId>, es: seq<Event>, i: nat, s: Sub)
    requires Sorted(log) && RunOk(Init(log), es) && CarefulRun(Init(log), es) && Run(Init(log), es).requests == []
    requires NeverNamed(es, s) && i < |es| && Joins(es[i], s)
    ensures var st := Run(Init(log), es);
            Sorted(st.log) && InSpool(st, s) && s in st.start && s in st.got && UpToDate(st, s)
  {
    InitSafe(log);
    RunSafe(Init(log), es);
    StillThere(Init(log), es, s);
    WaitingUpToDate(log, es, s);
  }

  /** Where a subscriber starts is what it asked for when it joined. */
  lemma JoinedAtStart(st0: State, before: seq<Event>, e: Event, rest: seq<Event>)
    requires RunOk(st0, before + [e] + rest) && e.Join? && e.enqueued
    ensures RunOk(st0, before) && Run(st0, before).log <= Run(st0, before + [e] + rest).log
    ensures var st := Run(st0, before + [e] + rest);
            e.sub in st.start
            && st.start[e.sub] == if e.joinId.At? then e.joinId.id else Head(Run(st0, before).log)
  {
    RunConcat(st0, before + [e], rest);
    RunConcat(st0, before, [e]);
    var st1 := Run(st0, before + [e]);
    assert [e][1..] == [] && [e][0] == e;
    assert st1 == Step(Run(st0, before), e);
    RunGrows(st1, rest, e.sub);
  }
}
