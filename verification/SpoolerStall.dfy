/** The runs that do lose a message: a reply overtaken by a publish leaves a spool that takes itself to be
    up to date, and whoever is in it or joins it is not served again.  A run is free of this exactly when
    none of the EXPECTED replies it takes for such a spool has been overtaken. */
module SpoolerStall {
  import opened MsgIds
  import opened Spooler
  import opened SpoolerProofs
  import opened SpoolerLive

  /** `s` waits at an id behind the log, in a spool taken to be up to date, with no reply to come. */
  ghost predicate Stuck(st: State, s: Sub, x: MsgId) {
    && x in st.tree && s in st.tree[x].subs && st.tree[x].status == Expected
    && Behind(st.log, x)
    && (forall k :: 0 <= k < |st.requests| ==> st.requests[k].id != x)
  }

  /** `s` is in no spool other than the one at `x`. */
  ghost predicate Nowhere(st: State, s: Sub, x: MsgId) {
    s in st.start && s !in st.newest && forall y :: y in st.tree && y != x ==> s !in st.tree[y].subs
  }

  /** `s` is stuck at `x`, or has left. */
  ghost predicate Starved(st: State, s: Sub, x: MsgId) {
    Nowhere(st, s, x) && (x in st.tree && s in st.tree[x].subs ==> Stuck(st, s, x))
  }

  lemma StuckStarved(st: State, s: Sub, x: MsgId)
    requires Safe(st) && Stuck(st, s, x)
    ensures Starved(st, s, x)
  {
  }

  lemma LandStarved(st: State, m: MsgId, arriving: set<Sub>, leaving: set<Sub>, s: Sub, x: MsgId)
    requires Starved(st, s, x) && s !in arriving
    ensures Starved(Land(st, m, arriving, leaving), s, x)
  {
  }

  lemma PublishStarved(st: State, m: MsgId, leaving: set<Sub>, s: Sub, x: MsgId)
    requires Sorted(st.log) && Lt(Head(st.log), m) && Starved(st, s, x)
    ensures Starved(DoPublish(st, m, leaving), s, x)
    ensures s in st.got ==> s in DoPublish(st, m, leaving).got && DoPublish(st, m, leaving).got[s] == st.got[s]
  {
    var range := InRange(st.tree, Head(st.log), m);
    var moved := SubsOf(st.tree, range) + st.newest;
    BehindIff(st.log, x);
    SortedAppend(st.log, m);
    BehindIff(st.log + [m], x);
    assert s !in moved;
    var st1 := st.(log := st.log + [m], tree := st.tree - range, newest := {}, got := Deliver(st.got, moved, m));
    assert Starved(st1, s, x);
    LandStarved(st1, m, moved - leaving, leaving, s, x);
  }

  lemma ReplyFoundStarved(st: State, k: nat, leaving: set<Sub>, s: Sub, x: MsgId)
    requires k < |st.requests| && Behind(st.log, st.requests[k].id) && Starved(st, s, x)
    ensures Starved(DoReplyFound(st, k, leaving), s, x)
    ensures s in st.got ==> s in DoReplyFound(st, k, leaving).got && DoReplyFound(st, k, leaving).got[s] == st.got[s]
  {
    var y := st.requests[k].id;
    if y in st.tree {
      var m := st.log[Passed(st.log, y)];
      var subs := st.tree[y].subs;
      assert s !in subs;
      var st1 := st.(requests := Drop(st.requests, k), tree := st.tree - {y}, got := Deliver(st.got, subs, m));
      assert Starved(st1, s, x);
      LandStarved(st1, m, subs - leaving, leaving, s, x);
    }
  }

  lemma JoinStarved(st: State, t: Sub, id: JoinId, enqueued: bool, leaves: bool, s: Sub, x: MsgId)
    requires Starved(st, s, x) && t !in st.start
    ensures Starved(DoJoin(st, t, id, enqueued, leaves), s, x)
  {
  }

  lemma StepStarved(st: State, e: Event, s: Sub, x: MsgId)
    requires Sorted(st.log) && Enabled(st, e) && Starved(st, s, x) && s in st.got
    ensures Starved(Step(st, e), s, x) && s in Step(st, e).got && Step(st, e).got[s] == st.got[s]
  {
    match e
    case Join(t, id, enqueued, leaves) => JoinStarved(st, t, id, enqueued, leaves, s, x);
    case Leave(t) =>
    case Publish(m, leaving) => PublishStarved(st, m, leaving, s, x);
    case ReplyFound(k, leaving) => ReplyFoundStarved(st, k, leaving, s, x);
    case ReplyExpected(k, leaving) =>
  }

  lemma {:induction false} RunStarved(st: State, es: seq<Event>, s: Sub, x: MsgId)
    requires Safe(st) && RunOk(st, es) && Starved(st, s, x)
    ensures s in st.got && s in Run(st, es).got && Run(st, es).got[s] == st.got[s]
    decreases |es|
  {
    if es != [] {
      StepSafe(st, es[0]);
      StepStarved(st, es[0], s, x);
      RunStarved(Step(st, es[0]), es[1..], s, x);
    }
  }

  /** Whatever happens afterwards, a stuck subscriber receives nothing more. */
  lemma StuckForEver(st: State, es: seq<Event>, s: Sub, x: MsgId)
    requires Safe(st) && RunOk(st, es) && Stuck(st, s, x)
    ensures s in st.got && s in Run(st, es).got && Run(st, es).got[s] == st.got[s]
  {
    StuckStarved(st, s, x);
    RunStarved(st, es, s, x);
  }

  // ---- How it comes about ---------------------------------------------------------------------------

  /** Joining a spool that wrongly counts as up to date, when no reply is to come any more. */
  lemma JoinStuck(st: State, s: Sub, x: MsgId)
    requires x in st.tree && st.tree[x].status == Expected && Behind(st.log, x)
    requires forall i :: 0 <= i < |st.requests| ==> st.requests[i].id != x
    ensures Stuck(DoJoin(st, s, At(x), true, false), s, x)
  {
  }

  /** The spool at `x` counts as up to date, is behind the log, and no reply can tell. */
  ghost predicate Unattended(st: State, x: MsgId) {
    && x in st.tree && st.tree[x].status == Expected && Behind(st.log, x) && Le(OLDEST, x)
    && !Awaited(st.log, st.requests, x)
  }

  lemma OneReplyLess(st: State, x: MsgId, k: nat)
    requires Unattended(st, x) && k < |st.requests| && st.requests[k].id == x
    ensures Enabled(st, ReplyExpected(k, {})) && Careful(st, ReplyExpected(k, {}))
    ensures Unattended(Step(st, ReplyExpected(k, {})), x) && Step(st, ReplyExpected(k, {})).start == st.start
  {
    var st' := Step(st, ReplyExpected(k, {}));
    if Awaited(st'.log, st'.requests, x) { AwaitedUndrop(st.log, st.requests, k, x); }
  }

  /** The requests for `x` that are still open are answered, and then somebody joins there. */
  lemma {:induction false} UnattendedLoses(st: State, x: MsgId, s: Sub) returns (es: seq<Event>)
    requires Unattended(st, x) && s !in st.start
    ensures RunOk(st, es) && CarefulRun(st, es) && Stuck(Run(st, es), s, x)
    decreases |st.requests|
  {
    if k: nat :| k < |st.requests| && st.requests[k].id == x {
      var e := ReplyExpected(k, {});
      OneReplyLess(st, x, k);
      var more := UnattendedLoses(Step(st, e), x, s);
      es := [e] + more;
      assert es[1..] == more;
    } else {
      var e := Join(s, At(x), true, false);
      JoinStuck(st, s, x);
      es := [e];
      assert es[1..] == [];
      assert RunOk(Step(st, e), []) && CarefulRun(Step(st, e), []);
    }
  }

  /** After any overtaken reply a subscriber can be lost without another one: there is a continuation,
      free of overtaken replies, that leaves it stuck. */
  lemma OvertakenLoses(st: State, k: nat, leaving: set<Sub>, s: Sub) returns (es: seq<Event>)
    requires Safe(st) && Enabled(st, ReplyExpected(k, leaving)) && Overtaken(st, k) && s !in st.start
    ensures var st' := Step(st, ReplyExpected(k, leaving));
            RunOk(st', es) && CarefulRun(st', es) && Stuck(Run(st', es), s, st.requests[k].id)
  {
    var x, st' := st.requests[k].id, Step(st, ReplyExpected(k, leaving));
    if Awaited(st'.log, st'.requests, x) { AwaitedUndrop(st.log, st.requests, k, x); }
    es := UnattendedLoses(st', x, s);
  }

  // ---- When it does not -----------------------------------------------------------------------------

  /** From here a subscriber can end up stuck without an overtaken reply on the way. */
  ghost predicate Doomed(st: State) {
    exists es, s, x :: RunOk(st, es) && CarefulRun(st, es) && Stuck(Run(st, es), s, x)
  }

  lemma LiveNotDoomed(st: State)
    requires Safe(st) && Live(st)
    ensures !Doomed(st)
  {
    forall es, s, x | RunOk(st, es) && CarefulRun(st, es) ensures !Stuck(Run(st, es), s, x) {
      RunLiveIff(st, es);
    }
  }

  lemma {:induction false} FreshSub(subs: set<Sub>) returns (s: Sub)
    ensures s !in subs && forall t :: t in subs ==> t < s
    decreases subs
  {
    if subs == {} {
      s := 0;
    } else {
      var t :| t in subs;
      var u := FreshSub(subs - {t});
      s := if u > t then u else t + 1;
      assert forall v :: v in subs ==> v == t || v in subs - {t};
    }
  }

  /** Of all steps exactly the overtaken replies put somebody at risk. */
  lemma StepDoomedIff(st: State, e: Event)
    requires Safe(st) && Live(st) && Enabled(st, e)
    ensures Doomed(Step(st, e)) <==> !Careful(st, e)
  {
    if Careful(st, e) {
      StepSafe(st, e);
      StepLiveIff(st, e);
      LiveNotDoomed(Step(st, e));
    } else {
      var s := FreshSub(st.start.Keys);
      var es := OvertakenLoses(st, e.k, e.leaving, s);
    }
  }

  /** No state along the run puts anybody at risk. */
  ghost predicate NeverDoomed(st: State, es: seq<Event>)
    requires RunOk(st, es)
    decreases |es|
  {
    !Doomed(st) && (es != [] ==> NeverDoomed(Step(st, es[0]), es[1..]))
  }

  lemma {:induction false} RunDoomedIff(st: State, es: seq<Event>)
    requires Safe(st) && Live(st) && RunOk(st, es)
    ensures NeverDoomed(st, es) <==> CarefulRun(st, es)
    decreases |es|
  {
    LiveNotDoomed(st);
    if es != [] {
      StepDoomedIff(st, es[0]);
      if Careful(st, es[0]) {
        StepSafe(st, es[0]);
        StepLiveIff(st, es[0]);
        RunDoomedIff(Step(st, es[0]), es[1..]);
      } else {
        assert !NeverDoomed(Step(st, es[0]), es[1..]);
      }
    }
  }

  /** Every run: at no point can a subscriber be lost, other than by an overtaken reply still to come,
      exactly when no reply so far was overtaken. */
  lemma NoLossIff(log: seq<MsgId>, es: seq<Event>)
    requires Sorted(log) && RunOk(Init(log), es)
    ensures NeverDoomed(Init(log), es) <==> CarefulRun(Init(log), es)
  {
    InitSafe(log);
    assert Live(Init(log));
    RunDoomedIff(Init(log), es);
  }

  // ---- A run that loses a message -------------------------------------------------------------------

  /** The first half of such a run: a subscriber waits at the last message and asks for the next, a
      publish moves it on before the answer comes, and another join at the old id fails to enqueue
      and leaves an empty spool there. */
  lemma StallFirstHalf(x: MsgId, y: MsgId)
    requires x == MsgId(1, 0) && y == MsgId(2, 0)
    ensures var es := [Join(0, At(x), true, false), Publish(y, {}), Join(1, At(x), false, false)];
            && RunOk(Init([x]), es)
            && Run(Init([x]), es).log == [x, y]
            && Run(Init([x]), es).requests == [Request(y, 2), Request(x, 1)]
            && Run(Init([x]), es).tree == map[y := Spool({0}, Pending), x := Spool({}, Invalid)]
            && Run(Init([x]), es).start == map[0 := x]
  {
    var e0, e1, e2 := Join(0, At(x), true, false), Publish(y, {}), Join(1, At(x), false, false);
    var s0 := Init([x]);
    var s1 := Step(s0, e0);
    assert {} + {0} == {0};
    assert s1.tree == map[x := Spool({0}, Pending)] && s1.requests == [Request(x, 1)];
    assert InRange(s1.tree, x, y) == {x};
    assert SubsOf(s1.tree, {x}) == {0};
    var s2 := Step(s1, e1);
    assert s1.tree - {x} == map[];
    assert s2.tree == map[y := Spool({0}, Pending)];
    assert [e0, e1, e2][1..] == [e1, e2] && [e1, e2][1..] == [e2] && [e2][1..] == [];
    assert RunOk(s2, [e2]) && Run(s2, [e2]) == Step(s2, e2);
    assert RunOk(s1, [e1, e2]) && Run(s1, [e1, e2]) == Step(s2, e2);
  }

  lemma RunTwo(st: State, a: Event, b: Event)
    requires Enabled(st, a) && Enabled(Step(st, a), b)
    ensures RunOk(st, [a, b]) && Run(st, [a, b]) == Step(Step(st, a), b)
  {
    var st' := Step(st, a);
    assert [a, b][1..] == [b] && [b][1..] == [];
    assert RunOk(st', [b]) && Run(st', [b]) == Step(st', b);
  }

  /** The second half: the old answer marks that empty spool up to date, and the next subscriber to
      join there is stuck. */
  lemma StallReachable(x: MsgId, y: MsgId)
    requires x == MsgId(1, 0) && y == MsgId(2, 0)
    ensures var es := [Join(0, At(x), true, false), Publish(y, {}), Join(1, At(x), false, false)];
            var es' := [ReplyExpected(1, {}), Join(2, At(x), true, false)];
            && RunOk(Init([x]), es)
            && RunOk(Run(Init([x]), es), es')
            && Stuck(Run(Run(Init([x]), es), es'), 2, x)
  {
    StallFirstHalf(x, y);
    var st := Run(Init([x]), [Join(0, At(x), true, false), Publish(y, {}), Join(1, At(x), false, false)]);
    var e3, e4 := ReplyExpected(1, {}), Join(2, At(x), true, false);
    assert Passed([x, y], x) == 1 by { PassedIs([x, y], x, 1); }
    assert !Must(st.log, st.requests[1]);
    RunTwo(st, e3, e4);
    JoinStuck(Step(st, e3), 2, x);
  }
}
