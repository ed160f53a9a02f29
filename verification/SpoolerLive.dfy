/** Which runs of the spooler lose no message: exactly those in which no EXPECTED reply, overtaken
    by a publish, hits a spool that is not waiting for a reply.  In those, once all outstanding
    requests are answered every subscriber has received the whole log; in the others a subscriber
    can be left waiting for ever. */
module SpoolerLive {
  import opened MsgIds
  import opened Spooler
  import opened SpoolerProofs

  lemma AwaitedPush(log: seq<MsgId>, rs: seq<Request>, r: Request, x: MsgId)
    requires Awaited(log, rs, x)
    ensures Awaited(log, [r] + rs, x)
  {
    var k :| 0 <= k < |rs| && rs[k].id == x && Must(log, rs[k]);
    assert ([r] + rs)[k + 1] == rs[k];
  }

  lemma AwaitedAppend(log: seq<MsgId>, m: MsgId, rs: seq<Request>, x: MsgId)
    requires Awaited(log, rs, x)
    ensures Awaited(log + [m], rs, x)
  {
    var k :| 0 <= k < |rs| && rs[k].id == x && Must(log, rs[k]);
    assert Must(log + [m], rs[k]);
  }

  /** The request pushed by a fetch must be answered when its spool is behind. */
  lemma FetchAwaits(log: seq<MsgId>, rs: seq<Request>, x: MsgId)
    requires Sorted(log) && Behind(log, x)
    ensures Awaited(log, [Request(x, |log|)] + rs, x)
  {
    BehindIff(log, x);
    assert ([Request(x, |log|)] + rs)[0] == Request(x, |log|);
  }

  /** Answering request `k` leaves alone every spool but the one at its id; and that one too if the
      request did not have to answer FOUND. */
  lemma AwaitedDrop(log: seq<MsgId>, rs: seq<Request>, k: nat, x: MsgId)
    requires k < |rs| && Awaited(log, rs, x) && (x != rs[k].id || !Must(log, rs[k]))
    ensures Awaited(log, Drop(rs, k), x)
  {
    var i :| 0 <= i < |rs| && rs[i].id == x && Must(log, rs[i]);
    var j := if i < k then i else i - 1;
    assert Drop(rs, k)[j] == rs[i];
  }

  lemma AwaitedUndrop(log: seq<MsgId>, rs: seq<Request>, k: nat, x: MsgId)
    requires k < |rs| && Awaited(log, Drop(rs, k), x)
    ensures Awaited(log, rs, x)
  {
    var j :| 0 <= j < |Drop(rs, k)| && Drop(rs, k)[j].id == x && Must(log, Drop(rs, k)[j]);
    var i := if j < k then j else j + 1;
    assert Drop(rs, k)[j] == rs[i];
  }

  lemma LandLive(st: State, m: MsgId, arriving: set<Sub>, leaving: set<Sub>)
    requires Sorted(st.log) && SpoolsOk(st) && Live(st)
    ensures Live(Land(st, m, arriving, leaving))
  {
    var st' := Land(st, m, arriving, leaving);
    forall x | x in st'.tree && st'.tree[x].status != Invalid && Behind(st.log, x)
      ensures Awaited(st.log, st'.requests, x)
    {
      if st'.requests != st.requests {
        if x == m { FetchAwaits(st.log, st.requests, x); }
        else { AwaitedPush(st.log, st.requests, Request(m, |st.log|), x); }
      }
    }
  }

  lemma JoinLive(st: State, s: Sub, id: JoinId, enqueued: bool, leaves: bool)
    requires Safe(st) && Live(st)
    ensures Live(DoJoin(st, s, id, enqueued, leaves))
  {
    var st' := DoJoin(st, s, id, enqueued, leaves);
    forall x | x in st'.tree && st'.tree[x].status != Invalid && Behind(st.log, x)
      ensures Awaited(st.log, st'.requests, x)
    {
      if st'.requests != st.requests {
        if x == id.id { FetchAwaits(st.log, st.requests, x); }
        else { AwaitedPush(st.log, st.requests, Request(id.id, |st.log|), x); }
      }
    }
  }

  lemma PublishLive(st: State, m: MsgId, leaving: set<Sub>)
    requires Safe(st) && Live(st) && Lt(Head(st.log), m)
    ensures Live(DoPublish(st, m, leaving))
  {
    var range := InRange(st.tree, Head(st.log), m);
    var moved := SubsOf(st.tree, range) + st.newest;
    var st1 := st.(log := st.log + [m], tree := st.tree - range, newest := {}, got := Deliver(st.got, moved, m));
    SortedAppend(st.log, m);
    forall x | x in st1.tree && st1.tree[x].status != Invalid && Behind(st1.log, x)
      ensures Awaited(st1.log, st1.requests, x)
    {
      BehindIff(st1.log, x);
      BehindIff(st.log, x);
      assert x !in range;
      assert Lt(OLDEST, x) || x == OLDEST;
      assert Behind(st.log, x);
      AwaitedAppend(st.log, m, st.requests, x);
    }
    LandLive(st1, m, moved - leaving, leaving);
  }

  lemma ReplyFoundLive(st: State, k: nat, leaving: set<Sub>)
    requires Safe(st) && Live(st) && k < |st.requests| && Behind(st.log, st.requests[k].id)
    ensures Live(DoReplyFound(st, k, leaving))
  {
    var x := st.requests[k].id;
    var rs := Drop(st.requests, k);
    forall y | Awaited(st.log, st.requests, y) && y != x ensures Awaited(st.log, rs, y) {
      AwaitedDrop(st.log, st.requests, k, y);
    }
    if x in st.tree {
      var m := st.log[Passed(st.log, x)];
      var subs := st.tree[x].subs;
      LandLive(st.(requests := rs, tree := st.tree - {x}, got := Deliver(st.got, subs, m)), m, subs - leaving, leaving);
    }
  }

  /** An EXPECTED reply keeps the spooler live exactly when it is not an overtaken one. */
  lemma ReplyExpectedLiveIff(st: State, k: nat, leaving: set<Sub>)
    requires Safe(st) && Live(st) && k < |st.requests| && !Must(st.log, st.requests[k])
    ensures Live(DoReplyExpected(st, k, leaving)) <==> !Overtaken(st, k)
  {
    var x := st.requests[k].id;
    var st' := DoReplyExpected(st, k, leaving);
    forall y | Awaited(st.log, st.requests, y) ensures Awaited(st.log, st'.requests, y) {
      AwaitedDrop(st.log, st.requests, k, y);
    }
    if Awaited(st.log, st'.requests, x) {
      AwaitedUndrop(st.log, st.requests, k, x);
    }
  }

  /** Every step from a live state leads to a live state, except just the overtaken replies. */
  lemma StepLiveIff(st: State, e: Event)
    requires Safe(st) && Live(st) && Enabled(st, e)
    ensures Live(Step(st, e)) <==> Careful(st, e)
  {
    match e
    case Join(s, id, enqueued, leaves) => JoinLive(st, s, id, enqueued, leaves);
    case Leave(s) =>
    case Publish(m, leaving) => PublishLive(st, m, leaving);
    case ReplyFound(k, leaving) => ReplyFoundLive(st, k, leaving);
    case ReplyExpected(k, leaving) => ReplyExpectedLiveIff(st, k, leaving);
  }

  // ---- Whole runs -----------------------------------------------------------------------------------

  /** No repeat, no skip: in every run, stale replies included, what any subscriber has received,
      whether it is still there or not, is a contiguous piece of the log that begins right after
      the id it joined at, and a subscriber still there waits at the end of that piece. */
  lemma NoRepeatNoSkip(log: seq<MsgId>, es: seq<Event>, s: Sub)
    requires Sorted(log) && RunOk(Init(log), es) && s in Run(Init(log), es).start
    ensures var st := Run(Init(log), es);
            && s in st.got && Gapless(st.log, st.start[s], st.got[s])
            && (forall x :: x in st.tree && s in st.tree[x].subs ==>
                  CaughtUpTo(st.log, st.start[s], st.got[s], x) && s !in st.newest
                  && forall y :: y in st.tree && s in st.tree[y].subs ==> y == x)
  {
    InitSafe(log);
    RunSafe(Init(log), es);
  }

  lemma {:induction false} RunLiveIff(st: State, es: seq<Event>)
    requires Safe(st) && Live(st) && RunOk(st, es)
    ensures LiveThroughout(st, es) <==> CarefulRun(st, es)
    ensures CarefulRun(st, es) ==> Live(Run(st, es))
    decreases |es|
  {
    if es != [] {
      var st' := Step(st, es[0]);
      StepLiveIff(st, es[0]);
      if Careful(st, es[0]) {
        StepSafe(st, es[0]);
        RunLiveIff(st', es[1..]);
      }
      assert LiveThroughout(st', es[1..]) ==> Live(st');
    }
  }

  /** A run never leaves a spool that is behind without a request that must answer FOUND, exactly
      when none of its EXPECTED replies is an overtaken one. */
  lemma NoStallIff(log: seq<MsgId>, es: seq<Event>)
    requires Sorted(log) && RunOk(Init(log), es)
    ensures LiveThroughout(Init(log), es) <==> CarefulRun(Init(log), es)
  {
    InitSafe(log);
    assert Live(Init(log));
    RunLiveIff(Init(log), es);
  }

  /** Every EXPECTED reply of the run is still true when it arrives. */
  ghost predicate FreshRun(st: State, es: seq<Event>)
    requires RunOk(st, es)
    decreases |es|
  {
    es != [] ==>
      && (es[0].ReplyExpected? ==> !Behind(st.log, st.requests[es[0].k].id))
      && FreshRun(Step(st, es[0]), es[1..])
  }

  lemma {:induction false} FreshCareful(st: State, es: seq<Event>)
    requires RunOk(st, es) && FreshRun(st, es)
    ensures CarefulRun(st, es)
    decreases |es|
  {
    if es != [] { FreshCareful(Step(st, es[0]), es[1..]); }
  }

  /** A store that answers EXPECTED only when it still is so on arrival never stalls anybody. */
  lemma FreshNoStall(log: seq<MsgId>, es: seq<Event>)
    requires Sorted(log) && RunOk(Init(log), es) && FreshRun(Init(log), es)
    ensures LiveThroughout(Init(log), es)
  {
    FreshCareful(Init(log), es);
    NoStallIff(log, es);
  }

  // ---- All requests answered: everything is delivered -----------------------------------------------

  /** How many more replies the outstanding requests can lead to. */
  function Work(log: seq<MsgId>, rs: seq<Request>): nat {
    if rs == [] then 0 else 1 + |log| - Passed(log, rs[0].id) + Work(log, rs[1..])
  }

  lemma {:induction false} WorkDrop(log: seq<MsgId>, rs: seq<Request>, k: nat)
    requires k < |rs|
    ensures Work(log, rs) == Work(log, Drop(rs, k)) + 1 + |log| - Passed(log, rs[k].id)
    decreases k
  {
    if k == 0 {
      assert Drop(rs, 0) == rs[1..];
    } else {
      WorkDrop(log, rs[1..], k - 1);
      assert Drop(rs, k)[1..] == Drop(rs[1..], k - 1);
      assert Drop(rs, k)[0] == rs[0];
    }
  }

  predicate IsReply(e: Event) {
    e.ReplyFound? || e.ReplyExpected?
  }

  /** Each reply brings the outstanding work down. */
  lemma ReplyWork(st: State, e: Event)
    requires Safe(st) && Enabled(st, e) && IsReply(e)
    ensures Step(st, e).log == st.log
    ensures Work(st.log, Step(st, e).requests) < Work(st.log, st.requests)
  {
    WorkDrop(st.log, st.requests, e.k);
    var x := st.requests[e.k].id;
    if e.ReplyFound? {
      NextIs(st.log, x);
      var m := st.log[Passed(st.log, x)];
      var rs := Step(st, e).requests;
      if rs != Drop(st.requests, e.k) {
        assert rs == [Request(m, |st.log|)] + Drop(st.requests, e.k);
        assert rs[1..] == Drop(st.requests, e.k);
      }
    }
  }

  predicate AllReplies(es: seq<Event>) {
    forall i :: 0 <= i < |es| ==> IsReply(es[i])
  }

  /** Answering requests, in any order and with any further requests that causes, comes to an end. */
  lemma {:induction false} RepliesEnd(st: State, es: seq<Event>)
    requires Safe(st) && RunOk(st, es) && AllReplies(es)
    ensures |es| <= Work(st.log, st.requests) && Run(st, es).log == st.log
    decreases |es|
  {
    if es != [] {
      StepSafe(st, es[0]);
      ReplyWork(st, es[0]);
      RepliesEnd(Step(st, es[0]), es[1..]);
    }
  }

  /** While a request is outstanding some reply to it is possible. */
  lemma SomeReply(st: State, k: nat)
    requires Safe(st) && k < |st.requests|
    ensures Enabled(st, ReplyFound(k, {})) || Enabled(st, ReplyExpected(k, {}))
  {
    PassedSplits(st.log, st.requests[k].id);
  }

  /** Everything after the subscriber's starting id has been delivered to it. */
  predicate UpToDate(st: State, s: Sub)
    requires s in st.start && s in st.got
  {
    st.got[s] == st.log[Passed(st.log, st.start[s])..]
  }

  /** After any careful run, once no request is outstanding, every subscriber that is in a spool has
      received every message after the id it joined at. */
  lemma WaitingUpToDate(log: seq<MsgId>, es: seq<Event>, s: Sub)
    requires Sorted(log) && RunOk(Init(log), es) && CarefulRun(Init(log), es)
    requires var st := Run(Init(log), es);
             st.requests == [] && (s in st.newest || exists x :: x in st.tree && s in st.tree[x].subs)
    ensures var st := Run(Init(log), es);
            s in st.start && s in st.got && UpToDate(st, s)
  {
    InitSafe(log);
    assert Live(Init(log));
    RunSafe(Init(log), es);
    RunLiveIff(Init(log), es);
    var st := Run(Init(log), es);
    if s in st.newest {
      assert Gapless(st.log, st.start[s], st.got[s]);
    } else {
      var x :| x in st.tree && s in st.tree[x].subs;
      assert !Awaited(st.log, st.requests, x);
      assert Gapless(st.log, st.start[s], st.got[s]);
    }
  }
}
