/** The channel spooler as a step system: subscribers waiting at the same message id share
    a spool, spools live in a tree keyed by id, and a separate immortal spool holds the
    subscribers waiting for the newest message.  Fetch replies are asynchronous and may be
    stale; every run delivers each subscriber a gapless, repeat-free piece of the log. */
module Spooler {
  import opened MsgIds

  type Sub = nat

  /** `nchan_msg_status_t`. */
  datatype Status = Invalid | Pending | NotFound | Found | Expected | Expired | NotReady | Error

  /** A spool as the tree holds it.  Its message field is NULL between steps. */
  datatype Spool = Spool(subs: set<Sub>, status: Status)

  /** An entry of `fetchmsg_cb_data_list`; `seen` is the length of the log when it was issued. */
  datatype Request = Request(id: MsgId, seen: nat)

  datatype State = State(
    log: seq<MsgId>,
    tree: map<MsgId, Spool>,
    newest: set<Sub>,
    requests: seq<Request>,
    start: map<Sub, MsgId>,
    got: map<Sub, seq<MsgId>>)

  datatype JoinId = At(id: MsgId) | Newest

  datatype Event =
    | Join(sub: Sub, joinId: JoinId, enqueued: bool, leaves: bool)
    | Leave(sub: Sub)
    | Publish(msg: MsgId, leaving: set<Sub>)
    | ReplyFound(k: nat, leaving: set<Sub>)
    | ReplyExpected(k: nat, leaving: set<Sub>)

  function Init(log: seq<MsgId>): State {
    State(log, map[], {}, [], map[], map[])
  }

  function SpoolAt(tree: map<MsgId, Spool>, x: MsgId): Spool {
    if x in tree then tree[x] else Spool({}, Invalid)
  }

  /** Subscribers that arrive at spool `m`: an invalid non-empty spool is fetched, an expected
      one answers everybody "no content", upon which those in `leaving` go away. */
  function Land(st: State, m: MsgId, arriving: set<Sub>, leaving: set<Sub>): State {
    var was := SpoolAt(st.tree, m);
    var subs := was.subs + arriving;
    if was.status == Invalid && subs != {} then
      st.(tree := st.tree[m := Spool(subs, Pending)], requests := [Request(m, |st.log|)] + st.requests)
    else if was.status == Expected then
      st.(tree := st.tree[m := Spool(subs - leaving, Expected)])
    else
      st.(tree := st.tree[m := Spool(subs, was.status)])
  }

  function Deliver(got: map<Sub, seq<MsgId>>, to: set<Sub>, m: MsgId): map<Sub, seq<MsgId>> {
    map s | s in got :: if s in to then got[s] + [m] else got[s]
  }

  /** The ids of the spools a message published after `prev` is handed to. */
  function InRange(tree: map<MsgId, Spool>, prev: MsgId, m: MsgId): set<MsgId> {
    set x | x in tree && Le(prev, x) && Lt(x, m)
  }

  function SubsOf(tree: map<MsgId, Spool>, ids: set<MsgId>): set<Sub> {
    set x, s | x in ids && x in tree && s in tree[x].subs :: s
  }

  function DoJoin(st: State, s: Sub, id: JoinId, enqueued: bool, leaves: bool): State {
    match id
    case Newest =>
      if !enqueued then st
      else st.(newest := if leaves then st.newest else st.newest + {s},
               start := st.start[s := Head(st.log)], got := st.got[s := []])
    case At(x) =>
      var sp := SpoolAt(st.tree, x);
      if !enqueued then st.(tree := st.tree[x := sp])
      else
        var st1 := st.(start := st.start[s := x], got := st.got[s := []]);
        match sp.status
        case Invalid =>
          st1.(tree := st.tree[x := Spool(sp.subs + {s}, Pending)], requests := [Request(x, |st.log|)] + st.requests)
        case Expected =>
          st1.(tree := st.tree[x := Spool(if leaves then sp.subs else sp.subs + {s}, Expected)])
        case _ =>
          st1.(tree := st.tree[x := Spool(sp.subs + {s}, sp.status)])
  }

  function DoLeave(st: State, s: Sub): State {
    st.(newest := st.newest - {s},
        tree := map x | x in st.tree :: st.tree[x].(subs := st.tree[x].subs - {s}))
  }

  function DoPublish(st: State, m: MsgId, leaving: set<Sub>): State {
    var range := InRange(st.tree, Head(st.log), m);
    var moved := SubsOf(st.tree, range) + st.newest;
    var st1 := st.(log := st.log + [m], tree := st.tree - range, newest := {}, got := Deliver(st.got, moved, m));
    if range == {} && st.newest == {} then st1 else Land(st1, m, moved - leaving, leaving)
  }

  function Drop(requests: seq<Request>, k: nat): seq<Request>
    requires k < |requests|
  {
    requests[..k] + requests[k + 1..]
  }

  function DoReplyFound(st: State, k: nat, leaving: set<Sub>): State
    requires k < |st.requests| && Passed(st.log, st.requests[k].id) < |st.log|
  {
    var x := st.requests[k].id;
    var m := st.log[Passed(st.log, x)];
    var st1 := st.(requests := Drop(st.requests, k));
    if x !in st.tree then st1
    else
      var subs := st.tree[x].subs;
      Land(st1.(tree := st.tree - {x}, got := Deliver(st.got, subs, m)), m, subs - leaving, leaving)
  }

  function DoReplyExpected(st: State, k: nat, leaving: set<Sub>): State
    requires k < |st.requests|
  {
    var x := st.requests[k].id;
    var st1 := st.(requests := Drop(st.requests, k));
    if x !in st.tree then st1
    else st1.(tree := st.tree[x := Spool(st.tree[x].subs - leaving, Expected)])
  }

  /** A request that was issued when its successor was already in the log; it cannot answer EXPECTED. */
  predicate Must(log: seq<MsgId>, r: Request) {
    0 < r.seen <= |log| && Lt(r.id, log[r.seen - 1])
  }

  /** What the environment promises: fresh subscribers, increasing message ids, and replies
      that were true at some moment between the request and its reply. */
  predicate Enabled(st: State, e: Event) {
    match e
    case Join(s, id, _, _) => s !in st.start && (id.At? ==> Le(OLDEST, id.id))
    case Leave(_) => true
    case Publish(m, _) => Lt(Head(st.log), m)
    case ReplyFound(k, _) => k < |st.requests| && Passed(st.log, st.requests[k].id) < |st.log|
    case ReplyExpected(k, _) => k < |st.requests| && !Must(st.log, st.requests[k])
  }

  function Step(st: State, e: Event): State
    requires Enabled(st, e)
  {
    match e
    case Join(s, id, enqueued, leaves) => DoJoin(st, s, id, enqueued, leaves)
    case Leave(s) => DoLeave(st, s)
    case Publish(m, leaving) => DoPublish(st, m, leaving)
    case ReplyFound(k, leaving) => DoReplyFound(st, k, leaving)
    case ReplyExpected(k, leaving) => DoReplyExpected(st, k, leaving)
  }

  predicate RunOk(st: State, es: seq<Event>)
    decreases |es|
  {
    es == [] || (Enabled(st, es[0]) && RunOk(Step(st, es[0]), es[1..]))
  }

  function Run(st: State, es: seq<Event>): State
    requires RunOk(st, es)
    decreases |es|
  {
    if es == [] then st else Run(Step(st, es[0]), es[1..])
  }

  /** A state that some run leads to. */
  ghost predicate Reachable(st: State) {
    exists log, es :: Sorted(log) && RunOk(Init(log), es) && Run(Init(log), es) == st
  }

  // ---- What is promised -----------------------------------------------------------------------------

  /** What a subscriber received is a contiguous piece of the log that begins right after its
      starting id. */
  predicate Gapless(log: seq<MsgId>, start: MsgId, got: seq<MsgId>) {
    var a := Passed(log, start);
    a + |got| <= |log| && got == log[a..a + |got|]
  }

  /** A subscriber waiting at `x` has received everything after its starting id up to and including `x`. */
  predicate CaughtUpTo(log: seq<MsgId>, start: MsgId, got: seq<MsgId>, x: MsgId) {
    && Le(start, x)
    && Passed(log, x) == Passed(log, start) + |got|
    && (Lt(Head(log), x) ==> start == x)
  }

  predicate Behind(log: seq<MsgId>, x: MsgId) {
    Passed(log, x) < |log|
  }

  ghost predicate Awaited(log: seq<MsgId>, requests: seq<Request>, x: MsgId) {
    exists k :: 0 <= k < |requests| && requests[k].id == x && Must(log, requests[k])
  }

  ghost predicate SubsOk(st: State) {
    && st.got.Keys == st.start.Keys
    && (forall s :: s in st.start ==> Gapless(st.log, st.start[s], st.got[s]))
    && (forall s :: s in st.newest ==>
          s in st.start && st.got[s] == [] && Passed(st.log, st.start[s]) == |st.log| && Le(st.start[s], Head(st.log)))
    && (forall x, s :: x in st.tree && s in st.tree[x].subs ==>
          s in st.start && CaughtUpTo(st.log, st.start[s], st.got[s], x))
  }

  /** No subscriber waits in two spools. */
  ghost predicate Disjoint(st: State) {
    && (forall x, s :: x in st.tree && s in st.tree[x].subs ==> s !in st.newest)
    && (forall x, y, s :: x in st.tree && y in st.tree && s in st.tree[x].subs && s in st.tree[y].subs ==> x == y)
  }

  ghost predicate SpoolsOk(st: State) {
    forall x :: x in st.tree ==>
      && Le(OLDEST, x)
      && st.tree[x].status in {Invalid, Pending, Expected}
      && (st.tree[x].status == Invalid ==> st.tree[x].subs == {})
  }

  ghost predicate RequestsOk(st: State) {
    forall k :: 0 <= k < |st.requests| ==> st.requests[k].seen <= |st.log| && Le(OLDEST, st.requests[k].id)
  }

  /** What every run keeps: nobody is ever sent a message twice or out of order, or past a gap. */
  ghost predicate Safe(st: State) {
    Sorted(st.log) && SubsOk(st) && Disjoint(st) && SpoolsOk(st) && RequestsOk(st)
  }

  /** Every spool that is behind the log, unless it is still to be fetched, has a request outstanding
      that must answer FOUND. */
  ghost predicate Live(st: State) {
    forall x :: x in st.tree && st.tree[x].status != Invalid && Behind(st.log, x) ==> Awaited(st.log, st.requests, x)
  }

  /** An EXPECTED reply, overtaken by a publish, for a spool that is not waiting for a reply at all:
      it marks as up to date an empty spool that nobody will fetch again. */
  ghost predicate Overtaken(st: State, k: nat)
    requires k < |st.requests|
  {
    var x := st.requests[k].id;
    x in st.tree && st.tree[x].status == Invalid && Behind(st.log, x) && !Awaited(st.log, st.requests, x)
  }

  ghost predicate Careful(st: State, e: Event) {
    e.ReplyExpected? && e.k < |st.requests| ==> !Overtaken(st, e.k)
  }

  ghost predicate CarefulRun(st: State, es: seq<Event>)
    requires RunOk(st, es)
    decreases |es|
  {
    es != [] ==> Careful(st, es[0]) && CarefulRun(Step(st, es[0]), es[1..])
  }

  ghost predicate LiveThroughout(st: State, es: seq<Event>)
    requires RunOk(st, es)
    decreases |es|
  {
    Live(st) && (es != [] ==> LiveThroughout(Step(st, es[0]), es[1..]))
  }
}
