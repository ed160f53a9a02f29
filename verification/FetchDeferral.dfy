/** The guard against deep recursion in `spool_fetch_msg`, with a store that answers at once.  A fetch
    that finds a message hands it over, moves the spool on and fetches again, one stack frame deeper
    each time; after a number of fetches within one millisecond the spool leaves the rest to a timer.
    A spool is keyed by the number of log messages its subscribers are past. */
module FetchDeferral {

  const MAX_TIMES := 20

  type Sub = nat
  type Msg = nat

  datatype Status = Invalid | Pending | Found | Expected

  datatype Spool = Spool(status: Status, subs: set<Sub>, prevMsec: nat, count: nat, timer: bool)

  const NEW_SPOOL := Spool(Invalid, {}, 0, 0, false)

  /** An answer, or leaving of one's own accord. */
  datatype Answer = Message(pos: nat) | NoContent | Unasked

  /** Whether a subscriber goes away upon an answer. */
  type Leaves = (Sub, Answer) -> bool

  /** `start` is where each subscriber joined, `got` what it received, `left` the answer it left upon;
      `quit` are those that went away unasked. */
  datatype State = State(log: seq<Msg>, spools: map<nat, Spool>, start: map<Sub, nat>,
                         got: map<Sub, seq<Msg>>, left: map<Sub, Answer>, quit: set<Sub>)

  // ---- What always holds ----------------------------------------------------------------------------

  /** Everybody received an unbroken stretch of the log from where they joined. */
  ghost predicate GotOk(log: seq<Msg>, start: map<Sub, nat>, got: map<Sub, seq<Msg>>) {
    && start.Keys == got.Keys
    && forall s :: s in start ==> start[s] + |got[s]| <= |log| && got[s] == log[start[s]..start[s] + |got[s]|]
  }

  /** How many messages a subscriber is past. */
  function Pos(start: map<Sub, nat>, got: map<Sub, seq<Msg>>, s: Sub): nat {
    if s in start && s in got then start[s] + |got[s]| else 0
  }

  /** The spool at `p` holds subscribers that are past `p` messages. */
  ghost predicate SubsAt(p: nat, subs: set<Sub>, start: map<Sub, nat>, got: map<Sub, seq<Msg>>,
                         left: map<Sub, Answer>)
  {
    forall s :: s in subs ==> s in start && s in got && Pos(start, got, s) == p && s !in left
  }

  ghost predicate SubsOk(spools: map<nat, Spool>, start: map<Sub, nat>, got: map<Sub, seq<Msg>>,
                         left: map<Sub, Answer>)
  {
    forall p :: p in spools ==> SubsAt(p, spools[p].subs, start, got, left)
  }

  ghost predicate In(spools: map<nat, Spool>, p: nat, s: Sub) {
    p in spools && s in spools[p].subs
  }

  /** Nobody is forgotten: a subscriber is in the spool where it has got to, unless it went away. */
  ghost predicate Kept(spools: map<nat, Spool>, start: map<Sub, nat>, got: map<Sub, seq<Msg>>, left: map<Sub, Answer>) {
    forall s :: s in start && s in got && s !in left ==> In(spools, Pos(start, got, s), s)
  }

  /** Whoever has left did so unasked, or upon an answer it leaves upon. */
  ghost predicate LeftOk(start: map<Sub, nat>, left: map<Sub, Answer>, quit: set<Sub>, leaves: Leaves) {
    && (forall s :: s in left ==> s in start && if left[s] == Unasked then s in quit else leaves(s, left[s]))
    && (forall s :: s in quit ==> s in left && left[s] == Unasked)
  }

  /** Whoever receives a message it leaves upon has left upon it, and it was the last it received. */
  ghost predicate Honoured(start: map<Sub, nat>, got: map<Sub, seq<Msg>>, left: map<Sub, Answer>, leaves: Leaves) {
    forall s :: s in start && s in got ==> HonouredBy(s, start[s], |got[s]|, left, leaves)
  }

  ghost predicate HonouredBy(s: Sub, start: nat, n: nat, left: map<Sub, Answer>, leaves: Leaves) {
    && (forall q :: start <= q < start + n && leaves(s, Message(q)) ==> s in left && left[s] == Message(q))
    && (s in left && left[s].Message? ==> n > 0 && left[s].pos + 1 == start + n)
  }

  /** Whoever has been told that there is nothing yet, and leaves upon that, is gone. */
  ghost predicate Quiet(sp: Spool, leaves: Leaves) {
    sp.status == Expected ==> forall s :: s in sp.subs ==> !leaves(s, NoContent)
  }

  ghost predicate AllQuiet(spools: map<nat, Spool>, leaves: Leaves) {
    forall q :: q in spools ==> Quiet(spools[q], leaves)
  }

  ghost predicate OthersQuiet(spools: map<nat, Spool>, leaves: Leaves, p: nat) {
    forall q :: q in spools && q != p ==> Quiet(spools[q], leaves)
  }

  /** Between events: a spool with subscribers that has not been fetched for has its timer armed, and
      its allowance is fresh. */
  predicate SpoolOk(n: nat, p: nat, sp: Spool) {
    && (sp.status == Invalid || (sp.status == Expected && p == n))
    && (sp.status == Invalid && sp.subs != {} ==> sp.timer && sp.count == 0)
  }

  predicate KeyOk(n: nat, p: nat, sp: Spool) {
    p <= n && sp.count <= MAX_TIMES + 1
  }

  ghost predicate Delivered(st: State, leaves: Leaves) {
    && GotOk(st.log, st.start, st.got) && SubsOk(st.spools, st.start, st.got, st.left)
    && Kept(st.spools, st.start, st.got, st.left) && LeftOk(st.start, st.left, st.quit, leaves)
    && Honoured(st.start, st.got, st.left, leaves)
  }

  ghost predicate AllOk(spools: map<nat, Spool>, n: nat) {
    forall q :: q in spools ==> KeyOk(n, q, spools[q]) && SpoolOk(n, q, spools[q])
  }

  ghost predicate Others(spools: map<nat, Spool>, n: nat, p: nat) {
    forall q :: q in spools && q != p ==> KeyOk(n, q, spools[q]) && SpoolOk(n, q, spools[q])
  }

  /** As between events, but for the spool at `p`, which is being dealt with. */
  ghost predicate Busy(st: State, p: nat, leaves: Leaves) {
    && Delivered(st, leaves) && p in st.spools && KeyOk(|st.log|, p, st.spools[p])
    && Others(st.spools, |st.log|, p) && OthersQuiet(st.spools, leaves, p)
  }

  ghost predicate Settled(st: State, leaves: Leaves) {
    Delivered(st, leaves) && AllOk(st.spools, |st.log|) && AllQuiet(st.spools, leaves)
  }

  // ---- Steps on values ------------------------------------------------------------------------------

  function Deliver(got: map<Sub, seq<Msg>>, to: set<Sub>, m: Msg): map<Sub, seq<Msg>> {
    map s | s in got :: if s in to then got[s] + [m] else got[s]
  }

  function Leaving(subs: set<Sub>, a: Answer, leaves: Leaves): set<Sub> {
    set s | s in subs && leaves(s, a)
  }

  /** Subscribers `to` of the spool at `p` have been answered. */
  function Answered(st: State, p: nat, to: set<Sub>, a: Answer, leaves: Leaves): State
    requires p in st.spools && (a.Message? ==> a.pos == p < |st.log|)
  {
    var sp := st.spools[p];
    var go := Leaving(to, a, leaves);
    st.(spools := st.spools[p := sp.(subs := sp.subs - go)],
        got := if a.Message? then Deliver(st.got, to, st.log[p]) else st.got,
        left := map s | s in st.left.Keys + go :: if s in go then a else st.left[s])
  }

  /** The spool at `p` has moved on: merged into the next spool, or re-keyed. */
  function Moved(spools: map<nat, Spool>, p: nat): map<nat, Spool>
    requires p in spools
  {
    var sp := spools[p];
    (spools - {p})[p + 1 := if p + 1 in spools then spools[p + 1].(subs := spools[p + 1].subs + sp.subs)
                            else sp.(status := Invalid)]
  }

  lemma DeliverOk(log: seq<Msg>, start: map<Sub, nat>, got: map<Sub, seq<Msg>>, to: set<Sub>, p: nat)
    requires GotOk(log, start, got) && p < |log|
    requires forall s :: s in to ==> s in start && start[s] + |got[s]| == p
    ensures GotOk(log, start, Deliver(got, to, log[p]))
  {
    var got' := Deliver(got, to, log[p]);
    forall s | s in start ensures start[s] + |got'[s]| <= |log| && got'[s] == log[start[s]..start[s] + |got'[s]|] {
      if s in to { OneMore(log, start[s], got[s], p); }
    }
  }

  lemma OneMore(log: seq<Msg>, start: nat, got: seq<Msg>, p: nat)
    requires start + |got| == p < |log| && got == log[start..p]
    ensures got + [log[p]] == log[start..start + |got + [log[p]]|]
  {
  }

  /** The subscribers that stay are past one more message; nobody else has moved. */
  lemma MovedSubs(st: State, p: nat, leaves: Leaves, a: State)
    requires SubsOk(st.spools, st.start, st.got, st.left) && p in st.spools && p < |st.log|
    requires a == Answered(st, p, st.spools[p].subs, Message(p), leaves)
    ensures SubsOk(Moved(a.spools, p), a.start, a.got, a.left)
  {
    var sp, spools' := st.spools[p], Moved(a.spools, p);
    assert SubsAt(p, sp.subs, st.start, st.got, st.left);
    forall q | q in spools' ensures SubsAt(q, spools'[q].subs, a.start, a.got, a.left) {
      assert q in st.spools ==> SubsAt(q, st.spools[q].subs, st.start, st.got, st.left);
    }
  }

  lemma MovedKept(st: State, p: nat, leaves: Leaves, a: State)
    requires SubsOk(st.spools, st.start, st.got, st.left) && Kept(st.spools, st.start, st.got, st.left)
    requires p in st.spools && p < |st.log| && a == Answered(st, p, st.spools[p].subs, Message(p), leaves)
    ensures Kept(Moved(a.spools, p), a.start, a.got, a.left)
  {
    var subs, spools' := st.spools[p].subs, Moved(a.spools, p);
    assert SubsAt(p, subs, st.start, st.got, st.left);
    forall s | s in a.start && s in a.got && s !in a.left ensures In(spools', Pos(a.start, a.got, s), s) {
      assert In(st.spools, Pos(st.start, st.got, s), s);
      if s in subs {
        assert Pos(a.start, a.got, s) == p + 1 && s in a.spools[p].subs;
      } else {
        assert Pos(a.start, a.got, s) == Pos(st.start, st.got, s) != p;
      }
    }
  }

  lemma MovedHonoured(st: State, p: nat, leaves: Leaves, a: State)
    requires Honoured(st.start, st.got, st.left, leaves) && SubsOk(st.spools, st.start, st.got, st.left)
    requires p in st.spools && p < |st.log| && a == Answered(st, p, st.spools[p].subs, Message(p), leaves)
    ensures Honoured(a.start, a.got, a.left, leaves)
  {
    var subs := st.spools[p].subs;
    assert SubsAt(p, subs, st.start, st.got, st.left);
    forall s | s in a.start && s in a.got ensures HonouredBy(s, a.start[s], |a.got[s]|, a.left, leaves) {
      assert HonouredBy(s, st.start[s], |st.got[s]|, st.left, leaves);
      if s in subs {
        assert Pos(st.start, st.got, s) == p && |a.got[s]| == |st.got[s]| + 1;
      }
    }
  }

  lemma AnsweredLeft(st: State, p: nat, to: set<Sub>, ans: Answer, leaves: Leaves, a: State)
    requires SubsOk(st.spools, st.start, st.got, st.left) && LeftOk(st.start, st.left, st.quit, leaves)
    requires p in st.spools && to <= st.spools[p].subs && (ans.Message? ==> ans.pos == p < |st.log|)
    requires ans != Unasked && a == Answered(st, p, to, ans, leaves)
    ensures LeftOk(a.start, a.left, a.quit, leaves)
  {
    assert SubsAt(p, st.spools[p].subs, st.start, st.got, st.left);
  }

  lemma HandedOver(st: State, p: nat, leaves: Leaves, a: State)
    requires Busy(st, p, leaves) && p < |st.log| && a == Answered(st, p, st.spools[p].subs, Message(p), leaves)
    ensures Busy(a.(spools := Moved(a.spools, p)), p + 1, leaves)
  {
    var spools' := Moved(a.spools, p);
    assert GotOk(a.log, a.start, a.got) by {
      assert SubsAt(p, st.spools[p].subs, st.start, st.got, st.left);
      DeliverOk(st.log, st.start, st.got, st.spools[p].subs, p);
    }
    assert LeftOk(a.start, a.left, a.quit, leaves) by { AnsweredLeft(st, p, st.spools[p].subs, Message(p), leaves, a); }
    assert SubsOk(spools', a.start, a.got, a.left) by { MovedSubs(st, p, leaves, a); }
    assert Kept(spools', a.start, a.got, a.left) by { MovedKept(st, p, leaves, a); }
    assert Honoured(a.start, a.got, a.left, leaves) by { MovedHonoured(st, p, leaves, a); }
    MovedOthers(st.spools, p, a.spools[p], |st.log|, leaves);
  }

  lemma MovedOthers(spools: map<nat, Spool>, p: nat, sp: Spool, n: nat, leaves: Leaves)
    requires p in spools && p < n && Others(spools, n, p) && OthersQuiet(spools, leaves, p)
    requires sp.count <= MAX_TIMES + 1
    ensures var spools' := Moved(spools[p := sp], p);
            KeyOk(n, p + 1, spools'[p + 1]) && Others(spools', n, p + 1) && OthersQuiet(spools', leaves, p + 1)
  {
    var spools' := Moved(spools[p := sp], p);
    forall q | q in spools' && q != p + 1 ensures Quiet(spools'[q], leaves) { assert Quiet(spools[q], leaves); }
  }

  lemma ToldSubs(st: State, p: nat, to: set<Sub>, leaves: Leaves, a: State)
    requires SubsOk(st.spools, st.start, st.got, st.left) && p in st.spools
    requires to <= st.spools[p].subs && a == Answered(st, p, to, NoContent, leaves)
    ensures SubsOk(a.spools, a.start, a.got, a.left)
  {
    assert SubsAt(p, st.spools[p].subs, st.start, st.got, st.left);
    forall q | q in a.spools ensures SubsAt(q, a.spools[q].subs, a.start, a.got, a.left) {
      assert SubsAt(q, st.spools[q].subs, st.start, st.got, st.left);
    }
  }

  lemma ToldKept(st: State, p: nat, to: set<Sub>, leaves: Leaves, a: State)
    requires SubsOk(st.spools, st.start, st.got, st.left) && Kept(st.spools, st.start, st.got, st.left)
    requires p in st.spools && to <= st.spools[p].subs && a == Answered(st, p, to, NoContent, leaves)
    ensures Kept(a.spools, a.start, a.got, a.left)
  {
    forall s | s in a.start && s in a.got && s !in a.left ensures In(a.spools, Pos(a.start, a.got, s), s) {
      assert In(st.spools, Pos(st.start, st.got, s), s);
    }
  }

  lemma ToldHonoured(st: State, p: nat, to: set<Sub>, leaves: Leaves, a: State)
    requires Honoured(st.start, st.got, st.left, leaves) && SubsOk(st.spools, st.start, st.got, st.left)
    requires p in st.spools && to <= st.spools[p].subs && a == Answered(st, p, to, NoContent, leaves)
    ensures Honoured(a.start, a.got, a.left, leaves)
  {
    assert SubsAt(p, st.spools[p].subs, st.start, st.got, st.left);
    forall s | s in a.start && s in a.got ensures HonouredBy(s, a.start[s], |a.got[s]|, a.left, leaves) {
      assert HonouredBy(s, st.start[s], |st.got[s]|, st.left, leaves);
    }
  }

  lemma ToldQuiet(st: State, p: nat, to: set<Sub>, leaves: Leaves, a: State)
    requires p in st.spools && OthersQuiet(st.spools, leaves, p) && a == Answered(st, p, to, NoContent, leaves)
    requires forall s :: s in st.spools[p].subs - to ==> !leaves(s, NoContent)
    ensures AllQuiet(a.spools, leaves)
  {
    forall q | q in a.spools ensures Quiet(a.spools[q], leaves) {
      if q != p { assert Quiet(st.spools[q], leaves); }
    }
  }

  lemma ToldNothingYet(st: State, p: nat, to: set<Sub>, leaves: Leaves, a: State)
    requires Busy(st, p, leaves) && p == |st.log| && st.spools[p].status == Expected
    requires to <= st.spools[p].subs && a == Answered(st, p, to, NoContent, leaves)
    requires forall s :: s in st.spools[p].subs - to ==> !leaves(s, NoContent)
    ensures Settled(a, leaves)
  {
    assert AllQuiet(a.spools, leaves) by { ToldQuiet(st, p, to, leaves, a); }
    assert Honoured(a.start, a.got, a.left, leaves) by { ToldHonoured(st, p, to, leaves, a); }
    assert LeftOk(a.start, a.left, a.quit, leaves) by { AnsweredLeft(st, p, to, NoContent, leaves, a); }
    assert SubsOk(a.spools, a.start, a.got, a.left) by { ToldSubs(st, p, to, leaves, a); }
    assert Kept(a.spools, a.start, a.got, a.left) by { ToldKept(st, p, to, leaves, a); }
  }

  /** Only a spool's own state changes, not who is in it. */
  lemma Restated(st: State, p: nat, leaves: Leaves, sp: Spool)
    requires Busy(st, p, leaves) && sp.subs == st.spools[p].subs && sp.count <= MAX_TIMES + 1
    ensures Busy(st.(spools := st.spools[p := sp]), p, leaves)
    ensures SpoolOk(|st.log|, p, sp) && Quiet(sp, leaves) ==> Settled(st.(spools := st.spools[p := sp]), leaves)
  {
    var spools' := st.spools[p := sp];
    RestatedSubs(st.spools, p, sp, st.start, st.got, st.left);
    assert Others(spools', |st.log|, p);
    assert OthersQuiet(spools', leaves, p) by {
      forall q | q in spools' && q != p ensures Quiet(spools'[q], leaves) { assert Quiet(st.spools[q], leaves); }
    }
  }

  lemma RestatedSubs(spools: map<nat, Spool>, p: nat, sp: Spool, start: map<Sub, nat>, got: map<Sub, seq<Msg>>,
                     left: map<Sub, Answer>)
    requires p in spools && sp.subs == spools[p].subs
    requires SubsOk(spools, start, got, left) && Kept(spools, start, got, left)
    ensures SubsOk(spools[p := sp], start, got, left) && Kept(spools[p := sp], start, got, left)
  {
    var spools' := spools[p := sp];
    forall q | q in spools' ensures SubsAt(q, spools'[q].subs, start, got, left) {
      assert SubsAt(q, spools[q].subs, start, got, left);
    }
    forall s | s in start && s in got && s !in left ensures In(spools', Pos(start, got, s), s) {
      assert In(spools, Pos(start, got, s), s);
    }
  }

  // ---- How far a chain of fetches goes --------------------------------------------------------------

  /** The stretch of spools from `p` to `q` has become one spool at `q`. */
  ghost predicate Advanced(spools: map<nat, Spool>, spools': map<nat, Spool>, p: nat, q: nat) {
    && p <= q && q in spools'
    && (forall r :: r in spools' && r != q ==> r in spools && spools'[r] == spools[r] && !(p <= r <= q))
    && (forall r :: r in spools && !(p <= r <= q) ==> r in spools')
  }

  /** How many messages a spool may still ask for before it is put off. */
  function Allowance(sp: Spool, now: nat): (a: int)
    ensures sp.count <= 21 ==> 0 <= a <= 22
  {
    if sp.prevMsec == now then 21 - sp.count else 22
  }

  function Above(spools: map<nat, Spool>, p: nat): set<nat> {
    set q | q in spools && q > p
  }

  lemma AboveMoved(spools: map<nat, Spool>, p: nat)
    requires p in spools
    ensures p + 1 in spools ==> |Above(Moved(spools, p), p + 1)| == |Above(spools, p)| - 1
    ensures p + 1 !in spools ==> |Above(Moved(spools, p), p + 1)| == |Above(spools, p)|
  {
    var b := Above(Moved(spools, p), p + 1);
    if p + 1 in spools {
      assert Above(spools, p) == b + {p + 1};
    } else {
      assert Above(spools, p) == b;
    }
  }

  lemma AdvancedMoved(spools: map<nat, Spool>, p: nat, spools': map<nat, Spool>, q: nat)
    requires p in spools && Advanced(Moved(spools, p), spools', p + 1, q)
    ensures Advanced(spools, spools', p, q)
  {
  }

  // ---- Timers ---------------------------------------------------------------------------------------

  function Timers(spools: map<nat, Spool>): set<nat> {
    set p | p in spools && spools[p].timer
  }

  /** What a spool adds to the work left for timers. */
  function Weight(n: nat, p: nat, sp: Spool): nat
    requires p <= n
  {
    if sp.timer && sp.status == Invalid then 2 * (n - p) + 1 + (if sp.count > MAX_TIMES then 1 else 0) else 0
  }

  function Load(spools: map<nat, Spool>, n: nat, k: nat): nat
    requires k <= n + 1
    decreases n + 1 - k
  {
    if k > n then 0 else (if k in spools then Weight(n, k, spools[k]) else 0) + Load(spools, n, k + 1)
  }

  lemma {:induction false} LoadSame(spools: map<nat, Spool>, spools': map<nat, Spool>, n: nat, k: nat)
    requires k <= n + 1
    requires forall r :: k <= r ==> (r in spools <==> r in spools') && (r in spools ==> spools[r] == spools'[r])
    ensures Load(spools, n, k) == Load(spools', n, k)
    decreases n + 1 - k
  {
    if k <= n { LoadSame(spools, spools', n, k + 1); }
  }

  lemma {:induction false} LoadGrows(spools: map<nat, Spool>, n: nat, j: nat, k: nat)
    requires j <= k <= n + 1
    ensures Load(spools, n, k) <= Load(spools, n, j)
    decreases k - j
  {
    if j < k { LoadGrows(spools, n, j + 1, k); }
  }

  /** From `p` on, what is left after a chain of fetches. */
  lemma {:induction false} LoadTail(spools: map<nat, Spool>, spools': map<nat, Spool>, n: nat, p: nat, q: nat, k: nat)
    requires p <= k <= q <= n && Advanced(spools, spools', p, q)
    ensures Load(spools', n, k) == Weight(n, q, spools'[q]) + Load(spools, n, q + 1)
    decreases q - k
  {
    if k == q { LoadSame(spools, spools', n, q + 1); } else { LoadTail(spools, spools', n, p, q, k + 1); }
  }

  lemma {:induction false} LoadDrops(spools: map<nat, Spool>, spools': map<nat, Spool>, n: nat, p: nat, q: nat, k: nat)
    requires k <= p <= q <= n && p in spools && Advanced(spools, spools', p, q)
    requires Weight(n, q, spools'[q]) < Weight(n, p, spools[p])
    ensures Load(spools', n, k) < Load(spools, n, k)
    decreases p - k
  {
    if k == p {
      LoadTail(spools, spools', n, p, q, p);
      LoadGrows(spools, n, p + 1, q + 1);
    } else {
      LoadDrops(spools, spools', n, p, q, k + 1);
    }
  }

  lemma {:induction false} LoadUnmoved(spools: map<nat, Spool>, n: nat, p: nat, sp: Spool, k: nat)
    requires k <= n + 1 && p in spools && p <= n && Weight(n, p, sp) == Weight(n, p, spools[p])
    ensures Load(spools[p := sp], n, k) == Load(spools, n, k)
    decreases n + 1 - k
  {
    if k <= n { LoadUnmoved(spools, n, p, sp, k + 1); }
  }

  lemma AllAbove(spools: map<nat, Spool>, p: nat)
    requires p in spools
    ensures |Above(spools, p)| + 1 <= |spools|
  {
    var a := Above(spools, p);
    assert a + {p} <= spools.Keys;
    Subset(a + {p}, spools.Keys);
    assert |spools| == |spools.Keys|;
  }

  lemma {:induction false} Subset(a: set<nat>, b: set<nat>)
    requires a <= b
    ensures |a| <= |b|
  {
    assert b == a + (b - a);
  }

  lemma Joined(st: State, p: nat, s: Sub, leaves: Leaves, sp: Spool, st': State)
    requires Settled(st, leaves) && s !in st.start && p <= |st.log|
    requires sp == if p in st.spools then st.spools[p] else NEW_SPOOL
    requires st' == st.(spools := st.spools[p := sp.(subs := sp.subs + {s})], start := st.start[s := p],
                        got := st.got[s := []])
    ensures Busy(st', p, leaves)
  {
    assert GotOk(st'.log, st'.start, st'.got) by { JoinedGot(st.log, st.start, st.got, s, p); }
    assert SubsOk(st'.spools, st'.start, st'.got, st'.left) && Kept(st'.spools, st'.start, st'.got, st'.left) by {
      JoinedSubs(st.spools, st.start, st.got, st.left, s, p, sp);
    }
    assert LeftOk(st'.start, st'.left, st'.quit, leaves);
    assert Honoured(st'.start, st'.got, st'.left, leaves) by {
      forall t | t in st'.start && t in st'.got ensures HonouredBy(t, st'.start[t], |st'.got[t]|, st'.left, leaves) {
        if t != s { assert HonouredBy(t, st.start[t], |st.got[t]|, st.left, leaves); }
      }
    }
    assert OthersQuiet(st'.spools, leaves, p) by {
      forall q | q in st'.spools && q != p ensures Quiet(st'.spools[q], leaves) { assert Quiet(st.spools[q], leaves); }
    }
    assert Others(st'.spools, |st'.log|, p) by { OthersPut(st.spools, |st.log|, p, sp.(subs := sp.subs + {s})); }
    assert KeyOk(|st.log|, p, st'.spools[p]);
  }

  lemma OthersPut(spools: map<nat, Spool>, n: nat, p: nat, sp: Spool)
    requires AllOk(spools, n)
    ensures Others(spools[p := sp], n, p)
  {
  }

  lemma JoinedGot(log: seq<Msg>, start: map<Sub, nat>, got: map<Sub, seq<Msg>>, s: Sub, p: nat)
    requires GotOk(log, start, got) && p <= |log|
    ensures GotOk(log, start[s := p], got[s := []])
  {
  }

  lemma JoinedSubs(spools: map<nat, Spool>, start: map<Sub, nat>, got: map<Sub, seq<Msg>>, left: map<Sub, Answer>,
                   s: Sub, p: nat, sp: Spool)
    requires SubsOk(spools, start, got, left) && Kept(spools, start, got, left) && s !in start && s !in left
    requires if p in spools then sp == spools[p] else sp.subs == {}
    ensures SubsOk(spools[p := sp.(subs := sp.subs + {s})], start[s := p], got[s := []], left)
    ensures Kept(spools[p := sp.(subs := sp.subs + {s})], start[s := p], got[s := []], left)
  {
    var spools', start', got' := spools[p := sp.(subs := sp.subs + {s})], start[s := p], got[s := []];
    forall q | q in spools' ensures SubsAt(q, spools'[q].subs, start', got', left) {
      assert q in spools ==> SubsAt(q, spools[q].subs, start, got, left);
    }
    forall t | t in start' && t in got' && t !in left ensures In(spools', Pos(start', got', t), t) {
      assert t != s ==> In(spools, Pos(start, got, t), t);
    }
  }

  lemma EmptySpool(st: State, p: nat, leaves: Leaves)
    requires Settled(st, leaves) && p <= |st.log|
    ensures p !in st.spools ==> Settled(st.(spools := st.spools[p := NEW_SPOOL]), leaves)
  {
    if p !in st.spools {
      EmptySubs(st.spools, st.start, st.got, st.left, p);
      var spools' := st.spools[p := NEW_SPOOL];
      forall q | q in spools' ensures Quiet(spools'[q], leaves) { if q != p { assert Quiet(st.spools[q], leaves); } }
    }
  }

  lemma EmptySubs(spools: map<nat, Spool>, start: map<Sub, nat>, got: map<Sub, seq<Msg>>, left: map<Sub, Answer>,
                  p: nat)
    requires SubsOk(spools, start, got, left) && Kept(spools, start, got, left) && p !in spools
    ensures SubsOk(spools[p := NEW_SPOOL], start, got, left) && Kept(spools[p := NEW_SPOOL], start, got, left)
  {
    var spools' := spools[p := NEW_SPOOL];
    forall q | q in spools' ensures SubsAt(q, spools'[q].subs, start, got, left) {
      if q != p { assert SubsAt(q, spools[q].subs, start, got, left); }
    }
    forall s | s in start && s in got && s !in left ensures In(spools', Pos(start, got, s), s) {
      assert In(spools, Pos(start, got, s), s);
    }
  }

  function Without(st: State, p: nat, s: Sub): State
    requires p in st.spools
  {
    st.(spools := st.spools[p := st.spools[p].(subs := st.spools[p].subs - {s})], left := st.left[s := Unasked],
        quit := st.quit + {s})
  }

  lemma Removed(st: State, p: nat, s: Sub, leaves: Leaves)
    requires Settled(st, leaves) && In(st.spools, p, s)
    ensures Settled(Without(st, p, s), leaves)
  {
    var sp := st.spools[p];
    var spools', left' := st.spools[p := sp.(subs := sp.subs - {s})], st.left[s := Unasked];
    assert SubsOk(spools', st.start, st.got, left') && Kept(spools', st.start, st.got, left') by {
      RemovedSubs(st.spools, st.start, st.got, st.left, p, s);
    }
    assert AllOk(spools', |st.log|) by { FewerOk(st.spools, |st.log|, p, s); }
    assert AllQuiet(spools', leaves) by {
      forall q | q in spools' ensures Quiet(spools'[q], leaves) { assert Quiet(st.spools[q], leaves); }
    }
    assert Honoured(st.start, st.got, left', leaves) by {
      assert SubsAt(p, sp.subs, st.start, st.got, st.left);
      HonouredMore(st.start, st.got, st.left, leaves, s);
    }
    assert LeftOk(st.start, left', st.quit + {s}, leaves) by {
      assert SubsAt(p, sp.subs, st.start, st.got, st.left);
      LeftMore(st.start, st.left, st.quit, leaves, s);
    }
  }

  lemma FewerOk(spools: map<nat, Spool>, n: nat, p: nat, s: Sub)
    requires AllOk(spools, n) && p in spools
    ensures AllOk(spools[p := spools[p].(subs := spools[p].subs - {s})], n)
  {
    assert SpoolOk(n, p, spools[p]);
  }

  lemma LeftMore(start: map<Sub, nat>, left: map<Sub, Answer>, quit: set<Sub>, leaves: Leaves, s: Sub)
    requires LeftOk(start, left, quit, leaves) && s in start
    ensures LeftOk(start, left[s := Unasked], quit + {s}, leaves)
  {
  }

  lemma HonouredMore(start: map<Sub, nat>, got: map<Sub, seq<Msg>>, left: map<Sub, Answer>, leaves: Leaves, s: Sub)
    requires Honoured(start, got, left, leaves) && s in start && s !in left
    ensures Honoured(start, got, left[s := Unasked], leaves)
  {
    forall t | t in start && t in got ensures HonouredBy(t, start[t], |got[t]|, left[s := Unasked], leaves) {
      assert HonouredBy(t, start[t], |got[t]|, left, leaves);
    }
  }

  lemma WithoutSettled(st: State, s: Sub, leaves: Leaves)
    requires Settled(st, leaves) && s in st.start && s !in st.left
    ensures Pos(st.start, st.got, s) in st.spools
    ensures Settled(Without(st, Pos(st.start, st.got, s), s), leaves)
  {
    Whereabouts(st, leaves, s);
    Removed(st, Pos(st.start, st.got, s), s, leaves);
  }

  /** Where a subscriber is that has not gone away. */
  lemma Whereabouts(st: State, leaves: Leaves, s: Sub)
    requires Settled(st, leaves) && s in st.start && s !in st.left
    ensures s in st.got && In(st.spools, Pos(st.start, st.got, s), s)
  {
    assert s in st.got;
    KeptIn(st.spools, st.start, st.got, st.left, s);
  }

  lemma RemovedSubs(spools: map<nat, Spool>, start: map<Sub, nat>, got: map<Sub, seq<Msg>>, left: map<Sub, Answer>,
                    p: nat, s: Sub)
    requires SubsOk(spools, start, got, left) && Kept(spools, start, got, left) && p in spools && s in spools[p].subs
    ensures SubsOk(spools[p := spools[p].(subs := spools[p].subs - {s})], start, got, left[s := Unasked])
    ensures Kept(spools[p := spools[p].(subs := spools[p].subs - {s})], start, got, left[s := Unasked])
  {
    var spools', left' := spools[p := spools[p].(subs := spools[p].subs - {s})], left[s := Unasked];
    assert SubsAt(p, spools[p].subs, start, got, left);
    forall q | q in spools' ensures SubsAt(q, spools'[q].subs, start, got, left') {
      assert SubsAt(q, spools[q].subs, start, got, left);
    }
    forall t | t in start && t in got && t !in left' ensures In(spools', Pos(start, got, t), t) {
      assert In(spools, Pos(start, got, t), t);
    }
  }

  lemma Published(st: State, m: Msg, leaves: Leaves, st': State)
    requires Settled(st, leaves) && st' == st.(log := st.log + [m])
    ensures Delivered(st', leaves) && Others(st'.spools, |st'.log|, |st.log|)
    ensures |st.log| in st.spools ==> Busy(st', |st.log|, leaves)
  {
    GotExtends(st.log, m, st.start, st.got);
    assert Others(st'.spools, |st'.log|, |st.log|);
    assert OthersQuiet(st'.spools, leaves, |st.log|);
  }

  lemma GotExtends(log: seq<Msg>, m: Msg, start: map<Sub, nat>, got: map<Sub, seq<Msg>>)
    requires GotOk(log, start, got)
    ensures GotOk(log + [m], start, got)
  {
    forall s | s in start ensures got[s] == (log + [m])[start[s]..start[s] + |got[s]|] {
    }
  }

  lemma Disarmed(st: State, p: nat, leaves: Leaves)
    requires Settled(st, leaves) && p in st.spools
    ensures Busy(st.(spools := st.spools[p := st.spools[p].(timer := false)]), p, leaves)
    ensures st.spools[p].status == Expected ==>
              Settled(st.(spools := st.spools[p := st.spools[p].(timer := false)]), leaves)
  {
    assert Others(st.spools, |st.log|, p);
    Restated(st, p, leaves, st.spools[p].(timer := false));
  }

  lemma Spent(spools: map<nat, Spool>, p: nat, sp: Spool)
    requires p in spools && spools[p].timer && !sp.timer
    ensures Timers(spools[p := sp]) < Timers(spools)
  {
    assert p in Timers(spools) && p !in Timers(spools[p := sp]);
  }

  lemma AtHead(spools: map<nat, Spool>, n: nat, p: nat, s: Sub)
    requires AllOk(spools, n) && Timers(spools) == {} && In(spools, p, s)
    ensures p == n
  {
    assert p !in Timers(spools);
  }

  lemma Whole(log: seq<Msg>, start: map<Sub, nat>, got: map<Sub, seq<Msg>>, s: Sub)
    requires GotOk(log, start, got) && s in start && start[s] + |got[s]| == |log|
    ensures got[s] == log[start[s]..]
  {
  }

  lemma KeptIn(spools: map<nat, Spool>, start: map<Sub, nat>, got: map<Sub, seq<Msg>>, left: map<Sub, Answer>, s: Sub)
    requires Kept(spools, start, got, left) && s in start && s in got && s !in left
    ensures In(spools, Pos(start, got, s), s)
  {
  }

  /** With no timer armed, everybody who has not gone away has the whole log from where they joined. */
  lemma CaughtUp(st: State, leaves: Leaves, s: Sub)
    requires Settled(st, leaves) && Timers(st.spools) == {} && s in st.start && s !in st.left
    ensures s in st.got && st.got[s] == st.log[st.start[s]..]
  {
    assert s in st.got;
    KeptIn(st.spools, st.start, st.got, st.left, s);
    AtHead(st.spools, |st.log|, st.start[s] + |st.got[s]|, s);
    Whole(st.log, st.start, st.got, s);
  }

  /** Who has left upon what: exactly those who leave upon a message have left upon it when they received it,
      and those who leave when there is nothing yet are in no spool that says so. */
  lemma LeftIff(st: State, leaves: Leaves, s: Sub, q: nat)
    requires Settled(st, leaves) && s in st.start
    ensures s in st.got
    ensures s in st.left && st.left[s] == Unasked <==> s in st.quit
    ensures s in st.left && st.left[s] == NoContent ==> leaves(s, NoContent)
    ensures s in st.left && st.left[s] == Message(q) <==>
              st.start[s] <= q < st.start[s] + |st.got[s]| && leaves(s, Message(q))
    ensures forall p :: In(st.spools, p, s) && st.spools[p].status == Expected ==> !leaves(s, NoContent)
  {
    assert HonouredBy(s, st.start[s], |st.got[s]|, st.left, leaves);
    forall p | In(st.spools, p, s) && st.spools[p].status == Expected ensures !leaves(s, NoContent) {
      assert Quiet(st.spools[p], leaves);
    }
  }

  class Spooler {
    const leaves: Leaves
    var log: seq<Msg>
    var spools: map<nat, Spool>
    var start: map<Sub, nat>
    var got: map<Sub, seq<Msg>>
    var left: map<Sub, Answer>
    ghost var quit: set<Sub>
    /** How often the store's `get_message` has been called. */
    var gets: nat

    ghost function View(): State
      reads this
    {
      State(log, spools, start, got, left, quit)
    }

    constructor (log: seq<Msg>, leaves: Leaves)
      ensures Settled(View(), leaves) && this.leaves == leaves && this.log == log && start == map[] && quit == {}
    {
      this.leaves, this.log := leaves, log;
      spools, start, got, left, gets, quit := map[], map[], map[], map[], 0, {};
    }

    /** Answer everybody in the spool at `p`. */
    method RespondGeneral(p: nat, a: Answer)
      requires p in spools && (a.Message? ==> a.pos == p < |log|)
      modifies this
      ensures View() == old(Answered(View(), p, spools[p].subs, a, leaves)) && gets == old(gets)
    {
      Respond(p, spools[p].subs, a);
    }

    /** Answer subscribers `to` of the spool at `p`. */
    method Respond(p: nat, to: set<Sub>, a: Answer)
      requires p in spools && (a.Message? ==> a.pos == p < |log|)
      modifies this
      ensures View() == old(Answered(View(), p, to, a, leaves)) && gets == old(gets)
    {
      var go := Leaving(to, a, leaves);
      if a.Message? { got := Deliver(got, to, log[p]); }
      left := map s | s in left.Keys + go :: if s in go then a else left[s];
      spools := spools[p := spools[p].(subs := spools[p].subs - go)];
    }

    method FetchMsg(p: nat, now: nat) returns (ghost q: nat)
      requires Busy(View(), p, leaves) && spools[p].status == Invalid
      modifies this
      ensures Settled(View(), leaves) && log == old(log) && start == old(start) && quit == old(quit)
      ensures q <= |log| && Advanced(old(spools), spools, p, q)
      ensures q > p || spools[p].status == Expected
           || (old(spools[p].prevMsec == now && spools[p].count > 20) && spools[p].count == 0)
      ensures gets <= old(gets) + Allowance(old(spools[p]), now) + 22 * |Above(old(spools), p)|
      decreases |log| - p, 3
    {
      var sp := spools[p];
      if sp.prevMsec == now {
        if sp.count > MAX_TIMES {
          Restated(View(), p, leaves, sp.(timer := true, count := 0));
          spools := spools[p := sp.(timer := true, count := 0)];
          return p;
        }
        sp := sp.(count := sp.count + 1);
      } else {
        sp := sp.(count := 0, prevMsec := now);
      }
      Restated(View(), p, leaves, sp.(status := Pending));
      spools := spools[p := sp.(status := Pending)];
      assert Above(spools, p) == Above(old(spools), p);
      gets := gets + 1;
      q := FetchMsgCallback(p, now);
    }

    /** The store's answer. */
    method FetchMsgCallback(p: nat, now: nat) returns (ghost q: nat)
      requires Busy(View(), p, leaves) && spools[p].status == Pending
      modifies this
      ensures Settled(View(), leaves) && log == old(log) && start == old(start) && quit == old(quit)
      ensures q <= |log| && Advanced(old(spools), spools, p, q) && (q == p ==> spools[p].status == Expected)
      ensures gets <= old(gets) + Allowance(old(spools[p]), now) + 22 * |Above(old(spools), p)|
      decreases |log| - p, 2
    {
      if p < |log| {
        Restated(View(), p, leaves, spools[p].(status := Found));
        spools := spools[p := spools[p].(status := Found)];
        assert Above(spools, p) == Above(old(spools), p);
        q := HandOver(p, now);
      } else {
        Restated(View(), p, leaves, spools[p].(status := Expected));
        spools := spools[p := spools[p].(status := Expected)];
        ToldNothingYet(View(), p, spools[p].subs, leaves, Answered(View(), p, spools[p].subs, NoContent, leaves));
        RespondGeneral(p, NoContent);
        q := p;
      }
    }

    /** Answer the spool at `p` with its message and move it on. */
    method HandOver(p: nat, now: nat) returns (ghost q: nat)
      requires Busy(View(), p, leaves) && p < |log|
      modifies this
      ensures Settled(View(), leaves) && log == old(log) && start == old(start) && quit == old(quit)
      ensures p < q <= |log| && Advanced(old(spools), spools, p, q)
      ensures gets <= old(gets) + Allowance(old(spools[p]), now) + 22 * |Above(old(spools), p)|
      decreases |log| - p, 1
    {
      HandedOver(View(), p, leaves, Answered(View(), p, spools[p].subs, Message(p), leaves));
      RespondGeneral(p, Message(p));
      assert Above(spools, p) == Above(old(spools), p);
      q := NextMsg(p, now);
    }

    method NextMsg(p: nat, now: nat) returns (ghost q: nat)
      requires p in spools && p < |log| && KeyOk(|log|, p, spools[p])
      requires Busy(View().(spools := Moved(spools, p)), p + 1, leaves)
      requires p + 1 in spools ==> KeyOk(|log|, p + 1, spools[p + 1]) && SpoolOk(|log|, p + 1, spools[p + 1])
      modifies this
      ensures Settled(View(), leaves) && log == old(log) && start == old(start) && quit == old(quit)
      ensures p < q <= |log| && Advanced(old(spools), spools, p, q)
      ensures gets <= old(gets) + Allowance(old(spools[p]), now) + 22 * |Above(old(spools), p)|
      decreases |log| - p, 0
    {
      AboveMoved(spools, p);
      if p + 1 in spools {
        spools := spools[p + 1 := spools[p + 1].(subs := spools[p + 1].subs + spools[p].subs)];
        spools := spools - {p};
      } else {
        spools := (spools - {p})[p + 1 := spools[p].(status := Invalid)];
      }
      assert spools == Moved(old(spools), p);
      q := React(p + 1, now);
      AdvancedMoved(old(spools), p, spools, q);
    }

    /** What a spool that has been moved to or joined needs. */
    method React(p: nat, now: nat) returns (ghost q: nat)
      requires Busy(View(), p, leaves)
      requires spools[p].status == Invalid || (spools[p].status == Expected && p == |log|)
      modifies this
      ensures Settled(View(), leaves) && log == old(log) && start == old(start) && quit == old(quit)
      ensures q <= |log| && Advanced(old(spools), spools, p, q)
      ensures gets <= old(gets) + Allowance(old(spools[p]), now) + 22 * |Above(old(spools), p)|
      decreases |log| - p, 4
    {
      q := p;
      if spools[p].subs != {} {
        match spools[p].status {
          case Invalid => q := FetchMsg(p, now);
          case Expected =>
            ToldNothingYet(View(), p, spools[p].subs, leaves, Answered(View(), p, spools[p].subs, NoContent, leaves));
            RespondGeneral(p, NoContent);
          case _ =>
        }
      } else {
        Restated(View(), p, leaves, spools[p]);
        assert spools[p := spools[p]] == spools;
      }
    }

    method Enlist(s: Sub, p: nat)
      requires Settled(View(), leaves) && s !in start && p <= |log|
      modifies this
      ensures Busy(View(), p, leaves) && log == old(log) && start == old(start)[s := p] && gets == old(gets)
      ensures quit == old(quit)
      ensures |spools| <= old(|spools|) + 1 && s in spools[p].subs
      ensures spools[p].status == Expected ==> forall t :: t in spools[p].subs - {s} ==> !leaves(t, NoContent)
      ensures spools[p].status == Invalid || (spools[p].status == Expected && p == |log|)
    {
      var sp := if p in spools then spools[p] else NEW_SPOOL;
      assert p in spools ==> Quiet(spools[p], leaves);
      Joined(View(), p, s, leaves, sp, View().(spools := spools[p := sp.(subs := sp.subs + {s})],
                                               start := start[s := p], got := got[s := []]));
      spools := spools[p := sp.(subs := sp.subs + {s})];
      start, got := start[s := p], got[s := []];
    }

    /** A subscriber joins behind the first `p` messages, or fails to be enqueued there. */
    method AddSubscriber(s: Sub, p: nat, now: nat, enqueued: bool)
      requires Settled(View(), leaves) && s !in start && p <= |log|
      modifies this
      ensures Settled(View(), leaves) && log == old(log) && quit == old(quit)
      ensures start == if enqueued then old(start)[s := p] else old(start)
      ensures gets <= old(gets) + 22 * (old(|spools|) + 1)
    {
      if !enqueued {
        EmptySpool(View(), p, leaves);
        if p !in spools { spools := spools[p := NEW_SPOOL]; }
        return;
      }
      Enlist(s, p);
      AllAbove(spools, p);
      match spools[p].status {
        case Invalid => ghost var q := FetchMsg(p, now);
        case Expected =>
          ToldNothingYet(View(), p, {s}, leaves, Answered(View(), p, {s}, NoContent, leaves));
          Respond(p, {s}, NoContent);
        case _ =>
      }
    }

    method Remove(p: nat, s: Sub)
      requires p in spools
      modifies this
      ensures View() == Without(old(View()), p, s) && gets == old(gets)
    {
      spools := spools[p := spools[p].(subs := spools[p].subs - {s})];
      left, quit := left[s := Unasked], quit + {s};
    }

    /** A subscriber goes away on its own. */
    method Dequeue(s: Sub)
      requires Settled(View(), leaves) && s in start && s !in left
      modifies this
      ensures Settled(View(), leaves) && log == old(log) && start == old(start) && got == old(got)
      ensures left == old(left)[s := Unasked] && quit == old(quit) + {s} && gets == old(gets)
    {
      WithoutSettled(View(), s, leaves);
      Remove(Pos(start, got, s), s);
    }

    /** A message is published: the spool at the head of the log receives it. */
    method Publish(m: Msg, now: nat)
      requires Settled(View(), leaves)
      modifies this
      ensures Settled(View(), leaves) && log == old(log) + [m] && start == old(start) && quit == old(quit)
      ensures gets <= old(gets) + 22 * old(|spools|)
    {
      Published(View(), m, leaves, View().(log := log + [m]));
      log := log + [m];
      if |log| - 1 in spools {
        AllAbove(spools, |log| - 1);
        ghost var q := HandOver(|log| - 1, now);
      }
    }

    /** The timer of the spool at `p` fires. */
    method TimerFires(p: nat, now: nat)
      requires Settled(View(), leaves) && p in spools && spools[p].timer
      modifies this
      ensures Settled(View(), leaves) && log == old(log) && start == old(start) && quit == old(quit)
      ensures gets <= old(gets) + 22 * old(|spools|)
      ensures Load(spools, |log|, 0) < old(Load(spools, |log|, 0))
           || (Load(spools, |log|, 0) == old(Load(spools, |log|, 0)) && Timers(spools) < old(Timers(spools)))
    {
      var sp := spools[p].(timer := false);
      Disarmed(View(), p, leaves);
      ghost var was := spools;
      spools := spools[p := sp];
      if spools[p].status == Invalid {
        AllAbove(spools, p);
        ghost var q := FetchMsg(p, now);
        LoadDrops(was, spools, |log|, p, q, 0);
      } else {
        LoadUnmoved(was, |log|, p, sp, 0);
        Spent(was, p, sp);
      }
    }

    /** Timers firing one after another, in any order and at any time, until none is left. */
    method RunTimers()
      requires Settled(View(), leaves)
      modifies this
      ensures Settled(View(), leaves) && log == old(log) && start == old(start) && quit == old(quit)
      ensures Timers(spools) == {}
      ensures forall s :: s in start && s !in left ==> s in got && got[s] == log[start[s]..]
    {
      while Timers(spools) != {}
        invariant Settled(View(), leaves) && log == old(log) && start == old(start) && quit == old(quit)
        decreases Load(spools, |log|, 0), Timers(spools)
      {
        var p :| p in Timers(spools);
        var now: nat := *;
        TimerFires(p, now);
      }
      forall s | s in start && s !in left ensures s in got && got[s] == log[start[s]..] {
        CaughtUp(View(), leaves, s);
      }
    }
  }
}
