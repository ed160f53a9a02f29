/** The correction `redis-trib` makes before it rebalances: the slots that rounding left over are spread
    over the nodes that are to receive slots, one at a time. */
module BalanceCorrection {
  import opened Ordering

  datatype State = State(balance: seq<int>, total: int)

  ghost predicate HasNegative(balance: seq<int>) {
    exists i :: 0 <= i < |balance| && balance[i] < 0
  }

  /** One pass over the first `i` nodes. */
  function PassUpTo(s: State, i: nat): (r: State)
    requires i <= |s.balance|
    ensures |r.balance| == |s.balance|
  {
    if i == 0 then s
    else
      var r := PassUpTo(s, i - 1);
      if r.balance[i - 1] < 0 && r.total > 0 then State(r.balance[i - 1 := r.balance[i - 1] - 1], r.total - 1) else r
  }

  function Pass(s: State): State {
    PassUpTo(s, |s.balance|)
  }

  function Passes(s: State, k: nat): State {
    if k == 0 then s else Pass(Passes(s, k - 1))
  }

  lemma {:induction false} PassSum(s: State, i: nat)
    requires i <= |s.balance| && s.total >= 0
    ensures var r := PassUpTo(s, i);
            0 <= r.total <= s.total && Sum(r.balance) - r.total == Sum(s.balance) - s.total
  {
    if i > 0 {
      PassSum(s, i - 1);
      var r := PassUpTo(s, i - 1);
      if r.balance[i - 1] < 0 && r.total > 0 {
        SumUpdate(r.balance, i - 1, r.balance[i - 1] - 1);
        assert PassUpTo(s, i) == State(r.balance[i - 1 := r.balance[i - 1] - 1], r.total - 1);
      } else {
        assert PassUpTo(s, i) == r;
      }
    }
  }

  /** What a pass over the first `i` nodes does to node `j`. */
  ghost predicate PassedNode(was: int, now: int, reached: bool, left: int) {
    if was >= 0 || !reached then now == was
    else was - 1 <= now <= was && (left > 0 ==> now == was - 1)
  }

  lemma {:induction false} PassAt(s: State, i: nat, j: nat)
    requires i <= |s.balance| && s.total >= 0 && j < |s.balance|
    ensures PassedNode(s.balance[j], PassUpTo(s, i).balance[j], j < i, PassUpTo(s, i).total)
  {
    if i > 0 {
      PassAt(s, i - 1, j);
      PassSum(s, i - 1);
    }
  }

  /** Nodes that give are left alone; nodes that receive get one more, as long as any are left over. */
  lemma PassUpToIs(s: State, i: nat)
    requires i <= |s.balance| && s.total >= 0
    ensures var r := PassUpTo(s, i);
            && 0 <= r.total <= s.total && Sum(r.balance) - r.total == Sum(s.balance) - s.total
            && (forall j :: 0 <= j < |s.balance| ==> PassedNode(s.balance[j], r.balance[j], j < i, r.total))
  {
    PassSum(s, i);
    forall j | 0 <= j < |s.balance|
      ensures PassedNode(s.balance[j], PassUpTo(s, i).balance[j], j < i, PassUpTo(s, i).total)
    {
      PassAt(s, i, j);
    }
  }

  /** A pass makes progress if some node is to receive slots, and otherwise changes nothing. */
  lemma {:induction false} PassProgress(s: State, i: nat, k: nat)
    requires i <= |s.balance| && s.total > 0 && k < i && s.balance[k] < 0
    ensures PassUpTo(s, i).total < s.total
  {
    PassUpToIs(s, i - 1);
    if k < i - 1 { PassProgress(s, i - 1, k); }
  }

  lemma {:induction false} PassIdle(s: State, i: nat)
    requires i <= |s.balance| && forall j :: 0 <= j < |s.balance| ==> s.balance[j] >= 0
    ensures PassUpTo(s, i) == s
  {
    if i > 0 { PassIdle(s, i - 1); }
  }

  lemma {:induction false} PassesIdle(s: State, k: nat)
    requires !HasNegative(s.balance)
    ensures Passes(s, k) == s
  {
    if k > 0 {
      PassesIdle(s, k - 1);
      PassIdle(s, |s.balance|);
    }
  }

  /** While slots are left over, every receiving node has got one per pass. */
  lemma {:induction false} PassesEven(s: State, k: nat)
    requires s.total >= 0
    ensures var r := Passes(s, k);
            && |r.balance| == |s.balance| && 0 <= r.total && Sum(r.balance) - r.total == Sum(s.balance) - s.total
            && (r.total > 0 ==>
                 forall j :: 0 <= j < |s.balance| && s.balance[j] < 0 ==> r.balance[j] == s.balance[j] - k)
  {
    if k > 0 {
      PassesEven(s, k - 1);
      var q := Passes(s, k - 1);
      PassUpToIs(q, |q.balance|);
    }
  }

  lemma {:induction false} PassesProgress(s: State, k: nat)
    requires s.total >= 0 && HasNegative(s.balance)
    ensures Passes(s, k).total <= if k < s.total then s.total - k else 0
  {
    if k > 0 {
      PassesProgress(s, k - 1);
      PassesEven(s, k - 1);
      var q := Passes(s, k - 1);
      PassUpToIs(q, |q.balance|);
      if q.total > 0 {
        var j :| 0 <= j < |s.balance| && s.balance[j] < 0;
        assert q.balance[j] == s.balance[j] - (k - 1) < 0;
        PassProgress(q, |q.balance|, j);
      }
    }
  }

  /** The `while` loop around the passes ends exactly when nothing is left over to begin with or some
      node is to receive slots. */
  lemma CorrectionEndsIff(s: State)
    ensures (exists k: nat :: Passes(s, k).total <= 0) <==> s.total <= 0 || HasNegative(s.balance)
  {
    if s.total <= 0 {
      assert Passes(s, 0).total <= 0;
    } else if HasNegative(s.balance) {
      PassesProgress(s, s.total);
    } else {
      forall k: nat ensures Passes(s, k).total > 0 { PassesIdle(s, k); }
    }
  }

  /** What the correction gives: `rounds` more for each receiving node, or one less than that. */
  ghost predicate Corrected(was: seq<int>, now: seq<int>, rounds: nat) {
    && |now| == |was|
    && (forall i :: 0 <= i < |was| && was[i] >= 0 ==> now[i] == was[i])
    && (forall i :: 0 <= i < |was| && was[i] < 0 ==>
          was[i] - rounds <= now[i] <= was[i] && now[i] <= was[i] - rounds + 1)
  }

  lemma CorrectedStep(was: seq<int>, rounds: nat)
    requires Sum(was) > 0 && Passes(State(was, Sum(was)), rounds).total > 0
    requires Corrected(was, Passes(State(was, Sum(was)), rounds).balance, rounds)
    ensures Corrected(was, Passes(State(was, Sum(was)), rounds + 1).balance, rounds + 1)
  {
    var s := State(was, Sum(was));
    PassesEven(s, rounds);
    var q := Passes(s, rounds);
    PassUpToIs(q, |q.balance|);
  }

  /** One pass, in place. */
  method OnePass(balance0: seq<int>, total0: int) returns (balance: seq<int>, total: int)
    ensures State(balance, total) == Pass(State(balance0, total0))
  {
    balance, total := balance0, total0;
    for i := 0 to |balance|
      invariant State(balance, total) == PassUpTo(State(balance0, total0), i)
    {
      if balance[i] < 0 && total > 0 {
        balance := balance[i := balance[i] - 1];
        total := total - 1;
      }
    }
  }

  method Correct(was: seq<int>) returns (balance: seq<int>)
    requires Sum(was) <= 0 || HasNegative(was)
    ensures exists rounds: nat :: Corrected(was, balance, rounds)
    ensures Sum(balance) == if Sum(was) > 0 then 0 else Sum(was)
  {
    balance := was;
    ghost var rounds: nat := 0;
    var total := Sum(was);
    ghost var s := State(was, total);
    while total > 0
      invariant State(balance, total) == Passes(s, rounds) && Corrected(was, balance, rounds)
      invariant s.total <= 0 ==> rounds == 0
      decreases s.total - rounds
    {
      PassesProgress(s, rounds);
      CorrectedStep(was, rounds);
      balance, total := OnePass(balance, total);
      rounds := rounds + 1;
    }
    if s.total > 0 { PassesEven(s, rounds); }
  }
}
