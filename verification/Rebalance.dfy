/** `rebalance_cluster_cmd`: slots move between masters until every master holds its share. */
module Rebalance {
  import opened Basics
  import opened Ordering
  import opened BalanceCorrection
  import Reshard

  // ---- Who owns which slots -------------------------------------------------------------------------

  ghost predicate HasOwner(slots: seq<set<nat>>, x: nat) {
    exists i :: 0 <= i < |slots| && x in slots[i]
  }

  /** Every slot below `n` has exactly one owner, and there are no others. */
  ghost predicate Owned(slots: seq<set<nat>>, n: nat) {
    && (forall i, x :: 0 <= i < |slots| && x in slots[i] ==> x < n)
    && (forall x :: 0 <= x < n ==> HasOwner(slots, x))
    && (forall i, j, x :: 0 <= i < j < |slots| && x in slots[i] ==> x !in slots[j])
  }

  /** The slots in `moved` have gone from `src` to `dst`. */
  function Shifted(slots: seq<set<nat>>, src: nat, dst: nat, moved: set<nat>): seq<set<nat>>
    requires src < |slots| && dst < |slots|
  {
    slots[src := slots[src] - moved][dst := slots[dst] + moved]
  }

  lemma ShiftedOwned(slots: seq<set<nat>>, src: nat, dst: nat, moved: set<nat>, n: nat)
    requires src < |slots| && dst < |slots| && src != dst && moved <= slots[src] && Owned(slots, n)
    ensures Owned(Shifted(slots, src, dst, moved), n)
  {
    var s := Shifted(slots, src, dst, moved);
    forall x | 0 <= x < n ensures HasOwner(s, x) {
      assert HasOwner(slots, x);
      var i :| 0 <= i < |slots| && x in slots[i];
      if x in moved { assert x in s[dst]; } else { assert x in s[i]; }
    }
  }

  lemma ShiftedMore(slots: seq<set<nat>>, src: nat, dst: nat, moved: set<nat>, x: nat)
    requires src < |slots| && dst < |slots| && src != dst
    ensures Shifted(Shifted(slots, src, dst, moved), src, dst, {x}) == Shifted(slots, src, dst, moved + {x})
    ensures Shifted(slots, src, dst, {}) == slots
  {
    assert slots[src] - moved - {x} == slots[src] - (moved + {x});
    assert slots[dst] + moved + {x} == slots[dst] + (moved + {x});
    assert slots[src] - {} == slots[src] && slots[dst] + {} == slots[dst];
  }

  lemma ShiftedSizes(slots: seq<set<nat>>, src: nat, dst: nat, moved: set<nat>, n: nat)
    requires src < |slots| && dst < |slots| && src != dst && moved <= slots[src] && Owned(slots, n)
    ensures var s := Shifted(slots, src, dst, moved);
            && |s| == |slots| && |s[src]| == |slots[src]| - |moved| && |s[dst]| == |slots[dst]| + |moved|
            && forall i :: 0 <= i < |slots| && i != src && i != dst ==> s[i] == slots[i]
  {
    assert slots[dst] !! moved;
  }

  // ---- The two-pointer loop -------------------------------------------------------------------------

  /** Between the pointers those that receive come before those that give. */
  ghost predicate Signs(v: seq<int>, dst: int, src: int) {
    && 0 <= dst && src < |v|
    && (forall i, j :: dst <= i < j <= src && v[i] > 0 ==> v[j] > 0)
    && (forall i, j :: dst <= i < j <= src && v[j] < 0 ==> v[i] < 0)
  }

  /** And if the balances add up to zero, the nodes outside are settled. */
  ghost predicate Closing(v: seq<int>, dst: int, src: int) {
    Signs(v, dst, src) && Sum(v) == 0 && forall i :: 0 <= i < |v| && !(dst <= i <= src) ==> v[i] == 0
  }

  lemma SortedCloses(v: seq<int>)
    requires Ascending(v)
    ensures Signs(v, 0, |v| - 1) && (Sum(v) == 0 ==> Closing(v, 0, |v| - 1))
  {
  }

  /** The first is to receive and the last to give, the one exactly when the other is. */
  lemma EndsMeet(v: seq<int>, dst: int, src: int)
    requires Closing(v, dst, src) && dst < src
    ensures v[dst] <= 0 <= v[src] && (v[dst] == 0 <==> v[src] == 0)
  {
    if v[dst] >= 0 {
      assert forall i :: 0 <= i < |v| ==> v[i] >= 0;
      SumAtLeast(v, dst);
      SumAtLeast(v, src);
    } else if v[src] <= 0 {
      assert forall i :: 0 <= i < |v| ==> v[i] <= 0;
      SumAtMost(v, dst);
    }
  }

  function Abs(x: int): nat {
    if x < 0 then -x else x
  }

  function Step(v: seq<int>, dst: int, src: int, num: int): seq<int>
    requires 0 <= dst < src < |v|
  {
    v[dst := v[dst] + num][src := v[src] - num]
  }

  /** What a round without a settled node still brings down, whatever the balances add up to. */
  function Effort(v: seq<int>, dst: int, src: int): nat
    requires 0 <= dst < |v| && 0 <= src < |v|
  {
    if v[dst] < 0 then -v[dst] else Abs(v[src])
  }

  /** Where the pointers are after a round. */
  function DstAfter(v: seq<int>, dst: int): int
    requires 0 <= dst < |v|
  {
    if v[dst] == 0 then dst + 1 else dst
  }

  function SrcAfter(v: seq<int>, src: int): int
    requires 0 <= src < |v|
  {
    if v[src] == 0 then src - 1 else src
  }

  lemma StepSigns(v: seq<int>, dst: int, src: int, num: int)
    requires Signs(v, dst, src) && dst < src && num == Min(Abs(v[dst]), Abs(v[src]))
    ensures var w := Step(v, dst, src, num);
            && Signs(w, DstAfter(w, dst), SrcAfter(w, src))
            && (w[dst] == 0 || w[src] == 0 || Effort(w, dst, src) < Effort(v, dst, src))
  {
  }

  lemma StepCloses(v: seq<int>, dst: int, src: int, num: int)
    requires Closing(v, dst, src) && dst < src && num == Min(Abs(v[dst]), Abs(v[src]))
    ensures var w := Step(v, dst, src, num);
            && v[src] >= num && (w[dst] == 0 || w[src] == 0)
            && Closing(w, DstAfter(w, dst), SrcAfter(w, src))
  {
    EndsMeet(v, dst, src);
    StepSigns(v, dst, src, num);
    SumUpdate(v, dst, v[dst] + num);
    SumUpdate(v[dst := v[dst] + num], src, v[src] - num);
  }

  /** When the pointers have met everybody is settled. */
  lemma MetSettled(v: seq<int>, dst: int, src: int)
    requires Closing(v, dst, src) && dst >= src
    ensures forall i :: 0 <= i < |v| ==> v[i] == 0
  {
    if dst == src {
      if v[dst] >= 0 { SumAtLeast(v, dst); } else { SumAtMost(v, dst); }
    }
  }

  lemma ListedUpdate(balance: seq<int>, order: seq<nat>, i: nat, x: int)
    requires IsOrder(order, |balance|) && i < |order|
    ensures Listed(balance[order[i] := x], order) == Listed(balance, order)[i := x]
  {
    var l, l' := Listed(balance, order), Listed(balance[order[i] := x], order);
    forall j | 0 <= j < |order| ensures l'[j] == l[i := x][j] {
      if j < i { assert order[j] != order[i]; } else if j > i { assert order[i] != order[j]; }
    }
  }

  lemma AllZero(balance: seq<int>, order: seq<nat>)
    requires IsOrder(order, |balance|) && forall k :: 0 <= k < |order| ==> Listed(balance, order)[k] == 0
    ensures forall i :: 0 <= i < |balance| ==> balance[i] == 0
  {
    forall i | 0 <= i < |balance| ensures balance[i] == 0 {
      assert i in order;
      var k :| 0 <= k < |order| && order[k] == i;
      assert Listed(balance, order)[k] == balance[i];
    }
  }

  lemma ListedTwice(balance: seq<int>, order: seq<nat>, dst: int, src: int, num: int)
    requires IsOrder(order, |balance|) && 0 <= dst < src < |order|
    ensures order[dst] != order[src]
    ensures var d, s := order[dst], order[src];
            Listed(balance[d := balance[d] + num][s := balance[s] - num], order)
              == Step(Listed(balance, order), dst, src, num)
  {
    var d, s := order[dst], order[src];
    ListedUpdate(balance, order, dst, balance[d] + num);
    ListedUpdate(balance[d := balance[d] + num], order, src, balance[s] - num);
  }

  // ---- Moving slots ---------------------------------------------------------------------------------

  function SlotsIn(table: seq<Reshard.Move>): set<nat> {
    set e | e in table :: e.slot
  }

  lemma {:induction false} SlotsInSize(table: seq<Reshard.Move>)
    requires forall i, j :: 0 <= i < j < |table| ==> table[i].slot != table[j].slot
    ensures |SlotsIn(table)| == |table|
  {
    if table != [] {
      var k := |table| - 1;
      SlotsInSize(table[..k]);
      SlotsInSnoc(table, k);
      assert table[k].slot !in SlotsIn(table[..k]);
    }
  }

  lemma NextSlot(table: seq<Reshard.Move>, k: nat)
    requires k < |table| && |SlotsIn(table)| == |table|
    ensures SlotsIn(table[..k + 1]) == SlotsIn(table[..k]) + {table[k].slot}
    ensures table[k].slot in SlotsIn(table) && table[k].slot !in SlotsIn(table[..k])
  {
    SlotsInSnoc(table, k);
    Distinct(table, k);
  }

  /** A table with as many slots as entries has no slot twice. */
  lemma {:induction false} Distinct(table: seq<Reshard.Move>, k: nat)
    requires k < |table| && |SlotsIn(table)| == |table|
    ensures table[k].slot !in SlotsIn(table[..k])
    decreases |table|
  {
    var n := |table| - 1;
    SlotsInSnoc(table, n);
    AtMost(table[..n]);
    if k < n {
      Distinct(table[..n], k);
      assert table[..n][..k] == table[..k];
    }
  }

  lemma {:induction false} AtMost(table: seq<Reshard.Move>)
    ensures |SlotsIn(table)| <= |table|
  {
    if table != [] {
      var n := |table| - 1;
      AtMost(table[..n]);
      SlotsInSnoc(table, n);
    }
  }

  lemma SlotsInSnoc(table: seq<Reshard.Move>, k: nat)
    requires k < |table|
    ensures SlotsIn(table[..k + 1]) == SlotsIn(table[..k]) + {table[k].slot}
    ensures table[..|table|] == table
  {
    assert table[..k + 1] == table[..k] + [table[k]];
    assert forall e :: e in table[..k + 1] <==> e in table[..k] || e == table[k];
  }

  /** A plan for one source has the right length exactly when the source has that many slots. */
  lemma OneSource(source: set<nat>, num: nat, plan: Reshard.Plan)
    requires num > 0
    requires plan == Reshard.NotANumber <==> Reshard.TotalSize([source]) == 0
    requires plan.Plan? ==> Reshard.TableOk([source], plan.table, num)
    requires plan.Plan? && num <= Reshard.TotalSize([source]) ==> |plan.table| >= num
    ensures plan.Plan? && |plan.table| == num <==> num <= |source|
    ensures plan.Plan? ==> SlotsIn(plan.table) <= source && |SlotsIn(plan.table)| == |plan.table|
  {
    assert Reshard.SizesOf([source]) == [|source|];
    assert Sum([|source|]) == |source| by { assert [|source|][..0] == []; }
    if plan.Plan? {
      OneSourceSlots(source, num, plan.table);
      SubsetSize(SlotsIn(plan.table), source);
    }
  }

  lemma OneSourceSlots(source: set<nat>, num: nat, t: seq<Reshard.Move>)
    requires Reshard.TableOk([source], t, num)
    ensures SlotsIn(t) <= source && |SlotsIn(t)| == |t|
  {
    forall i, j | 0 <= i < j < |t| ensures t[i].slot != t[j].slot {
      assert t[i] in t && t[j] in t;
    }
    SlotsInSize(t);
  }

  lemma SubsetSize(a: set<nat>, b: set<nat>)
    requires a <= b
    ensures |a| <= |b|
  {
    assert b == a + (b - a);
  }

  /** Each master holds its target once its balance is zero. */
  ghost predicate Held(slots: seq<set<nat>>, balance: seq<int>, target: seq<int>) {
    |slots| == |balance| == |target| && forall i :: 0 <= i < |slots| ==> |slots[i]| - balance[i] == target[i]
  }

  // ---- Shares by weight -----------------------------------------------------------------------------

  function TotalWeight(weights: seq<real>): real {
    if weights == [] then 0.0 else TotalWeight(weights[..|weights| - 1]) + weights[|weights| - 1]
  }

  /** Cut off towards zero. */
  function Trunc(x: real): int {
    if x >= 0.0 then x.Floor else -(-x).Floor
  }

  /** A master's share of `n` slots; with no weight at all there is none. */
  function Expected(n: nat, total: real, weight: real): int {
    if total == 0.0 then 0 else Trunc(n as real / total * weight)
  }

  function ExpectedOf(n: nat, total: real, weights: seq<real>): (l: seq<int>)
    ensures |l| == |weights| && forall i :: 0 <= i < |l| ==> l[i] == Expected(n, total, weights[i])
  {
    seq(|weights|, i requires 0 <= i < |weights| => Expected(n, total, weights[i]))
  }

  function Balances(sizes: seq<int>, expected: seq<int>): (l: seq<int>)
    requires |sizes| == |expected|
    ensures |l| == |sizes| && forall i :: 0 <= i < |l| ==> l[i] == sizes[i] - expected[i]
  {
    seq(|sizes|, i requires 0 <= i < |sizes| => sizes[i] - expected[i])
  }

  lemma {:induction false} SumBalances(a: seq<int>, b: seq<int>)
    requires |a| == |b|
    ensures Sum(Balances(a, b)) == Sum(a) - Sum(b)
  {
    if a != [] {
      var k := |a| - 1;
      SumBalances(a[..k], b[..k]);
      assert Balances(a, b)[..k] == Balances(a[..k], b[..k]);
    }
  }

  ghost predicate NotNegative(weights: seq<real>) {
    forall i :: 0 <= i < |weights| ==> weights[i] >= 0.0
  }

  lemma {:induction false} ExpectedSum(n: nat, total: real, weights: seq<real>)
    requires total > 0.0 && NotNegative(weights)
    ensures Sum(ExpectedOf(n, total, weights)) as real <= n as real / total * TotalWeight(weights)
  {
    if weights != [] {
      var k := |weights| - 1;
      ExpectedSum(n, total, weights[..k]);
      assert ExpectedOf(n, total, weights)[..k] == ExpectedOf(n, total, weights[..k]);
      Reshard.Distribute(n as real / total, TotalWeight(weights[..k]), weights[k]);
      ShareNotNegative(n, total, weights[k]);
    }
  }

  lemma ExpectedAtMostAll(n: nat, weights: seq<real>)
    requires TotalWeight(weights) > 0.0 && NotNegative(weights)
    ensures Sum(ExpectedOf(n, TotalWeight(weights), weights)) <= n
  {
    var t := TotalWeight(weights);
    ExpectedSum(n, t, weights);
    Undone(n as real, t);
  }

  lemma ShareNotNegative(n: nat, total: real, weight: real)
    requires total > 0.0 && weight >= 0.0
    ensures n as real / total * weight >= 0.0
  {
    assert n as real / total >= 0.0;
  }

  lemma ExpectedAll(n: nat, weights: seq<real>)
    requires TotalWeight(weights) > 0.0 && NotNegative(weights)
    ensures forall i :: 0 <= i < |weights| ==> ExpectedOf(n, TotalWeight(weights), weights)[i] >= 0
  {
    forall i | 0 <= i < |weights| ensures ExpectedOf(n, TotalWeight(weights), weights)[i] >= 0 {
      ShareNotNegative(n, TotalWeight(weights), weights[i]);
    }
  }

  // ---- What the shares are, without computing them ----------------------------------------------------

  /** The part of `n` slots that a weight stands for, cut off towards zero. */
  predicate IsShare(n: nat, total: real, weight: real, e: int)
    requires total != 0.0
  {
    var part := n as real * weight / total;
    if part >= 0.0 then e as real <= part < e as real + 1.0 else e as real - 1.0 < part <= e as real
  }

  /** The same for weights that are not negative, without a division. */
  predicate IsFloor(n: nat, total: real, weight: real, e: int) {
    e as real * total <= n as real * weight < (e + 1) as real * total
  }

  lemma Regroup(a: real, b: real, c: real)
    requires b != 0.0
    ensures a / b * c == a * c / b
  {
  }

  lemma ExpectedIsShare(n: nat, total: real, weight: real)
    requires total != 0.0
    ensures IsShare(n, total, weight, Expected(n, total, weight))
  {
    Regroup(n as real, total, weight);
  }

  lemma Scale(a: real, b: real, t: real)
    requires t > 0.0
    ensures a <= b / t <==> a * t <= b
    ensures b / t < a <==> b < a * t
  {
    var q := b / t;
    assert q * t == b;
    if a <= q { assert (q - a) * t >= 0.0; } else { assert (a - q) * t > 0.0; }
  }

  lemma PartNotNegative(n: nat, total: real, weight: real)
    requires total > 0.0 && weight >= 0.0
    ensures n as real * weight / total >= 0.0
  {
  }

  lemma ShareIsFloor(n: nat, total: real, weight: real, e: int)
    requires total > 0.0 && weight >= 0.0 && IsShare(n, total, weight, e)
    ensures IsFloor(n, total, weight, e) && e >= 0
  {
    PartNotNegative(n, total, weight);
    Scale(e as real, n as real * weight, total);
    Scale((e + 1) as real, n as real * weight, total);
  }

  /** All shares, and what they add up to: rounding loses less than a slot for each master. */
  ghost predicate SharesOk(n: nat, weights: seq<real>, shares: seq<int>) {
    var total := TotalWeight(weights);
    && |shares| == |weights| && (weights == [] || total != 0.0)
    && (forall i :: 0 <= i < |shares| ==> IsShare(n, total, weights[i], shares[i]))
    && (NotNegative(weights) && weights != [] ==>
          && n - |weights| < Sum(shares) <= n
          && forall i :: 0 <= i < |shares| ==> IsFloor(n, total, weights[i], shares[i]))
  }

  lemma {:induction false} ExpectedSumMore(n: nat, total: real, weights: seq<real>) returns (all: real)
    requires total > 0.0 && NotNegative(weights)
    ensures all == TotalWeight(weights)
    ensures weights != [] ==>
              Sum(ExpectedOf(n, total, weights)) as real > n as real / total * all - |weights| as real
  {
    all := TotalWeight(weights);
    if weights != [] {
      var k := |weights| - 1;
      var most := ExpectedSumMore(n, total, weights[..k]);
      assert ExpectedOf(n, total, weights)[..k] == ExpectedOf(n, total, weights[..k]);
      ShareNotNegative(n, total, weights[k]);
      FloorLoses(n as real / total * weights[k]);
      Reshard.Distribute(n as real / total, most, weights[k]);
    }
  }

  lemma FloorLoses(x: real)
    requires x >= 0.0
    ensures Trunc(x) as real > x - 1.0
  {
  }

  lemma ExpectedMoreThan(n: nat, weights: seq<real>)
    requires TotalWeight(weights) > 0.0 && NotNegative(weights) && weights != []
    ensures Sum(ExpectedOf(n, TotalWeight(weights), weights)) > n - |weights|
  {
    var t := TotalWeight(weights);
    var all := ExpectedSumMore(n, t, weights);
    MoreThan(Sum(ExpectedOf(n, t, weights)), n, t, all, |weights|);
  }

  lemma Undone(a: real, t: real)
    requires t != 0.0
    ensures a / t * t == a
  {
  }

  lemma MoreThan(sum: int, n: nat, t: real, all: real, k: nat)
    requires t == all > 0.0 && sum as real > n as real / t * all - k as real
    ensures sum > n - k
  {
    Undone(n as real, t);
  }

  lemma SharesAre(n: nat, weights: seq<real>)
    requires weights == [] || TotalWeight(weights) != 0.0
    ensures SharesOk(n, weights, ExpectedOf(n, TotalWeight(weights), weights))
  {
    var total := TotalWeight(weights);
    var shares := ExpectedOf(n, total, weights);
    forall i | 0 <= i < |shares| ensures IsShare(n, total, weights[i], shares[i]) {
      ExpectedIsShare(n, total, weights[i]);
    }
    if NotNegative(weights) && weights != [] {
      TotalNotNegative(weights);
      ExpectedAtMostAll(n, weights);
      ExpectedMoreThan(n, weights);
      forall i | 0 <= i < |shares| ensures IsFloor(n, total, weights[i], shares[i]) {
        ShareIsFloor(n, total, weights[i], shares[i]);
      }
    }
  }

  lemma {:induction false} TotalNotNegative(weights: seq<real>)
    requires NotNegative(weights)
    ensures TotalWeight(weights) >= 0.0
  {
    if weights != [] { TotalNotNegative(weights[..|weights| - 1]); }
  }

  function Union(slots: seq<set<nat>>, k: nat): set<nat>
    requires k <= |slots|
  {
    if k == 0 then {} else Union(slots, k - 1) + slots[k - 1]
  }

  lemma {:induction false} UnionHas(slots: seq<set<nat>>, k: nat, x: nat)
    requires k <= |slots|
    ensures x in Union(slots, k) <==> exists i :: 0 <= i < k && x in slots[i]
  {
    if k > 0 { UnionHas(slots, k - 1, x); }
  }

  lemma {:induction false} UnionSize(slots: seq<set<nat>>, n: nat, k: nat)
    requires Owned(slots, n) && k <= |slots|
    ensures |Union(slots, k)| == Sum(Reshard.SizesOf(slots)[..k])
  {
    if k > 0 {
      UnionSize(slots, n, k - 1);
      assert Reshard.SizesOf(slots)[..k][..k - 1] == Reshard.SizesOf(slots)[..k - 1];
      var last := slots[k - 1];
      forall x | x in last ensures x !in Union(slots, k - 1) { UnionHas(slots, k - 1, x); }
    }
  }

  function Below(n: nat): (s: set<nat>)
    ensures |s| == n && forall x :: x in s <==> 0 <= x < n
  {
    if n == 0 then {} else Below(n - 1) + {n - 1}
  }

  /** The masters' slots add up to all of them. */
  lemma OwnedTotal(slots: seq<set<nat>>, n: nat)
    requires Owned(slots, n)
    ensures Sum(Reshard.SizesOf(slots)) == n
  {
    forall x: nat ensures x in Union(slots, |slots|) <==> x in Below(n) {
      UnionHas(slots, |slots|, x);
      if x < n { assert HasOwner(slots, x); }
    }
    assert Union(slots, |slots|) == Below(n);
    UnionSize(slots, n, |slots|);
    assert Reshard.SizesOf(slots)[..|slots|] == Reshard.SizesOf(slots);
  }

  /** Rounding never promises more slots than there are. */
  lemma SurplusNotNegative(slots: seq<set<nat>>, n: nat, weights: seq<real>)
    requires Owned(slots, n) && |weights| == |slots| && TotalWeight(weights) > 0.0 && NotNegative(weights)
    ensures Sum(Balances(Reshard.SizesOf(slots), ExpectedOf(n, TotalWeight(weights), weights))) >= 0
  {
    OwnedTotal(slots, n);
    ExpectedAtMostAll(n, weights);
    SumBalances(Reshard.SizesOf(slots), ExpectedOf(n, TotalWeight(weights), weights));
  }

  predicate OverThreshold(size: int, expected: int, threshold: real) {
    threshold > 0.0 &&
    if size > 0 then
      var d := 100.0 - 100.0 * expected as real / size as real;
      (if d < 0.0 then -d else d) > threshold
    else expected > 0
  }

  /** A master is too far from its share, in slots: by more than the threshold's part of what it has, or it
      has nothing and is to have something. */
  predicate Off(size: int, share: int, threshold: real) {
    && threshold > 0.0
    && if size > 0 then
         100.0 * (if size > share then size - share else share - size) as real > threshold * size as real
       else share > 0
  }

  lemma OverIff(size: int, share: int, threshold: real)
    requires size >= 0
    ensures OverThreshold(size, share, threshold) <==> Off(size, share, threshold)
  {
    if size > 0 {
      var s, e := size as real, share as real;
      var q := 100.0 * e / s;
      assert q * s == 100.0 * e;
      var d := 100.0 - q;
      assert d * s == 100.0 * (s - e);
      Scaled(d, threshold, s);
      Scaled(-d, threshold, s);
    }
  }

  lemma Scaled(d: real, t: real, s: real)
    requires s > 0.0
    ensures d > t <==> d * s > t * s
  {
    if d > t { assert (d - t) * s > 0.0; } else { assert (t - d) * s >= 0.0; }
  }

  /** How the command ends, if it does: nothing to do, no weight to divide by, a correction that never
      ends, a master without enough slots to give, or all moves made. */
  datatype Outcome = NotNeeded | NotANumber | LoopsForEver | TableTooShort | Done

  ghost predicate Reached(sizes: seq<int>, shares: seq<int>, threshold: real)
    requires |sizes| == |shares|
  {
    exists i :: 0 <= i < |sizes| && OverThreshold(sizes[i], shares[i], threshold)
  }

  lemma ReachedIff(sizes: seq<int>, shares: seq<int>, threshold: real)
    requires |sizes| == |shares| && forall i :: 0 <= i < |sizes| ==> sizes[i] >= 0
    ensures Reached(sizes, shares, threshold) <==> exists i :: 0 <= i < |sizes| && Off(sizes[i], shares[i], threshold)
  {
    forall i | 0 <= i < |sizes|
      ensures OverThreshold(sizes[i], shares[i], threshold) <==> Off(sizes[i], shares[i], threshold)
    {
      OverIff(sizes[i], shares[i], threshold);
    }
  }

  /** What comes of the balances. */
  ghost predicate Judged(out: Outcome, n: nat, sizes: seq<int>, shares: seq<int>, threshold: real)
    requires |sizes| == |shares|
  {
    var b := Balances(sizes, shares);
    && out != NotANumber
    && (out == NotNeeded <==> forall i :: 0 <= i < |sizes| ==> !Off(sizes[i], shares[i], threshold))
    && (out == LoopsForEver <==>
          out != NotNeeded && Sum(shares) < n && forall i :: 0 <= i < |sizes| ==> sizes[i] >= shares[i])
    && (out == LoopsForEver ==> forall k: nat :: Passes(State(b, Sum(b)), k).total > 0)
    && (out in {TableTooShort, Done} ==>
          (Sum(b) > 0 ==> HasNegative(b)) && exists k: nat :: Passes(State(b, Sum(b)), k).total <= 0)
  }

  lemma JudgedEither(n: nat, sizes: seq<int>, shares: seq<int>, threshold: real)
    requires |sizes| == |shares| && Judged(Done, n, sizes, shares, threshold)
    ensures Judged(TableTooShort, n, sizes, shares, threshold)
    ensures Sum(Balances(sizes, shares)) > 0 ==> HasNegative(Balances(sizes, shares))
  {
  }

  lemma SharesSuffice(slots: seq<set<nat>>, n: nat, weights: seq<real>)
    requires Owned(slots, n) && |weights| == |slots| && (weights == [] || TotalWeight(weights) != 0.0)
    ensures var shares := ExpectedOf(n, TotalWeight(weights), weights);
            NotNegative(weights) ==> Sum(Balances(Reshard.SizesOf(slots), shares)) >= 0 && AllPositive(shares)
  {
    if NotNegative(weights) && weights != [] {
      TotalNotNegative(weights);
      SurplusNotNegative(slots, n, weights);
      ExpectedAll(n, weights);
    }
  }

  /** Where a master ends up: at its share, or, if it was below its share, at most `rounds` above. */
  predicate Ends(was: int, expected: int, now: int, rounds: nat) {
    if was >= expected then now == expected else expected <= now && expected + rounds - 1 <= now <= expected + rounds
  }

  ghost predicate AllEnd(sizes: seq<int>, shares: seq<int>, now: seq<int>, rounds: nat) {
    |sizes| == |shares| == |now| && forall i :: 0 <= i < |now| ==> Ends(sizes[i], shares[i], now[i], rounds)
  }

  lemma EndsAtTarget(sizes: seq<int>, expected: seq<int>, balance: seq<int>, target: seq<int>, rounds: nat)
    requires |sizes| == |expected| == |target| && Corrected(Balances(sizes, expected), balance, rounds)
    requires target == Balances(sizes, balance)
    ensures forall i :: 0 <= i < |sizes| ==> Ends(sizes[i], expected[i], target[i], rounds)
  {
    var b := Balances(sizes, expected);
    forall i | 0 <= i < |sizes| ensures Ends(sizes[i], expected[i], target[i], rounds) {
      assert b[i] == sizes[i] - expected[i];
    }
  }

  lemma ThreeEqualWeights()
    ensures TotalWeight([1.0, 1.0, 1.0]) == 3.0
  {
    assert [1.0, 1.0, 1.0][..2] == [1.0, 1.0] && [1.0, 1.0][..1] == [1.0] && [1.0][..0] == [];
    assert TotalWeight([1.0]) == 1.0 && TotalWeight([1.0, 1.0]) == 2.0;
  }

  lemma ThirdOfSlots(e: int)
    requires IsFloor(16384, 3.0, 1.0, e)
    ensures e == 5461
  {
  }

  /** Three masters of equal weight with 5462, 5461 and 5461 slots are as even as can be, and with a
      threshold below a slot's worth they make the command loop for ever. */
  lemma EvenClusterLoops(shares: seq<int>, threshold: real, k: nat)
    requires 0.0 < threshold < 0.018 && SharesOk(16384, [1.0, 1.0, 1.0], shares)
    ensures shares == [5461, 5461, 5461] && Off(5462, shares[0], threshold)
    ensures var b := Balances([5462, 5461, 5461], shares); Sum(b) == 1 && Passes(State(b, Sum(b)), k).total > 0
  {
    ThreeEqualWeights();
    forall i | 0 <= i < 3 ensures shares[i] == 5461 {
      assert IsFloor(16384, 3.0, [1.0, 1.0, 1.0][i], shares[i]);
      ThirdOfSlots(shares[i]);
    }
    var b := Balances([5462, 5461, 5461], shares);
    assert b == [1, 0, 0];
    assert [1, 0, 0][..2] == [1, 0] && [1, 0][..1] == [1] && [1][..0] == [];
    assert Sum([1]) == 1 && Sum([1, 0]) == 1;
    PassesIdle(State(b, Sum(b)), k);
  }

  ghost predicate AllPositive(a: seq<int>) {
    forall i :: 0 <= i < |a| ==> a[i] >= 0
  }

  /** Between two rounds; `good` if the balances add up to zero and no target is negative. */
  ghost predicate Under(balance: seq<int>, order: seq<nat>, dst: int, src: int, target: seq<int>, good: bool) {
    && |target| == |balance| && IsOrder(order, |balance|) && Signs(Listed(balance, order), dst, src)
    && (good ==> Closing(Listed(balance, order), dst, src) && AllPositive(target))
  }

  ghost function Left(balance: seq<int>, order: seq<nat>, dst: int, src: int): nat {
    if IsOrder(order, |balance|) && 0 <= dst < src < |order| then Effort(Listed(balance, order), dst, src) else 0
  }

  /** The pointers have come closer, or what is left at them has become less. */
  ghost predicate Nearer(was: seq<int>, now: seq<int>, order: seq<nat>, dst: int, src: int, dst': int, src': int) {
    src' - dst' < src - dst || (dst' == dst && src' == src && Left(now, order, dst, src) < Left(was, order, dst, src))
  }

  function Exchanged(balance: seq<int>, d: nat, s: nat, num: int): (b: seq<int>)
    requires d < |balance| && s < |balance| && d != s
    ensures |b| == |balance|
  {
    balance[d := balance[d] + num][s := balance[s] - num]
  }

  lemma RoundOk(balance: seq<int>, order: seq<nat>, dst: int, src: int, num: int, target: seq<int>, good: bool)
    requires Under(balance, order, dst, src, target, good) && dst < src
    requires num == Min(Abs(balance[order[dst]]), Abs(balance[order[src]]))
    ensures order[dst] != order[src]
    ensures var d, s := order[dst], order[src];
            var now := Exchanged(balance, d, s, num);
            var dst', src' := if now[d] == 0 then dst + 1 else dst, if now[s] == 0 then src - 1 else src;
            && Under(now, order, dst', src', target, good) && Nearer(balance, now, order, dst, src, dst', src')
            && (good ==> balance[s] >= num)
  {
    var v := Listed(balance, order);
    ListedTwice(balance, order, dst, src, num);
    StepSigns(v, dst, src, num);
    if good { StepCloses(v, dst, src, num); }
  }

  lemma UnderEnd(balance: seq<int>, order: seq<nat>, dst: int, src: int, target: seq<int>)
    requires Under(balance, order, dst, src, target, true) && dst >= src
    ensures forall i :: 0 <= i < |balance| ==> balance[i] == 0
  {
    MetSettled(Listed(balance, order), dst, src);
    AllZero(balance, order);
  }

  class Cluster {
    var slots: seq<set<nat>>
    var balance: seq<int>

    /** The bookkeeping at the end of `move_slot`: the slot changes hands and stays owned. */
    method MoveSlot(src: nat, dst: nat, slot: nat, ghost n: nat)
      requires src < |slots| && dst < |slots| && src != dst && slot in slots[src] && Owned(slots, n)
      modifies this`slots
      ensures Owned(slots, n) && slots == Shifted(old(slots), src, dst, {slot})
      ensures |slots[src]| == old(|slots[src]|) - 1 && |slots[dst]| == old(|slots[dst]|) + 1 && slot in slots[dst]
    {
      ShiftedOwned(slots, src, dst, {slot}, n);
      ShiftedSizes(slots, src, dst, {slot}, n);
      slots := slots[src := slots[src] - {slot}];
      slots := slots[dst := slots[dst] + {slot}];
    }

    method MoveTable(src: nat, dst: nat, table: seq<Reshard.Move>, ghost n: nat)
      requires src < |slots| && dst < |slots| && src != dst && Owned(slots, n)
      requires SlotsIn(table) <= slots[src] && |SlotsIn(table)| == |table|
      modifies this`slots
      ensures Owned(slots, n) && slots == Shifted(old(slots), src, dst, SlotsIn(table))
    {
      ShiftedMore(slots, src, dst, {}, 0);
      assert SlotsIn(table[..0]) == {};
      for i := 0 to |table|
        invariant Owned(slots, n) && slots == Shifted(old(slots), src, dst, SlotsIn(table[..i]))
      {
        NextSlot(table, i);
        ShiftedMore(old(slots), src, dst, SlotsIn(table[..i]), table[i].slot);
        MoveSlot(src, dst, table[i].slot, n);
      }
      assert table[..|table|] == table;
    }

    /** Take `num` slots from one master and give them to another, unless the plan falls short. */
    method Transfer(src: nat, dst: nat, num: nat, ghost n: nat) returns (ok: bool)
      requires src < |slots| && dst < |slots| && src != dst && num > 0 && Owned(slots, n)
      modifies this`slots
      ensures Owned(slots, n) && |slots| == old(|slots|)
      ensures ok <==> num <= old(|slots[src]|)
      ensures !ok ==> slots == old(slots)
      ensures ok ==> |slots[src]| == old(|slots[src]|) - num && |slots[dst]| == old(|slots[dst]|) + num
      ensures forall i :: 0 <= i < |slots| && i != src && i != dst ==> slots[i] == old(slots)[i]
    {
      var plan, _, _ := Reshard.ReshardTable([slots[src]], num);
      OneSource(slots[src], num, plan);
      if plan.NotANumber? || |plan.table| != num { return false; }
      ShiftedSizes(slots, src, dst, SlotsIn(plan.table), n);
      MoveTable(src, dst, plan.table, n);
      ok := true;
    }

    /** Take what both sides need from one node and give it to the other. */
    method Give(d: nat, s: nat, num: nat, ghost n: nat, ghost target: seq<int>) returns (ok: bool)
      requires Owned(slots, n) && Held(slots, balance, target) && d < |slots| && s < |slots| && d != s
      modifies this
      ensures Owned(slots, n) && |slots| == |balance| == old(|balance|)
      ensures ok <==> num <= old(|slots[s]|)
      ensures ok ==> Held(slots, balance, target) && balance == Exchanged(old(balance), d, s, num)
    {
      ok := true;
      if num > 0 {
        ok := Transfer(s, d, num, n);
        if !ok { return; }
      }
      balance := balance[d := balance[d] + num];
      balance := balance[s := balance[s] - num];
    }

    /** One round of the two-pointer loop. */
    method Round(order: seq<nat>, dst: int, src: int, ghost n: nat, ghost target: seq<int>, ghost good: bool)
      returns (ok: bool, dst': int, src': int)
      requires Owned(slots, n) && Held(slots, balance, target) && Under(balance, order, dst, src, target, good)
      requires dst < src
      modifies this
      ensures Owned(slots, n) && |slots| == |balance| == old(|balance|)
      ensures ok ==> Held(slots, balance, target) && Under(balance, order, dst', src', target, good)
      ensures ok ==> Nearer(old(balance), balance, order, dst, src, dst', src')
      ensures good ==> ok
    {
      var d, s := order[dst], order[src];
      var num := Min(Abs(balance[d]), Abs(balance[s]));
      RoundOk(balance, order, dst, src, num, target, good);
      ok := Give(d, s, num, n, target);
      if !ok { return ok, dst, src; }
      dst' := if balance[d] == 0 then dst + 1 else dst;
      src' := if balance[s] == 0 then src - 1 else src;
    }

    /** The two-pointer loop.  It always ends and keeps every slot owned once; with balances that add up
        to zero and targets that are not negative it ends with everybody at their target. */
    method Settle(ghost n: nat, ghost target: seq<int>) returns (ok: bool)
      requires Owned(slots, n) && Held(slots, balance, target)
      modifies this
      ensures Owned(slots, n) && |slots| == |target|
      ensures old(Sum(balance)) == 0 && AllPositive(target) ==>
                ok && forall i :: 0 <= i < |slots| ==> |slots[i]| == target[i]
    {
      ghost var good := Sum(balance) == 0 && AllPositive(target);
      var order := SortBy(balance);
      var dst, src := 0, |order| - 1;
      SortedCloses(Listed(balance, order));
      while dst < src
        invariant Owned(slots, n) && Held(slots, balance, target) && Under(balance, order, dst, src, target, good)
        decreases src - dst, Left(balance, order, dst, src)
      {
        ok, dst, src := Round(order, dst, src, n, target, good);
        if !ok { return; }
      }
      ok := true;
      if good { UnderEnd(balance, order, dst, src, target); }
    }

    /** The balance of each master, and whether any is far enough from its share to do something about. */
    method ComputeBalances(n: nat, weights: seq<real>, threshold: real) returns (reached: bool)
      requires |weights| == |slots|
      modifies this`balance
      ensures balance == Balances(Reshard.SizesOf(slots), ExpectedOf(n, TotalWeight(weights), weights))
      ensures reached <==> Reached(Reshard.SizesOf(slots), ExpectedOf(n, TotalWeight(weights), weights), threshold)
    {
      var total := TotalWeight(weights);
      ghost var sizes, shares := Reshard.SizesOf(slots), ExpectedOf(n, TotalWeight(weights), weights);
      balance, reached := [], false;
      for i := 0 to |slots|
        invariant |balance| == i && forall j :: 0 <= j < i ==> balance[j] == sizes[j] - shares[j]
        invariant reached <==> exists j :: 0 <= j < i && OverThreshold(sizes[j], shares[j], threshold)
      {
        var expected := Expected(n, total, weights[i]);
        balance := balance + [|slots[i]| - expected];
        if OverThreshold(|slots[i]|, expected, threshold) { reached := true; }
      }
    }

    /** Whether there is something to do, and whether the correction of the balances would ever end. */
    method Judge(n: nat, weights: seq<real>, threshold: real) returns (out: Outcome)
      requires Owned(slots, n) && |weights| == |slots|
      modifies this`balance
      ensures var sizes, shares := Reshard.SizesOf(slots), ExpectedOf(n, TotalWeight(weights), weights);
              balance == Balances(sizes, shares) && out != TableTooShort && Judged(out, n, sizes, shares, threshold)
    {
      ghost var sizes, shares := Reshard.SizesOf(slots), ExpectedOf(n, TotalWeight(weights), weights);
      var reached := ComputeBalances(n, weights, threshold);
      ReachedIff(sizes, shares, threshold);
      OwnedTotal(slots, n);
      SumBalances(sizes, shares);
      CorrectionEndsIff(State(balance, Sum(balance)));
      if !reached { return NotNeeded; }
      var receiver := exists i :: 0 <= i < |balance| && balance[i] < 0;
      assert receiver <==> exists i :: 0 <= i < |sizes| && sizes[i] < shares[i] by {
        if i :| 0 <= i < |sizes| && sizes[i] < shares[i] { assert balance[i] < 0; }
      }
      out := if Sum(balance) > 0 && !receiver then LoopsForEver else Done;
    }

    /** The whole command, for any weights.  Every slot stays owned once whatever happens.  With weights
        that are not negative it never lacks slots to move, and every master ends at its share or, if it
        was below, above it by its part of the surplus. */
    method RebalanceAll(n: nat, weights: seq<real>, threshold: real)
      returns (out: Outcome, ghost shares: seq<int>, ghost rounds: nat)
      requires Owned(slots, n) && |weights| == |slots|
      modifies this
      ensures Owned(slots, n) && |slots| == old(|slots|)
      ensures out in {NotNeeded, NotANumber, LoopsForEver} ==> slots == old(slots)
      ensures out == NotANumber <==> weights != [] && TotalWeight(weights) == 0.0
      ensures out != NotANumber ==>
                SharesOk(n, weights, shares) && Judged(out, n, Reshard.SizesOf(old(slots)), shares, threshold)
      ensures |shares| == |old(slots)|
      ensures NotNegative(weights) ==> out != TableTooShort
      ensures NotNegative(weights) && out == Done ==>
                AllEnd(Reshard.SizesOf(old(slots)), shares, Reshard.SizesOf(slots), rounds)
    {
      rounds, shares := 0, ExpectedOf(n, TotalWeight(weights), weights);
      if weights != [] && TotalWeight(weights) == 0.0 { return NotANumber, shares, 0; }
      SharesAre(n, weights);
      out := Judge(n, weights, threshold);
      if out != Done { return out, shares, 0; }
      SharesSuffice(slots, n, weights);
      JudgedEither(n, Reshard.SizesOf(slots), shares, threshold);
      var ok;
      ok, rounds := Finish(n, Reshard.SizesOf(slots), shares);
      if !ok { out := TableTooShort; }
    }

    /** Correct the balances, then move slots. */
    method Finish(ghost n: nat, ghost sizes: seq<int>, ghost shares: seq<int>) returns (ok: bool, ghost rounds: nat)
      requires Owned(slots, n) && |shares| == |slots| && sizes == Reshard.SizesOf(slots)
      requires balance == Balances(sizes, shares) && (Sum(balance) > 0 ==> HasNegative(balance))
      modifies this
      ensures Owned(slots, n) && |slots| == old(|slots|)
      ensures old(Sum(balance)) >= 0 && AllPositive(shares) ==>
                ok && AllEnd(sizes, shares, Reshard.SizesOf(slots), rounds)
    {
      balance := Correct(balance);
      rounds :| Corrected(old(balance), balance, rounds);
      ghost var target := Balances(sizes, balance);
      EndsAtTarget(sizes, shares, balance, target, rounds);
      ok := Settle(n, target);
    }
  }
}
