/** `compute_reshard_table`: which slots to take from which source node. */
module Reshard {
  import opened Basics
  import opened Ordering

  datatype Move = Move(source: nat, slot: nat)

  /** With sources but no slots in them the quotient is not a number, and rounding it fails. */
  datatype Plan = Plan(table: seq<Move>) | NotANumber

  // ---- Sorting --------------------------------------------------------------------------------------

  function SizesOf(sources: seq<set<nat>>): (l: seq<int>)
    ensures |l| == |sources| && forall i :: 0 <= i < |l| ==> l[i] == |sources[i]|
  {
    seq(|sources|, i requires 0 <= i < |sources| => |sources[i]|)
  }

  function TotalSize(sources: seq<set<nat>>): int {
    Sum(SizesOf(sources))
  }

  /** The sizes of the first `i` sources in `order`, together. */
  function Sizes(sources: seq<set<nat>>, order: seq<nat>, i: nat): nat
    requires i <= |order| && forall j :: 0 <= j < |order| ==> order[j] < |sources|
  {
    if i == 0 then 0 else Sizes(sources, order, i - 1) + |sources[order[i - 1]]|
  }

  lemma {:induction false} SizesListed(sources: seq<set<nat>>, order: seq<nat>, keys: seq<int>, i: nat)
    requires i <= |order| && forall j :: 0 <= j < |order| ==> order[j] < |sources|
    requires |keys| == |sources| && forall j :: 0 <= j < |keys| ==> keys[j] == -|sources[j]|
    ensures Sum(Listed(keys, order)[..i]) + Sizes(sources, order, i) == 0
  {
    if i > 0 {
      SizesListed(sources, order, keys, i - 1);
      assert Listed(keys, order)[..i][..i - 1] == Listed(keys, order)[..i - 1];
    }
  }

  /** Source numbers, biggest source first. */
  method BiggestFirst(sources: seq<set<nat>>) returns (order: seq<nat>)
    ensures IsOrder(order, |sources|)
    ensures forall i, j :: 0 <= i < j < |sources| ==> |sources[order[i]]| >= |sources[order[j]]|
    ensures Sizes(sources, order, |sources|) == TotalSize(sources)
  {
    var keys := seq(|sources|, i requires 0 <= i < |sources| => -|sources[i]|);
    order := SortBy(keys);
    SumNegated(SizesOf(sources), keys);
    SizesListed(sources, order, keys, |sources|);
    ghost var l := Listed(keys, order);
    assert l[..|sources|] == l;
    forall i, j | 0 <= i < j < |sources| ensures |sources[order[i]]| >= |sources[order[j]]| {
      assert l[i] <= l[j];
    }
  }

  method SortedSlots(slots: set<nat>) returns (sorted: seq<nat>)
    ensures |sorted| == |slots| && (forall x :: x in slots <==> x in sorted)
    ensures forall i, j :: 0 <= i < j < |sorted| ==> sorted[i] < sorted[j]
  {
    sorted := [];
    var left := slots;
    while left != {}
      invariant left <= slots && |sorted| + |left| == |slots|
      invariant forall x :: x in slots <==> x in sorted || x in left
      invariant forall i, j :: 0 <= i < j < |sorted| ==> sorted[i] < sorted[j]
      invariant forall i, y :: 0 <= i < |sorted| && y in left ==> sorted[i] < y
      decreases left
    {
      var x := Least(left);
      sorted, left := sorted + [x], left - {x};
    }
  }

  method Least(s: set<nat>) returns (x: nat)
    requires s != {}
    ensures x in s && forall y :: y in s ==> x <= y
  {
    x :| x in s;
    var left := s - {x};
    while left != {}
      invariant left <= s && x in s && forall y :: y in s && y !in left ==> x <= y
      decreases left
    {
      var y :| y in left;
      if y < x { x := y; }
      left := left - {y};
    }
  }

  // ---- Shares ---------------------------------------------------------------------------------------

  /** How many slots the i-th source is asked for. */
  function Share(i: nat, ratio: real, size: nat): int {
    var x := ratio * size as real;
    if i == 0 then -(-x).Floor else x.Floor
  }

  function Shares(sources: seq<set<nat>>, order: seq<nat>, ratio: real, i: nat): int
    requires i <= |order| && forall j :: 0 <= j < |order| ==> order[j] < |sources|
  {
    if i == 0 then 0 else Shares(sources, order, ratio, i - 1) + Share(i - 1, ratio, |sources[order[i - 1]]|)
  }

  /** Only the sources after the first lose to rounding, less than one slot each. */
  lemma {:induction false} SharesBound(sources: seq<set<nat>>, order: seq<nat>, ratio: real, i: nat)
    requires 0 < i <= |order| && forall j :: 0 <= j < |order| ==> order[j] < |sources|
    ensures Shares(sources, order, ratio, i) as real >= ratio * Sizes(sources, order, i) as real - (i - 1) as real
    ensures i > 1 ==>
              Shares(sources, order, ratio, i) as real > ratio * Sizes(sources, order, i) as real - (i - 1) as real
  {
    var size := |sources[order[i - 1]]|;
    Distribute(ratio, Sizes(sources, order, i - 1) as real, size as real);
    if i > 1 {
      SharesBound(sources, order, ratio, i - 1);
    }
  }

  lemma Distribute(ratio: real, a: real, b: real)
    ensures ratio * (a + b) == ratio * a + ratio * b
  {
  }

  /** A share of no more than everything is no more than what the source has. */
  lemma ShareFits(i: nat, ratio: real, size: nat)
    requires 0.0 <= ratio <= 1.0
    ensures 0 <= Share(i, ratio, size) <= size
  {
    Fraction(ratio, size as real);
    FloorWithin(ratio * size as real, size);
  }

  lemma Fraction(ratio: real, x: real)
    requires 0.0 <= ratio <= 1.0 && x >= 0.0
    ensures 0.0 <= ratio * x <= x
  {
  }

  lemma FloorWithin(x: real, size: nat)
    requires 0.0 <= x <= size as real
    ensures 0 <= x.Floor <= size && 0 <= -(-x).Floor <= size
  {
  }

  lemma SharesEnough(sources: seq<set<nat>>, order: seq<nat>, num: nat, tot: nat, ratio: real)
    requires IsOrder(order, |sources|) && tot > 0 && tot == Sizes(sources, order, |sources|)
    requires ratio == num as real / tot as real
    ensures Shares(sources, order, ratio, |sources|) >= num - (if |sources| > 2 then |sources| - 2 else 0)
  {
    RatioTimes(num, tot);
    if sources != [] {
      SharesBound(sources, order, ratio, |sources|);
      WholeBound(Shares(sources, order, ratio, |sources|), num, |sources|);
    }
  }

  lemma RatioTimes(num: nat, tot: nat)
    requires tot > 0
    ensures num as real / tot as real * tot as real == num as real
  {
  }

  lemma WholeBound(s: int, num: int, k: int)
    requires k > 0 && s as real >= num as real - (k - 1) as real
    requires k > 1 ==> s as real > num as real - (k - 1) as real
    ensures s >= num - (if k > 2 then k - 2 else 0)
  {
  }

  // ---- The table ------------------------------------------------------------------------------------

  function Moves(source: nat, slots: seq<nat>): (t: seq<Move>)
    ensures |t| == |slots| && forall i :: 0 <= i < |t| ==> t[i] == Move(source, slots[i])
  {
    seq(|slots|, i requires 0 <= i < |slots| => Move(source, slots[i]))
  }

  /** Every entry names a slot of its source, and the lower slots of that source are listed too. */
  ghost predicate Lowest(sources: seq<set<nat>>, table: seq<Move>) {
    forall e :: e in table ==>
      && e.source < |sources| && e.slot in sources[e.source]
      && forall x :: x in sources[e.source] && x < e.slot ==> Move(e.source, x) in table
  }

  ghost predicate TableOk(sources: seq<set<nat>>, table: seq<Move>, num: nat) {
    NoDup(table) && Lowest(sources, table) && |table| <= num
  }

  /** How many slots of the set lie below `x`. */
  function Rank(slots: set<nat>, x: nat): nat {
    |Lower(slots, x)|
  }

  function Lower(slots: set<nat>, x: nat): set<nat> {
    set y | y in slots && y < x
  }

  /** No source gives more than its proportional share, rounded up. */
  ghost predicate Fair(sources: seq<set<nat>>, table: seq<Move>, num: nat, total: int) {
    forall e :: e in table ==>
      e.source < |sources| && Rank(sources[e.source], e.slot) * total < num * |sources[e.source]|
  }

  ghost predicate FairShare(sources: seq<set<nat>>, table: seq<Move>, ratio: real) {
    forall e :: e in table ==> e.source < |sources| && Within(sources[e.source], e.slot, ratio)
  }

  ghost predicate Within(slots: set<nat>, x: nat, ratio: real) {
    Rank(slots, x) as real < ratio * |slots| as real
  }

  lemma {:induction false} RankIs(slots: set<nat>, sorted: seq<nat>, j: nat)
    requires j < |sorted| && (forall x :: x in slots <==> x in sorted)
    requires forall a, b :: 0 <= a < b < |sorted| ==> sorted[a] < sorted[b]
    ensures Rank(slots, sorted[j]) == j
  {
    if j == 0 {
      assert Lower(slots, sorted[j]) == {};
    } else {
      RankIs(slots, sorted, j - 1);
      assert Lower(slots, sorted[j]) == Lower(slots, sorted[j - 1]) + {sorted[j - 1]};
    }
  }

  lemma TakenFair(sources: seq<set<nat>>, source: nat, sorted: seq<nat>, i: nat, t: nat, ratio: real, table: seq<Move>)
    requires source < |sources| && (forall x :: x in sources[source] <==> x in sorted) && |sorted| == |sources[source]|
    requires forall a, b :: 0 <= a < b < |sorted| ==> sorted[a] < sorted[b]
    requires t <= |sorted| && t <= Share(i, ratio, |sorted|) && FairShare(sources, table, ratio)
    ensures FairShare(sources, table + Moves(source, sorted[..t]), ratio)
  {
    var more := Moves(source, sorted[..t]);
    forall j | 0 <= j < t ensures Within(sources[source], more[j].slot, ratio) {
      RankIs(sources[source], sorted, j);
      Below(i, ratio, |sorted|, j);
    }
  }

  lemma Below(i: nat, ratio: real, size: nat, j: nat)
    requires j < Share(i, ratio, size)
    ensures j as real < ratio * size as real
  {
  }

  lemma FairIs(sources: seq<set<nat>>, table: seq<Move>, num: nat, total: nat)
    requires total > 0 && FairShare(sources, table, num as real / total as real)
    ensures Fair(sources, table, num, total)
  {
    forall e | e in table ensures Rank(sources[e.source], e.slot) * total < num * |sources[e.source]| {
      assert Within(sources[e.source], e.slot, num as real / total as real);
      CrossMultiply(Rank(sources[e.source], e.slot), num, total, |sources[e.source]|);
    }
  }

  lemma CrossMultiply(a: nat, num: nat, total: nat, size: nat)
    requires total > 0 && a as real < num as real / total as real * size as real
    ensures a * total < num * size
  {
    var q := num as real / total as real;
    assert q * total as real == num as real;
    Scale(a as real, q * size as real, total as real);
    assert (q * size as real) * total as real == (q * total as real) * size as real;
    assert (a * total) as real == a as real * total as real && (num * size) as real == num as real * size as real;
  }

  lemma Scale(a: real, b: real, t: real)
    requires a < b && t > 0.0
    ensures a * t < b * t
  {
  }

  ghost predicate From(table: seq<Move>, done: seq<nat>) {
    forall e :: e in table ==> e.source in done
  }

  /** The first `n` slots of a source, as far as the table has room. */
  method TakeFrom(source: nat, sorted: seq<nat>, n: int, num: nat, table0: seq<Move>) returns (table: seq<Move>)
    requires |table0| <= num && n >= 0
    ensures table == table0 + Moves(source, sorted[..Min(Min(n, |sorted|), num - |table0|)])
  {
    table := table0;
    var j := 0;
    while j < n && j < |sorted|
      invariant j <= Min(n, |sorted|)
      invariant table == table0 + Moves(source, sorted[..Min(j, num - |table0|)])
    {
      if |table| < num {
        table := table + [Move(source, sorted[j])];
        assert sorted[..j + 1] == sorted[..j] + [sorted[j]];
      }
      j := j + 1;
    }
  }

  lemma TakenOk(sources: seq<set<nat>>, order: seq<nat>, i: nat, sorted: seq<nat>, t: nat, table0: seq<Move>)
    requires IsOrder(order, |sources|) && i < |order| && t <= |sorted|
    requires forall x :: x in sources[order[i]] <==> x in sorted
    requires forall a, b :: 0 <= a < b < |sorted| ==> sorted[a] < sorted[b]
    requires NoDup(table0) && Lowest(sources, table0) && From(table0, order[..i])
    ensures var table := table0 + Moves(order[i], sorted[..t]);
            NoDup(table) && Lowest(sources, table) && From(table, order[..i + 1])
  {
    var more := Moves(order[i], sorted[..t]);
    var table := table0 + more;
    assert order[..i + 1] == order[..i] + [order[i]];
    assert order[i] !in order[..i];
    forall a, b | 0 <= a < b < |table| ensures table[a] != table[b] {
      if a < |table0| <= b { assert table[a] in table0 && table[b].source == order[i]; }
    }
    forall e | e in table
      ensures && e.source < |sources| && e.slot in sources[e.source]
              && forall x :: x in sources[e.source] && x < e.slot ==> Move(e.source, x) in table
    {
      if e !in table0 { TakenLowest(sources[order[i]], order[i], sorted, t, e); }
    }
  }

  lemma TakenLowest(slots: set<nat>, source: nat, sorted: seq<nat>, t: nat, e: Move)
    requires t <= |sorted| && (forall x :: x in slots <==> x in sorted)
    requires forall a, b :: 0 <= a < b < |sorted| ==> sorted[a] < sorted[b]
    requires e in Moves(source, sorted[..t])
    ensures e.source == source && e.slot in slots
    ensures forall x :: x in slots && x < e.slot ==> Move(source, x) in Moves(source, sorted[..t])
  {
    var more := Moves(source, sorted[..t]);
    var j :| 0 <= j < |more| && more[j] == e;
    forall x | x in slots && x < e.slot ensures Move(source, x) in more {
      var c :| 0 <= c < |sorted| && sorted[c] == x;
      assert c < j;
      assert more[c] == Move(source, x);
    }
  }

  // ---- How many each source gives -----------------------------------------------------------------------

  /** The proportional part of the i-th source, rounded up for the first and down for the others. */
  predicate IsQuota(i: nat, num: nat, total: int, size: nat, e: nat) {
    if i == 0 then (e - 1) * total < num * size <= e * total else e * total <= num * size < (e + 1) * total
  }

  /** How many slots the first `i` sources give together, when each gives its quota as far as it has it and
      as far as it is still needed. */
  function Given(quota: seq<nat>, sizes: seq<nat>, num: nat, i: nat): (g: nat)
    requires i <= |quota| == |sizes|
    ensures g <= num
  {
    if i == 0 then 0 else Min(num, Given(quota, sizes, num, i - 1) + Min(quota[i - 1], sizes[i - 1]))
  }

  function Count(table: seq<Move>, source: nat): nat {
    if table == [] then 0
    else Count(table[..|table| - 1], source) + if table[|table| - 1].source == source then 1 else 0
  }

  lemma {:induction false} CountMore(table: seq<Move>, source: nat, slots: seq<nat>, k: nat)
    ensures Count(table + Moves(source, slots), k) == Count(table, k) + if k == source then |slots| else 0
  {
    var more := Moves(source, slots);
    var all := table + more;
    if slots == [] {
      assert all == table;
    } else {
      var n := |slots| - 1;
      CountMore(table, source, slots[..n], k);
      assert all[..|all| - 1] == table + Moves(source, slots[..n]);
    }
  }

  lemma {:induction false} CountNone(table: seq<Move>, source: nat)
    requires forall e :: e in table ==> e.source != source
    ensures Count(table, source) == 0
  {
    if table != [] {
      var n := |table| - 1;
      assert table[n] in table;
      CountNone(table[..n], source);
    }
  }

  function InOrder(sources: seq<set<nat>>, order: seq<nat>): (l: seq<nat>)
    requires forall i :: 0 <= i < |order| ==> order[i] < |sources|
    ensures |l| == |order| && forall i :: 0 <= i < |l| ==> l[i] == |sources[order[i]]|
  {
    seq(|order|, i requires 0 <= i < |order| => |sources[order[i]]|)
  }

  /** Each of the first `i` sources in order has given what it should. */
  ghost predicate GivenUpTo(order: seq<nat>, quota: seq<nat>, sizes: seq<nat>, num: nat, table: seq<Move>, i: nat) {
    && i <= |order| == |quota| == |sizes| && |table| == Given(quota, sizes, num, i)
    && forall j :: 0 <= j < i ==>
         Count(table, order[j]) == Given(quota, sizes, num, j + 1) - Given(quota, sizes, num, j)
  }

  lemma GivesNext(sources: seq<set<nat>>, order: seq<nat>, quota: seq<nat>, sizes: seq<nat>, num: nat,
                  table: seq<Move>, i: nat, slots: seq<nat>)
    requires IsOrder(order, |sources|) && i < |order| && From(table, order[..i])
    requires GivenUpTo(order, quota, sizes, num, table, i)
    requires |slots| == Min(Min(quota[i], sizes[i]), num - |table|)
    ensures GivenUpTo(order, quota, sizes, num, table + Moves(order[i], slots), i + 1)
  {
    var table' := table + Moves(order[i], slots);
    assert order[i] !in order[..i];
    CountNone(table, order[i]);
    forall j | 0 <= j < i + 1
      ensures Count(table', order[j]) == Given(quota, sizes, num, j + 1) - Given(quota, sizes, num, j)
    {
      CountMore(table, order[i], slots, order[j]);
      if j < i { assert order[j] in order[..i]; }
    }
  }

  lemma ShareIsQuota(i: nat, num: nat, total: nat, size: nat)
    requires total > 0
    ensures Share(i, num as real / total as real, size) >= 0
    ensures IsQuota(i, num, total, size, Share(i, num as real / total as real, size))
  {
    var e := Share(i, num as real / total as real, size);
    var x := num as real / total as real * size as real;
    Cross(num, total, size, e);
    Cross(num, total, size, e - 1);
    Cross(num, total, size, e + 1);
    assert x >= 0.0 by { RatioBounds(num, total); }
  }

  /** A proportional part compared with a number of slots. */
  lemma Cross(num: nat, total: nat, size: nat, e: int)
    requires total > 0
    ensures var x := num as real / total as real * size as real;
            && (e as real <= x <==> e * total <= num * size) && (x <= e as real <==> num * size <= e * total)
  {
    var q, t := num as real / total as real, total as real;
    var x := q * size as real;
    assert x * t == (num * size) as real by {
      assert q * t == num as real;
      assert x * t == (q * t) * size as real;
      assert (num * size) as real == num as real * size as real;
    }
    assert (e * total) as real == e as real * t;
    if e as real < x { Scale(e as real, x, t); } else if x < e as real { Scale(x, e as real, t); }
  }

  method FillTable(sources: seq<set<nat>>, order: seq<nat>, num: nat, ratio: real, ghost quota: seq<nat>)
    returns (table: seq<Move>)
    requires IsOrder(order, |sources|) && ratio >= 0.0
    requires |quota| == |order| && forall i :: 0 <= i < |order| ==> quota[i] == Share(i, ratio, |sources[order[i]]|)
    ensures TableOk(sources, table, num)
    ensures GivenUpTo(order, quota, InOrder(sources, order), num, table, |order|)
    ensures FairShare(sources, table, ratio)
    ensures ratio <= 1.0 ==> |table| == num || |table| == Shares(sources, order, ratio, |sources|)
  {
    table := [];
    for i := 0 to |order|
      invariant NoDup(table) && Lowest(sources, table) && From(table, order[..i]) && |table| <= num
      invariant FairShare(sources, table, ratio)
      invariant GivenUpTo(order, quota, InOrder(sources, order), num, table, i)
      invariant ratio <= 1.0 ==> |table| == num || |table| == Shares(sources, order, ratio, i)
    {
      var size := |sources[order[i]]|;
      var n := Share(i, ratio, size);
      SharePositive(i, ratio, size);
      if ratio <= 1.0 { ShareFits(i, ratio, size); }
      var sorted := SortedSlots(sources[order[i]]);
      TakenOk(sources, order, i, sorted, Min(Min(n, |sorted|), num - |table|), table);
      TakenFair(sources, order[i], sorted, i, Min(Min(n, |sorted|), num - |table|), ratio, table);
      ghost var taken := sorted[..Min(Min(n, |sorted|), num - |table|)];
      GivesNext(sources, order, quota, InOrder(sources, order), num, table, i, taken);
      table := TakeFrom(order[i], sorted, n, num, table);
    }
  }

  lemma RatioBounds(num: nat, total: nat)
    requires total > 0
    ensures num as real / total as real >= 0.0
    ensures num <= total ==> num as real / total as real <= 1.0
  {
  }

  method SumSizes(sources: seq<set<nat>>, order: seq<nat>) returns (total: nat)
    requires forall j :: 0 <= j < |order| ==> order[j] < |sources|
    ensures total == Sizes(sources, order, |order|)
  {
    total := 0;
    for i := 0 to |order|
      invariant total == Sizes(sources, order, i)
    {
      total := total + |sources[order[i]]|;
    }
  }

  /** The quotas are the proportional parts, and each source gives accordingly. */
  ghost predicate Gives(sources: seq<set<nat>>, order: seq<nat>, quota: seq<nat>, num: nat, total: int,
                        table: seq<Move>)
  {
    && IsOrder(order, |sources|) && |quota| == |order|
    && (forall i :: 0 <= i < |order| ==> IsQuota(i, num, total, |sources[order[i]]|, quota[i]))
    && GivenUpTo(order, quota, InOrder(sources, order), num, table, |order|)
  }

  /** The lowest slots of each source, each slot once, never more than asked for, and short of it by less
      than one per source after the second. */
  ghost predicate Planned(sources: seq<set<nat>>, order: seq<nat>, quota: seq<nat>, num: nat, total: int,
                          table: seq<Move>)
  {
    && TableOk(sources, table, num)
    && Fair(sources, table, num, total)
    && Gives(sources, order, quota, num, total, table)
    && (num <= total ==> |table| >= num - (if |sources| > 2 then |sources| - 2 else 0))
  }

  method Proportional(sources: seq<set<nat>>, order: seq<nat>, num: nat, total: nat)
    returns (table: seq<Move>, ghost quota: seq<nat>)
    requires IsOrder(order, |sources|) && total > 0 && total == Sizes(sources, order, |sources|)
    ensures Planned(sources, order, quota, num, total, table)
  {
    var ratio := num as real / total as real;
    RatioBounds(num, total);
    SharesEnough(sources, order, num, total, ratio);
    forall i | 0 <= i < |order|
      ensures Share(i, ratio, |sources[order[i]]|) >= 0
      ensures IsQuota(i, num, total, |sources[order[i]]|, Share(i, ratio, |sources[order[i]]|))
    {
      ShareIsQuota(i, num, total, |sources[order[i]]|);
    }
    quota := seq(|order|, i requires 0 <= i < |order| => Share(i, ratio, |sources[order[i]]|));
    table := FillTable(sources, order, num, ratio, quota);
    FairIs(sources, table, num, total);
  }

  ghost predicate Biggest(sources: seq<set<nat>>, order: seq<nat>) {
    IsOrder(order, |sources|)
    && forall i, j :: 0 <= i < j < |order| ==> |sources[order[i]]| >= |sources[order[j]]|
  }

  /** A plan to move `num` slots.  Each source gives its proportional part, the biggest source rounded up
      and the others down, until there are enough. */
  method ReshardTable(sources: seq<set<nat>>, num: nat)
    returns (plan: Plan, ghost order: seq<nat>, ghost quota: seq<nat>)
    ensures Biggest(sources, order)
    ensures sources == [] ==> plan == Plan([])
    ensures plan == NotANumber <==> sources != [] && TotalSize(sources) == 0
    ensures plan.Plan? && sources != []
            ==> Planned(sources, order, quota, num, TotalSize(sources), plan.table)
  {
    var sorted := BiggestFirst(sources);
    order, quota := sorted, [];
    var total := SumSizes(sources, sorted);
    if sources == [] { return Plan([]), order, quota; }
    if total == 0 { return NotANumber, order, quota; }
    var table;
    table, quota := Proportional(sources, sorted, num, total);
    plan := Plan(table);
  }

  lemma SharePositive(i: nat, ratio: real, size: nat)
    requires ratio >= 0.0
    ensures Share(i, ratio, size) >= 0
  {
    assert ratio * size as real >= 0.0;
  }
}
