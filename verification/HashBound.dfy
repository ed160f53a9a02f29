/** The bucket counters of the hash table: how far `expand_mult` can let chains grow before the
    buckets are doubled.  A counter is a pair of a chain length and its expansion multiplier. */
module HashBound {

  const THRESH := 10

  datatype Counter = Counter(count: nat, mult: nat)

  /** `count >= (expand_mult + 1) * HASH_BKT_CAPACITY_THRESH` */
  predicate AtThreshold(c: Counter) {
    c.count >= (c.mult + 1) * THRESH
  }

  /** What a bucket uses up of the table's allowance. */
  function Weight(c: Counter): nat {
    c.mult + if AtThreshold(c) then 1 else 0
  }

  function Total(cs: seq<Counter>): nat {
    if cs == [] then 0 else cs[0].count + Total(cs[1..])
  }

  function Weights(cs: seq<Counter>): nat {
    if cs == [] then 0 else Weight(cs[0]) + Weights(cs[1..])
  }

  /** No chain is longer than its threshold, and the multipliers together with the buckets at their
      threshold do not outnumber the buckets. */
  ghost predicate Balanced(cs: seq<Counter>) {
    (forall b :: 0 <= b < |cs| ==> cs[b].count <= (cs[b].mult + 1) * THRESH) && Weights(cs) <= |cs|
  }

  lemma {:induction false} TotalUpdate(cs: seq<Counter>, b: nat, c: Counter)
    requires b < |cs|
    ensures Total(cs[b := c]) == Total(cs) - cs[b].count + c.count
    ensures Weights(cs[b := c]) == Weights(cs) - Weight(cs[b]) + Weight(c)
    decreases b
  {
    if b == 0 {
      assert cs[0 := c][1..] == cs[1..];
    } else {
      TotalUpdate(cs[1..], b - 1, c);
      assert cs[b := c][1..] == cs[1..][b - 1 := c];
    }
  }

  lemma {:induction false} TotalZero(cs: seq<Counter>)
    requires forall b :: 0 <= b < |cs| ==> cs[b] == Counter(0, 0)
    ensures Total(cs) == 0 && Weights(cs) == 0
  {
    if cs != [] { TotalZero(cs[1..]); }
  }

  lemma {:induction false} TotalVersusWeights(cs: seq<Counter>)
    requires forall b :: 0 <= b < |cs| ==> cs[b].count <= (cs[b].mult + 1) * THRESH
    ensures Total(cs) <= 9 * |cs| + 10 * Weights(cs)
  {
    if cs != [] { TotalVersusWeights(cs[1..]); }
  }

  /** A balanced table holds at most nineteen items a bucket, whatever the hash function. */
  lemma NineteenPerBucket(cs: seq<Counter>)
    requires Balanced(cs)
    ensures Total(cs) <= 19 * |cs|
  {
    TotalVersusWeights(cs);
  }

  /** One more item in a bucket that stays below its threshold. */
  lemma AddBalanced(cs: seq<Counter>, b: nat)
    requires b < |cs| && Balanced(cs)
    requires !AtThreshold(Counter(cs[b].count + 1, cs[b].mult))
    ensures Balanced(cs[b := Counter(cs[b].count + 1, cs[b].mult)])
  {
    TotalUpdate(cs, b, Counter(cs[b].count + 1, cs[b].mult));
  }

  lemma RemoveBalanced(cs: seq<Counter>, b: nat)
    requires b < |cs| && Balanced(cs) && cs[b].count > 0
    ensures Balanced(cs[b := Counter(cs[b].count - 1, cs[b].mult)])
  {
    TotalUpdate(cs, b, Counter(cs[b].count - 1, cs[b].mult));
  }

  function Ceil(n: nat, d: nat): nat
    requires d > 0
  {
    n / d + if n % d != 0 then 1 else 0
  }

  /** The length of the longest chain when `n` items fill `d` chains evenly. */
  predicate EvenLength(k: nat, n: nat, d: nat) {
    k * d >= n && (k > 0 ==> (k - 1) * d < n)
  }

  lemma CeilIsEven(n: nat, d: nat)
    requires d > 0
    ensures EvenLength(Ceil(n, d), n, d)
  {
    var q, r := n / d, n % d;
    assert n == q * d + r;
    if r == 0 && q > 0 { assert (q - 1) * d == q * d - d; }
    if r != 0 { assert (q + 1) * d == q * d + d; }
  }

  lemma CeilBounds(n: nat, d: nat)
    requires d > 0
    ensures Ceil(n, d) * d >= n
    ensures n <= 10 * d ==> Ceil(n, d) <= 10
    ensures n > 0 ==> Ceil(n, d) > 0
  {
    assert n == n / d * d + n % d;
  }

  lemma Cancel(k: nat, w: nat, m: nat)
    requires k > 0 && k * w <= k * m
    ensures w <= m
  {
  }

  lemma Distribute(k: nat, x: nat, y: nat)
    ensures k * (x + y) == k * x + k * y
  {
  }

  /** What expansion leaves in a bucket: the multiplier counts how often the ideal length fits in. */
  predicate Expanded(c: Counter, ideal: nat) {
    c.mult == if ideal > 0 && c.count > ideal then c.count / ideal else 0
  }

  ghost predicate AllExpanded(cs: seq<Counter>, ideal: nat) {
    forall b :: 0 <= b < |cs| ==> Expanded(cs[b], ideal)
  }

  lemma DivTimes(n: nat, d: nat)
    requires d > 0
    ensures n / d * d <= n < (n / d + 1) * d
  {
  }

  lemma ExpandedBucket(c: Counter, ideal: nat)
    requires Expanded(c, ideal) && 0 < ideal <= THRESH
    ensures c.count <= (c.mult + 1) * THRESH
    ensures ideal * Weight(c) <= c.count
  {
    if c.count > ideal {
      DivTimes(c.count, ideal);
      assert (c.mult + 1) * ideal <= (c.mult + 1) * THRESH;
      assert !AtThreshold(c);
    }
  }

  lemma {:induction false} ExpandedWeights(cs: seq<Counter>, ideal: nat)
    requires AllExpanded(cs, ideal)
    requires 0 < ideal <= THRESH
    ensures ideal * Weights(cs) <= Total(cs)
  {
    if cs != [] {
      ExpandedBucket(cs[0], ideal);
      ExpandedWeights(cs[1..], ideal);
      Distribute(ideal, Weight(cs[0]), Weights(cs[1..]));
    }
  }

  /** Doubling the buckets of a table that was balanced up to the last item added makes it balanced
      again: the ideal chain length is at most ten, and the new multipliers fit. */
  lemma ExpandBalanced(n: nat, cs: seq<Counter>, ideal: nat)
    requires |cs| == 2 * n && n > 0 && 0 < Total(cs) <= 19 * n + 1
    requires ideal == Ceil(Total(cs), |cs|)
    requires AllExpanded(cs, ideal)
    ensures Balanced(cs) && 0 < ideal <= THRESH
  {
    CeilBounds(Total(cs), |cs|);
    ExpandedWeights(cs, ideal);
    forall b | 0 <= b < |cs| ensures cs[b].count <= (cs[b].mult + 1) * THRESH { ExpandedBucket(cs[b], ideal); }
    Cancel(ideal, Weights(cs), |cs|);
  }
}
