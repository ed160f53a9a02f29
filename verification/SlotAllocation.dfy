/** How `redis-trib` hands out hash slots and replicas when it creates a cluster. */
module SlotAllocation {

  // ---- Slots to masters -----------------------------------------------------------------------------

  datatype Range = Range(first: int, last: int)

  /** Rounding to the nearest integer, halves away from zero. */
  function Round(x: real): int {
    if x >= 0.0 then (x + 0.5).Floor else -(-x + 0.5).Floor
  }

  /** The ranges follow one another from 0 to n - 1, and none is empty. */
  ghost predicate Partition(ranges: seq<Range>, n: nat) {
    && ranges != [] && ranges[0].first == 0 && ranges[|ranges| - 1].last == n - 1
    && (forall i :: 0 <= i < |ranges| ==> ranges[i].first <= ranges[i].last)
    && (forall i :: 0 <= i < |ranges| - 1 ==> ranges[i + 1].first == ranges[i].last + 1)
  }

  /** Each range has between `lo` and `hi` slots. */
  ghost predicate Sizes(ranges: seq<Range>, lo: int, hi: int) {
    forall i :: 0 <= i < |ranges| ==> lo <= ranges[i].last - ranges[i].first + 1 <= hi
  }

  /** The cursor after `i` masters, and where their ranges end: the cursor, rounded. */
  function Cursor(i: nat, share: real): real {
    if i == 0 then 0.0 else Cursor(i - 1, share) + share
  }

  function Start(i: nat, share: real): int {
    (Cursor(i, share) + 0.5).Floor
  }

  lemma {:induction false} CursorAt(i: nat, share: real)
    ensures Cursor(i, share) == i as real * share
  {
    if i > 0 {
      CursorAt(i - 1, share);
      assert (i as real) * share == (i - 1) as real * share + share;
    }
  }

  lemma {:induction false} CursorMonotone(i: nat, j: nat, share: real)
    requires i <= j && share >= 0.0
    ensures 0.0 <= Cursor(i, share) <= Cursor(j, share)
  {
    if i < j {
      CursorMonotone(i, j - 1, share);
    } else if i > 0 {
      CursorMonotone(i - 1, i - 1, share);
    }
  }

  lemma FloorStep(x: real, s: real, lo: int, hi: int)
    requires lo as real <= s <= hi as real
    ensures lo <= (x + s).Floor - x.Floor <= hi
  {
    var f := x.Floor;
    assert f as real + lo as real <= x + s < f as real + 1.0 + hi as real;
  }

  lemma ShareBounds(n: nat, m: nat)
    requires m > 0
    ensures (n / m) as real <= n as real / m as real <= ((n + m - 1) / m) as real
  {
    var lo, hi := n / m, (n + m - 1) / m;
    var share := n as real / m as real;
    assert m * lo <= n <= m * hi;
    Cancel(m as real, lo as real, share);
    Cancel(m as real, share, hi as real);
  }

  lemma Cancel(m: real, a: real, b: real)
    requires m > 0.0 && m * a <= m * b
    ensures a <= b
  {
  }

  lemma CursorEnd(n: nat, m: nat, share: real)
    requires m > 0 && share == n as real / m as real
    ensures Cursor(m, share) == n as real && Start(m, share) == n && share >= 0.0
    ensures 0 < m <= n ==> share >= 1.0 && n / m >= 1
  {
    CursorAt(m, share);
    if m <= n {
      AtLeastOne(n, m);
      ShareBounds(n, m);
    }
  }

  lemma RoundedEnd(x: real, share: real)
    requires x >= 0.0 && share >= 1.0
    ensures Round(x + share - 1.0) == (x + share + 0.5).Floor - 1
  {
  }

  lemma StartStep(i: nat, n: nat, m: nat, share: real)
    requires m > 0 && share == n as real / m as real
    ensures n / m <= Start(i + 1, share) - Start(i, share) <= (n + m - 1) / m
  {
    ShareBounds(n, m);
    FloorStep(Cursor(i, share) + 0.5, share, n / m, (n + m - 1) / m);
    assert Cursor(i + 1, share) + 0.5 == (Cursor(i, share) + 0.5) + share;
  }

  /** Where the code puts the end of range `i`, before its two corrections. */
  lemma RangeEnd(i: nat, n: nat, m: nat, share: real)
    requires 0 < m <= n && i < m && share == n as real / m as real
    ensures Round(Cursor(i, share) + share - 1.0) == Start(i + 1, share) - 1
    ensures Start(i, share) < Start(i + 1, share) <= n && (i == m - 1 ==> Start(i + 1, share) == n)
  {
    CursorEnd(n, m, share);
    CursorMonotone(i, i, share);
    CursorMonotone(i + 1, m, share);
    RoundedEnd(Cursor(i, share), share);
    StartStep(i, n, m, share);
  }

  lemma AtLeastOne(n: nat, m: nat)
    requires 0 < m <= n
    ensures n / m >= 1
  {
  }

  /** The loop over the masters: a partition into ranges of the share's floor or ceiling, exactly when
      there are no more masters than slots. */
  method AllocSlots(n: nat, m: nat) returns (ranges: seq<Range>)
    ensures |ranges| == m
    ensures m > 0 ==> (Partition(ranges, n) <==> m <= n)
    ensures 0 < m <= n ==> Sizes(ranges, n / m, (n + m - 1) / m)
  {
    ranges := [];
    if m == 0 { return; }
    var share := n as real / m as real;
    var first, cursor, i := 0, 0.0, 0;
    ghost var lo, hi := n / m, (n + m - 1) / m;
    while i < m
      invariant 0 <= i <= m && |ranges| == i && cursor == Cursor(i, share) && first >= i
      invariant m <= n ==> first == Start(i, share) && Sizes(ranges, lo, hi)
      invariant i == 0 ==> first == 0
      invariant i > 0 ==> Partition(ranges, first)
      invariant i == m <= n ==> first == n
    {
      var last := Round(cursor + share - 1.0);
      if m <= n {
        RangeEnd(i, n, m, share);
        assert lo <= Start(i + 1, share) - Start(i, share) <= hi by { StartStep(i, n, m, share); }
      }
      if last > n || i == m - 1 { last := n - 1; }
      if last < first { last := first; }
      ranges := ranges + [Range(first, last)];
      first := last + 1;
      cursor := cursor + share;
      i := i + 1;
    }
  }
}
