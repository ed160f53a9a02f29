/** How `redis-trib` mixes the nodes of different hosts before it chooses masters and replicas. */
module NodeInterleaving {
  import opened Basics

  /** Node number `num` of host number `host`. */
  datatype Pick = Pick(host: nat, num: nat)

  /** Round-robin order. */
  predicate Precedes(a: Pick, b: Pick) {
    a.num < b.num || (a.num == b.num && a.host < b.host)
  }

  ghost predicate Increasing(picks: seq<Pick>) {
    forall i, j :: 0 <= i < j < |picks| ==> Precedes(picks[i], picks[j])
  }

  ghost predicate IsNode<T>(lists: seq<seq<T>>, p: Pick) {
    p.host < |lists| && p.num < |lists[p.host]|
  }

  /** `out` is the nodes that `picks` names. */
  ghost predicate Names<T>(lists: seq<seq<T>>, picks: seq<Pick>, out: seq<T>) {
    && |out| == |picks|
    && forall i :: 0 <= i < |picks| ==> IsNode(lists, picks[i]) && out[i] == lists[picks[i].host][picks[i].num]
  }

  ghost predicate Complete<T>(lists: seq<seq<T>>, picks: seq<Pick>) {
    forall p :: IsNode(lists, p) ==> p in picks
  }

  /** `out` is every node of every host, once, in round-robin order. */
  ghost predicate RoundRobin<T>(lists: seq<seq<T>>, out: seq<T>) {
    exists picks :: Names(lists, picks, out) && Increasing(picks) && Complete(lists, picks)
  }

  function Total<T>(lists: seq<seq<T>>): nat {
    if lists == [] then 0 else |lists[0]| + Total(lists[1..])
  }

  lemma {:induction false} TotalShift<T>(lists: seq<seq<T>>, h: nat)
    requires h < |lists| && lists[h] != []
    ensures Total(lists[h := lists[h][1..]]) == Total(lists) - 1
  {
    var l := lists[h := lists[h][1..]];
    if h == 0 {
      assert l[1..] == lists[1..];
    } else {
      TotalShift(lists[1..], h - 1);
      assert l[1..] == lists[1..][h - 1 := lists[1..][h - 1][1..]];
    }
  }

  lemma {:induction false} TotalZero<T>(lists: seq<seq<T>>)
    ensures Total(lists) == 0 <==> forall h :: 0 <= h < |lists| ==> lists[h] == []
  {
    if lists != [] {
      TotalZero(lists[1..]);
      assert forall h :: 1 <= h < |lists| ==> lists[h] == lists[1..][h - 1];
    }
  }

  /** All nodes of all hosts. */
  ghost function Bag<T>(lists: seq<seq<T>>): multiset<T> {
    if lists == [] then multiset{} else multiset(lists[0]) + Bag(lists[1..])
  }

  lemma {:induction false} BagAt<T>(lists: seq<seq<T>>, h: nat)
    requires h < |lists|
    ensures Bag(lists) == multiset(lists[h]) + Bag(lists[..h] + lists[h + 1..])
  {
    var others := lists[..h] + lists[h + 1..];
    if h == 0 {
      assert others == lists[1..];
    } else {
      BagAt(lists[1..], h - 1);
      assert others[0] == lists[0] && others[1..] == lists[1..][..h - 1] + lists[1..][h..];
      assert lists[1..][h..] == lists[h + 1..];
    }
  }

  lemma BagUpdate<T>(lists: seq<seq<T>>, h: nat, l: seq<T>)
    requires h < |lists|
    ensures Bag(lists) == multiset(lists[h]) + Bag(lists[..h] + lists[h + 1..])
    ensures Bag(lists[h := l]) == multiset(l) + Bag(lists[..h] + lists[h + 1..])
  {
    BagAt(lists, h);
    BagAt(lists[h := l], h);
    assert lists[h := l][..h] == lists[..h] && lists[h := l][h + 1..] == lists[h + 1..];
  }

  lemma BagShift<T>(lists: seq<seq<T>>, h: nat)
    requires h < |lists| && lists[h] != []
    ensures Bag(lists) == multiset{lists[h][0]} + Bag(lists[h := lists[h][1..]])
  {
    BagUpdate(lists, h, lists[h][1..]);
    assert lists[h] == [lists[h][0]] + lists[h][1..];
  }

  lemma BagGrow<T>(lists: seq<seq<T>>, h: nat, x: T)
    requires h < |lists|
    ensures Bag(lists[h := lists[h] + [x]]) == Bag(lists) + multiset{x}
  {
    BagUpdate(lists, h, lists[h] + [x]);
  }

  lemma {:induction false} BagEmpty<T>(lists: seq<seq<T>>)
    requires Total(lists) == 0
    ensures Bag(lists) == multiset{}
  {
    if lists != [] { BagEmpty(lists[1..]); }
  }

  /** How many nodes of host `g` have been taken when round `r` has reached host `h`. */
  function Taken(len: nat, g: nat, h: nat, r: nat): nat {
    Min(if g < h then r + 1 else r, len)
  }

  /** Round `r` has reached host `h`. */
  ghost predicate At<T>(lists: seq<seq<T>>, rest: seq<seq<T>>, picks: seq<Pick>, out: seq<T>, h: nat, r: nat) {
    && |rest| == |lists| && Names(lists, picks, out) && Increasing(picks)
    && (forall g :: 0 <= g < |lists| ==> rest[g] == lists[g][Taken(|lists[g]|, g, h, r)..])
    && (forall p :: p in picks ==> Precedes(p, Pick(h, r)))
    && (forall p :: IsNode(lists, p) && p.num < Taken(|lists[p.host]|, p.host, h, r) ==> p in picks)
  }

  lemma TakeNode<T>(lists: seq<seq<T>>, rest: seq<seq<T>>, picks: seq<Pick>, out: seq<T>, h: nat, r: nat)
    requires At(lists, rest, picks, out, h, r) && h < |lists| && rest[h] != []
    ensures At(lists, rest[h := rest[h][1..]], picks + [Pick(h, r)], out + [rest[h][0]], h + 1, r)
  {
    var picks', rest' := picks + [Pick(h, r)], rest[h := rest[h][1..]];
    assert rest[h][0] == lists[h][r];
    forall p | p in picks' ensures Precedes(p, Pick(h + 1, r)) {
      if p != Pick(h, r) { assert p in picks; }
    }
    forall i, j | 0 <= i < j < |picks'| ensures Precedes(picks'[i], picks'[j]) {
      assert picks'[i] in picks;
    }
    forall p | IsNode(lists, p) && p.num < Taken(|lists[p.host]|, p.host, h + 1, r) ensures p in picks' {
      if p != Pick(h, r) { assert p.num < Taken(|lists[p.host]|, p.host, h, r); }
    }
  }

  lemma SkipHost<T>(lists: seq<seq<T>>, rest: seq<seq<T>>, picks: seq<Pick>, out: seq<T>, h: nat, r: nat)
    requires At(lists, rest, picks, out, h, r) && h < |lists| && rest[h] == []
    ensures At(lists, rest, picks, out, h + 1, r)
  {
    forall p | p in picks ensures Precedes(p, Pick(h + 1, r)) {
      assert Precedes(p, Pick(h, r));
    }
  }

  lemma NextRound<T>(lists: seq<seq<T>>, rest: seq<seq<T>>, picks: seq<Pick>, out: seq<T>, r: nat)
    requires At(lists, rest, picks, out, |lists|, r)
    ensures At(lists, rest, picks, out, 0, r + 1)
  {
    forall p | p in picks ensures Precedes(p, Pick(0, r + 1)) {
      assert exists i :: 0 <= i < |picks| && picks[i] == p;
      assert IsNode(lists, p) && Precedes(p, Pick(|lists|, r));
    }
  }

  lemma AllTaken<T>(lists: seq<seq<T>>, rest: seq<seq<T>>, picks: seq<Pick>, out: seq<T>, h: nat, r: nat)
    requires At(lists, rest, picks, out, h, r) && Total(rest) == 0
    ensures Complete(lists, picks)
  {
    TotalZero(rest);
    forall p | IsNode(lists, p) ensures p in picks {
      assert rest[p.host] == [];
    }
  }

  lemma MoveOver<T>(rest: seq<seq<T>>, out: seq<T>, h: nat)
    requires h < |rest| && rest[h] != []
    ensures Total(rest[h := rest[h][1..]]) == Total(rest) - 1
    ensures multiset(out + [rest[h][0]]) + Bag(rest[h := rest[h][1..]]) == multiset(out) + Bag(rest)
  {
    TotalShift(rest, h);
    BagShift(rest, h);
  }

  method TakeFirst<T>(lists: seq<seq<T>>, rest0: seq<seq<T>>, out0: seq<T>, ghost picks0: seq<Pick>, h: nat,
                      ghost r: nat)
    returns (rest: seq<seq<T>>, out: seq<T>, ghost picks: seq<Pick>)
    requires At(lists, rest0, picks0, out0, h, r) && h < |rest0| && rest0[h] != []
    ensures At(lists, rest, picks, out, h + 1, r) && |rest| == |rest0| && |out| == |out0| + 1
    ensures Total(rest) == Total(rest0) - 1 && multiset(out) + Bag(rest) == multiset(out0) + Bag(rest0)
  {
    TakeNode(lists, rest0, picks0, out0, h, r);
    MoveOver(rest0, out0, h);
    out := out0 + [rest0[h][0]];
    picks := picks0 + [Pick(h, r)];
    rest := rest0[h := rest0[h][1..]];
  }

  /** A node of a host, if it has any left. */
  method TakeFrom<T>(lists: seq<seq<T>>, rest0: seq<seq<T>>, out0: seq<T>, ghost picks0: seq<Pick>, h: nat,
                     ghost r: nat)
    returns (rest: seq<seq<T>>, out: seq<T>, ghost picks: seq<Pick>)
    requires At(lists, rest0, picks0, out0, h, r) && h < |rest0|
    ensures At(lists, rest, picks, out, h + 1, r) && |rest| == |rest0| && |out| + Total(rest) == |out0| + Total(rest0)
    ensures if rest0[h] == [] then rest == rest0 && out == out0 else Total(rest) < Total(rest0)
    ensures multiset(out) + Bag(rest) == multiset(out0) + Bag(rest0)
  {
    rest, out, picks := rest0, out0, picks0;
    if rest[h] == [] {
      SkipHost(lists, rest, picks, out, h, r);
    } else {
      rest, out, picks := TakeFirst(lists, rest, out, picks, h, r);
    }
  }

  /** One turn over the hosts: a node from each that has any left; a host without nodes stops the loop
      once all have been taken. */
  method TakeTurn<T>(lists: seq<seq<T>>, rest0: seq<seq<T>>, out0: seq<T>, count: nat, ghost picks0: seq<Pick>,
                     ghost r: nat)
    returns (rest: seq<seq<T>>, out: seq<T>, stop: bool, ghost picks: seq<Pick>)
    requires At(lists, rest0, picks0, out0, 0, r) && |out0| + Total(rest0) == count
    ensures At(lists, rest, picks, out, 0, r + 1) && |out| + Total(rest) == count
    ensures lists != [] ==> if stop then Total(rest) == 0 else Total(rest) < Total(rest0)
    ensures lists == [] ==> !stop && rest == rest0 && out == out0
    ensures multiset(out) + Bag(rest) == multiset(out0) + Bag(rest0)
  {
    rest, out, stop, picks := rest0, out0, false, picks0;
    var h := 0;
    while h < |rest|
      invariant h <= |rest| == |lists| == |rest0|
      invariant At(lists, rest, picks, out, h, r) && |out| + Total(rest) == count
      invariant stop ==> Total(rest) == 0
      invariant Total(rest) < Total(rest0) || (rest == rest0 && forall g :: 0 <= g < h ==> rest0[g] == [])
      invariant h > 0 && Total(rest0) == 0 ==> stop
      invariant h == 0 ==> !stop && rest == rest0 && out == out0
      invariant multiset(out) + Bag(rest) == multiset(out0) + Bag(rest0)
    {
      if rest[h] == [] && |out| == count { stop := true; }
      rest, out, picks := TakeFrom(lists, rest, out, picks, h, r);
      h := h + 1;
    }
    NextRound(lists, rest, picks, out, r);
    TotalZero(rest0);
  }

  lemma AtStart<T>(lists: seq<seq<T>>)
    ensures At(lists, lists, [], [], 0, 0)
  {
    assert forall g :: 0 <= g < |lists| ==> lists[g] == lists[g][0..];
  }

  /** One node from each host in turn until all are taken.  Without any host a turn neither changes
      anything nor stops, so the loop never ends: that outcome is None. */
  method Interleave<T>(lists: seq<seq<T>>) returns (out: Option<seq<T>>)
    ensures out.None? <==> lists == []
    ensures out.Some? ==> RoundRobin(lists, out.value) && multiset(out.value) == Bag(lists)
  {
    if lists == [] { return None; }
    var rest, stop, count, done := lists, false, Total(lists), [];
    ghost var picks, r: nat := [], 0;
    AtStart(lists);
    while !stop
      invariant At(lists, rest, picks, done, 0, r) && |done| + Total(rest) == count
      invariant stop ==> Total(rest) == 0
      invariant multiset(done) + Bag(rest) == Bag(lists)
      decreases Total(rest), !stop
    {
      rest, done, stop, picks := TakeTurn(lists, rest, done, count, picks, r);
      r := r + 1;
    }
    AllTaken(lists, rest, picks, done, 0, r);
    BagEmpty(rest);
    out := Some(done);
  }

  // ---- Fairness -------------------------------------------------------------------------------------

  function Count(picks: seq<Pick>, h: nat): nat {
    if picks == [] then 0
    else Count(picks[..|picks| - 1], h) + if picks[|picks| - 1].host == h then 1 else 0
  }

  /** A prefix holds the first few nodes of each host. */
  lemma {:induction false} PrefixCount<T>(lists: seq<seq<T>>, picks: seq<Pick>, k: nat, h: nat)
    requires Increasing(picks) && Complete(lists, picks) && k <= |picks|
    requires forall p :: p in picks ==> IsNode(lists, p)
    ensures forall j: nat :: Pick(h, j) in picks[..k] <==> j < Count(picks[..k], h)
  {
    if k > 0 {
      PrefixCount(lists, picks, k - 1, h);
      assert picks[..k][..k - 1] == picks[..k - 1];
      assert picks[..k] == picks[..k - 1] + [picks[k - 1]];
      var c, p := Count(picks[..k - 1], h), picks[k - 1];
      if p.host == h {
        assert p in picks && p !in picks[..k - 1];
        assert p.num > c ==> IsNode(lists, Pick(h, c));
        assert p.num == c;
      }
    }
  }

  /** At every prefix, a host with nodes left trails any other host by at most one. */
  lemma Fair<T>(lists: seq<seq<T>>, picks: seq<Pick>, k: nat, g: nat, h: nat)
    requires Increasing(picks) && Complete(lists, picks) && k <= |picks|
    requires forall p :: p in picks ==> IsNode(lists, p)
    requires h < |lists| && Count(picks[..k], h) < |lists[h]|
    ensures Count(picks[..k], g) <= Count(picks[..k], h) + 1
  {
    PrefixCount(lists, picks, k, g);
    PrefixCount(lists, picks, k, h);
    var c := Count(picks[..k], h);
    assert IsNode(lists, Pick(h, c)) && Pick(h, c) !in picks[..k];
    assert Pick(g, c + 1) !in picks[..k];
  }
}
