/** How `redis-trib` chooses masters among the interleaved nodes and hands the others out as replicas. */
module ReplicaAssignment {
  import opened Basics

  datatype Node = Node(host: nat, id: nat)

  /** One "adding replica" line: which master got which node. */
  datatype Assignment = Assignment(master: nat, node: Node)

  function NodesOf(log: seq<Assignment>): (nodes: seq<Node>)
    ensures |nodes| == |log| && forall i :: 0 <= i < |log| ==> nodes[i] == log[i].node
  {
    seq(|log|, i requires 0 <= i < |log| => log[i].node)
  }

  /** How many nodes a master got. */
  function Count(log: seq<Assignment>, master: nat): nat {
    if log == [] then 0
    else Count(log[..|log| - 1], master) + if log[|log| - 1].master == master then 1 else 0
  }

  lemma CountSnoc(log: seq<Assignment>, a: Assignment, master: nat)
    ensures Count(log + [a], master) == Count(log, master) + if a.master == master then 1 else 0
  {
    assert (log + [a])[..|log|] == log;
  }

  lemma NodesSnoc(log: seq<Assignment>, a: Assignment)
    ensures NodesOf(log + [a]) == NodesOf(log) + [a.node]
  {
  }

  /** A master got a node of its own host only when nothing else was left: whatever was assigned after
      that, and whatever is left over, is on that host too. */
  ghost predicate Avoids(masters: seq<Node>, log: seq<Assignment>, pool: seq<Node>) {
    forall i :: 0 <= i < |log| ==>
      && log[i].master < |masters|
      && (log[i].node.host == masters[log[i].master].host ==>
            && (forall j :: i < j < |log| ==> log[j].node.host == log[i].node.host)
            && (forall p :: p in pool ==> p.host == log[i].node.host))
  }

  /** `node` is the first of `pool` on another host than the master's, or the first of all if there is none. */
  ghost predicate Chosen(pool: seq<Node>, master: Node, node: Node, rest: seq<Node>) {
    exists k :: 0 <= k < |pool| && node == pool[k] && rest == pool[..k] + pool[k + 1..]
             && (forall j :: 0 <= j < k ==> pool[j].host == master.host)
             && (node.host == master.host ==> k == 0 && forall j :: 0 <= j < |pool| ==> pool[j].host == master.host)
  }

  method PickReplica(pool: seq<Node>, master: Node) returns (node: Node, rest: seq<Node>)
    requires pool != []
    ensures Chosen(pool, master, node, rest)
    ensures multiset(pool) == multiset(rest) + multiset{node} && |rest| == |pool| - 1
  {
    var k := 0;
    while k < |pool| && pool[k].host == master.host
      invariant k <= |pool| && forall j :: 0 <= j < k ==> pool[j].host == master.host
    {
      k := k + 1;
    }
    if k == |pool| { k := 0; }
    node, rest := pool[k], pool[..k] + pool[k + 1..];
    assert pool == pool[..k] + [pool[k]] + pool[k + 1..];
  }

  /** What master `i` gets when `g` nodes are dealt to each master in turn out of `p`. */
  function Dealt(p: nat, g: nat, i: nat): nat {
    if i == 0 then Min(g, p) else Dealt(p - Min(g, p), g, i - 1)
  }

  /** What is left of `p` after `i` masters. */
  function Undealt(p: nat, g: nat, i: nat): nat {
    if i == 0 then p else Undealt(p - Min(g, p), g, i - 1)
  }

  lemma {:induction false} DealtStep(p: nat, g: nat, i: nat)
    ensures Dealt(p, g, i) == Min(g, Undealt(p, g, i))
    ensures Undealt(p, g, i + 1) == Undealt(p, g, i) - Min(g, Undealt(p, g, i))
  {
    if i > 0 { DealtStep(p - Min(g, p), g, i - 1); }
  }

  /** Enough for everybody. */
  lemma {:induction false} DealtFull(p: nat, g: nat, m: nat, i: nat)
    requires p >= g * m && i <= m
    ensures Undealt(p, g, i) == p - g * i
  {
    if i > 0 {
      DealtFull(p, g, m, i - 1);
      DealtStep(p, g, i - 1);
      Product(g, m, i);
    }
  }

  lemma Product(g: nat, m: nat, i: nat)
    requires 0 < i <= m
    ensures g * i == g * (i - 1) + g && g * m >= g * (i - 1) + g
  {
    assert g * (m - i) >= 0;
    assert g * m == g * i + g * (m - i);
  }

  lemma DealtEach(p: nat, g: nat, m: nat, i: nat)
    requires p >= g * m && i < m
    ensures Dealt(p, g, i) == g
  {
    DealtFull(p, g, m, i);
    DealtStep(p, g, i);
    Product(g, m, i + 1);
  }

  /** One for each while they last. */
  lemma {:induction false} DealtOne(p: nat, i: nat)
    ensures Undealt(p, 1, i) == p - Min(p, i) && Dealt(p, 1, i) == if i < p then 1 else 0
  {
    if i > 0 { DealtOne(p - Min(1, p), i - 1); }
  }

  /** One of the two passes over the masters; the second stops after one replica each. */
  method AssignPass(masters: seq<Node>, log0: seq<Assignment>, pool0: seq<Node>, r: nat, unused: bool)
    returns (log: seq<Assignment>, pool: seq<Node>)
    requires Avoids(masters, log0, pool0)
    ensures var g := if unused && r > 0 then 1 else r;
            && |pool| == Undealt(|pool0|, g, |masters|)
            && (forall i :: 0 <= i < |masters| ==> Count(log, i) == Count(log0, i) + Dealt(|pool0|, g, i))
    ensures Avoids(masters, log, pool)
    ensures multiset(NodesOf(log)) + multiset(pool) == multiset(NodesOf(log0)) + multiset(pool0)
  {
    ghost var g := if unused && r > 0 then 1 else r;
    log, pool := log0, pool0;
    for i := 0 to |masters|
      invariant |pool| == Undealt(|pool0|, g, i) && Avoids(masters, log, pool)
      invariant forall j :: 0 <= j < i ==> Count(log, j) == Count(log0, j) + Dealt(|pool0|, g, j)
      invariant forall j :: i <= j < |masters| ==> Count(log, j) == Count(log0, j)
      invariant multiset(NodesOf(log)) + multiset(pool) == multiset(NodesOf(log0)) + multiset(pool0)
    {
      DealtStep(|pool0|, g, i);
      log, pool := AssignTo(masters, i, log, pool, r, unused);
    }
  }

  method AssignOne(masters: seq<Node>, i: nat, log0: seq<Assignment>, pool0: seq<Node>)
    returns (log: seq<Assignment>, pool: seq<Node>)
    requires i < |masters| && pool0 != [] && Avoids(masters, log0, pool0)
    ensures |pool| == |pool0| - 1 && Avoids(masters, log, pool)
    ensures forall j :: 0 <= j < |masters| ==> Count(log, j) == Count(log0, j) + if j == i then 1 else 0
    ensures multiset(NodesOf(log)) + multiset(pool) == multiset(NodesOf(log0)) + multiset(pool0)
  {
    var node, rest := PickReplica(pool0, masters[i]);
    log, pool := log0 + [Assignment(i, node)], rest;
    forall j | 0 <= j < |masters| ensures Count(log, j) == Count(log0, j) + if j == i then 1 else 0 {
      CountSnoc(log0, Assignment(i, node), j);
    }
    NodesSnoc(log0, Assignment(i, node));
    AvoidsMore(masters, log0, pool0, i, node, rest);
  }

  lemma AvoidsMore(masters: seq<Node>, log: seq<Assignment>, pool: seq<Node>, m: nat, node: Node, rest: seq<Node>)
    requires m < |masters| && Avoids(masters, log, pool) && Chosen(pool, masters[m], node, rest)
    ensures Avoids(masters, log + [Assignment(m, node)], rest)
  {
    var k :| 0 <= k < |pool| && node == pool[k] && rest == pool[..k] + pool[k + 1..]
          && (forall j :: 0 <= j < k ==> pool[j].host == masters[m].host)
          && (node.host == masters[m].host ==>
                k == 0 && forall j :: 0 <= j < |pool| ==> pool[j].host == masters[m].host);
    assert node in pool && forall p :: p in rest ==> p in pool;
    var l := log + [Assignment(m, node)];
    forall i | 0 <= i < |l| && l[i].node.host == masters[l[i].master].host
      ensures forall j :: i < j < |l| ==> l[j].node.host == l[i].node.host
      ensures forall p :: p in rest ==> p.host == l[i].node.host
    {
      if i < |log| { assert l[i] == log[i] && forall j :: i < j < |log| ==> l[j] == log[j]; }
    }
  }

  method AssignTo(masters: seq<Node>, i: nat, log0: seq<Assignment>, pool0: seq<Node>, r: nat, unused: bool)
    returns (log: seq<Assignment>, pool: seq<Node>)
    requires i < |masters| && Avoids(masters, log0, pool0)
    ensures var g := if unused && r > 0 then 1 else r;
            && |pool| == |pool0| - Min(g, |pool0|) && Count(log, i) == Count(log0, i) + Min(g, |pool0|)
    ensures forall j :: 0 <= j < |masters| && j != i ==> Count(log, j) == Count(log0, j)
    ensures Avoids(masters, log, pool)
    ensures multiset(NodesOf(log)) + multiset(pool) == multiset(NodesOf(log0)) + multiset(pool0)
  {
    log, pool := log0, pool0;
    var done := 0;
    while done < r
      invariant done <= r && Avoids(masters, log, pool)
      invariant |pool| == |pool0| - done && Count(log, i) == Count(log0, i) + done
      invariant forall j :: 0 <= j < |masters| && j != i ==> Count(log, j) == Count(log0, j)
      invariant multiset(NodesOf(log)) + multiset(pool) == multiset(NodesOf(log0)) + multiset(pool0)
      invariant unused ==> done == 0
    {
      if |pool| == 0 { break; }
      log, pool := AssignOne(masters, i, log, pool);
      done := done + 1;
      if unused { break; }
    }
  }

  lemma Quotient(n: nat, r: nat)
    ensures n - n / (r + 1) >= r * (n / (r + 1)) && n - n / (r + 1) - r * (n / (r + 1)) == n % (r + 1)
    ensures n / (r + 1) <= n
  {
    var m := n / (r + 1);
    assert n == (r + 1) * m + n % (r + 1);
    assert (r + 1) * m == r * m + m;
  }

  method BothPasses(masters: seq<Node>, pool0: seq<Node>, r: nat, ghost spare: nat)
    returns (log: seq<Assignment>, pool: seq<Node>)
    requires |pool0| == r * |masters| + spare && (r == 0 ==> spare == 0)
    ensures |pool| == spare - Min(spare, |masters|) && Avoids(masters, log, pool)
    ensures forall i :: 0 <= i < |masters| ==> Count(log, i) == r + if i < spare then 1 else 0
    ensures multiset(pool0) == multiset(NodesOf(log)) + multiset(pool)
  {
    var m := |masters|;
    log, pool := AssignPass(masters, [], pool0, r, false);
    forall i | 0 <= i < m ensures Count(log, i) == r { DealtEach(|pool0|, r, m, i); }
    assert |pool| == spare by { DealtFull(|pool0|, r, m, m); }
    log, pool := AssignPass(masters, log, pool, r, true);
    SpareDealt(spare, r, m);
    forall i | 0 <= i < m ensures Count(log, i) == r + if i < spare then 1 else 0 { SpareDealt(spare, r, i); }
  }

  /** What becomes of `n` nodes with `r` replicas wanted: masters, the log of assignments, the rest. */
  ghost predicate Assigned(nodes: seq<Node>, r: nat, masters: seq<Node>, log: seq<Assignment>, pool: seq<Node>) {
    var m, spare := |nodes| / (r + 1), |nodes| % (r + 1);
    && m <= |nodes| && masters == nodes[..m]
    && (forall i :: 0 <= i < m ==> Count(log, i) == r + if i < spare then 1 else 0)
    && |pool| == (if spare > m then spare - m else 0)
    && Avoids(masters, log, pool)
    && multiset(nodes) == multiset(masters) + multiset(NodesOf(log)) + multiset(pool)
  }

  /** Masters, then replicas: every master gets r of them, the first few one more, on another host than
      its own as long as there is one, and no node is lost. */
  method AssignNodes(nodes: seq<Node>, r: nat) returns (masters: seq<Node>, log: seq<Assignment>, pool: seq<Node>)
    ensures Assigned(nodes, r, masters, log, pool)
    ensures pool == [] <==> |nodes| % (r + 1) <= |nodes| / (r + 1)
  {
    var m := |nodes| / (r + 1);
    Quotient(|nodes|, r);
    masters := nodes[..m];
    assert nodes == nodes[..m] + nodes[m..];
    log, pool := BothPasses(masters, nodes[m..], r, |nodes| % (r + 1));
  }

  lemma SpareDealt(spare: nat, r: nat, i: nat)
    requires r == 0 ==> spare == 0
    ensures var g := if r > 0 then 1 else r;
            && Undealt(spare, g, i) == spare - Min(spare, i)
            && Dealt(spare, g, i) == if i < spare then 1 else 0
  {
    if r > 0 {
      DealtOne(spare, i);
    } else {
      DealtFull(0, 0, i, i);
      DealtStep(0, 0, i);
    }
  }

  /** The comment in the source that all nodes will be used is wrong for 19 nodes and 4 replicas: three
      masters take five nodes each and then one more, and one node is left over. */
  method OneLeftOver(nodes: seq<Node>) returns (pool: seq<Node>)
    requires |nodes| == 19
    ensures |pool| == 1
  {
    var masters, log;
    masters, log, pool := AssignNodes(nodes, 4);
  }
}
