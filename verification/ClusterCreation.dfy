/** `alloc_slots`: nodes are sorted by host, interleaved, and become masters with slots and replicas. */
module ClusterCreation {
  import opened Basics
  import opened NodeInterleaving
  import opened ReplicaAssignment
  import opened SlotAllocation

  /** The nodes on a host, in the order given. */
  function OnHost(nodes: seq<Node>, host: nat): seq<Node> {
    if nodes == [] then []
    else OnHost(nodes[..|nodes| - 1], host) + if nodes[|nodes| - 1].host == host then [nodes[|nodes| - 1]] else []
  }

  lemma {:induction false} NobodyThere(nodes: seq<Node>, host: nat)
    requires forall x :: x in nodes ==> x.host != host
    ensures OnHost(nodes, host) == []
  {
    if nodes != [] {
      assert nodes == nodes[..|nodes| - 1] + [nodes[|nodes| - 1]];
      NobodyThere(nodes[..|nodes| - 1], host);
    }
  }

  /** One list for each host there is, holding its nodes. */
  ghost predicate Grouped(nodes: seq<Node>, hosts: seq<nat>, lists: seq<seq<Node>>) {
    && |hosts| == |lists| && NoDup(hosts)
    && (forall h :: 0 <= h < |lists| ==> lists[h] != [] && lists[h] == OnHost(nodes, hosts[h]))
    && (forall x :: x in nodes ==> x.host in hosts)
    && Bag(lists) == multiset(nodes)
  }

  method FindHost(hosts: seq<nat>, host: nat) returns (h: nat)
    ensures h <= |hosts| && (h < |hosts| ==> hosts[h] == host) && (h == |hosts| ==> host !in hosts)
  {
    h := 0;
    while h < |hosts| && hosts[h] != host
      invariant h <= |hosts| && forall j :: 0 <= j < h ==> hosts[j] != host
    {
      h := h + 1;
    }
  }

  lemma AddKnown(nodes: seq<Node>, x: Node, hosts: seq<nat>, lists: seq<seq<Node>>, h: nat)
    requires Grouped(nodes, hosts, lists) && h < |hosts| && hosts[h] == x.host
    ensures Grouped(nodes + [x], hosts, lists[h := lists[h] + [x]])
  {
    var l := lists[h := lists[h] + [x]];
    assert Bag(l) == multiset(nodes + [x]) by { BagGrow(lists, h, x); }
    forall g | 0 <= g < |l| ensures l[g] != [] && l[g] == OnHost(nodes + [x], hosts[g]) {
      OnHostSnoc(nodes, x, hosts[g]);
      if g < h { assert hosts[g] != hosts[h]; } else if g > h { assert hosts[h] != hosts[g]; }
    }
    assert forall y :: y in nodes + [x] ==> y.host in hosts;
  }

  lemma OnHostSnoc(nodes: seq<Node>, x: Node, host: nat)
    ensures OnHost(nodes + [x], host) == if x.host == host then OnHost(nodes, host) + [x] else OnHost(nodes, host)
  {
    assert (nodes + [x])[..|nodes|] == nodes;
  }

  lemma {:induction false} BagSnoc(lists: seq<seq<Node>>, l: seq<Node>)
    ensures Bag(lists + [l]) == Bag(lists) + multiset(l)
  {
    if lists == [] {
      assert [] + [l] == [l] && [l][1..] == [];
    } else {
      BagSnoc(lists[1..], l);
      assert (lists + [l])[1..] == lists[1..] + [l];
    }
  }

  lemma AddNew(nodes: seq<Node>, x: Node, hosts: seq<nat>, lists: seq<seq<Node>>)
    requires Grouped(nodes, hosts, lists) && x.host !in hosts
    ensures Grouped(nodes + [x], hosts + [x.host], lists + [[x]])
  {
    var l, hs := lists + [[x]], hosts + [x.host];
    assert Bag(l) == multiset(nodes + [x]) by { BagSnoc(lists, [x]); }
    assert forall y :: y in nodes + [x] ==> y.host in hs;
    forall g | 0 <= g < |l| ensures l[g] != [] && l[g] == OnHost(nodes + [x], hs[g]) {
      OnHostSnoc(nodes, x, hs[g]);
      if g < |lists| {
        assert hs[g] == hosts[g] && hosts[g] in hosts && l[g] == lists[g];
      } else {
        NobodyThere(nodes, x.host);
      }
    }
  }

  method GroupByHost(nodes: seq<Node>) returns (hosts: seq<nat>, lists: seq<seq<Node>>)
    ensures Grouped(nodes, hosts, lists)
  {
    hosts, lists := [], [];
    for i := 0 to |nodes|
      invariant Grouped(nodes[..i], hosts, lists)
    {
      assert nodes[..i + 1] == nodes[..i] + [nodes[i]];
      hosts, lists := AddNode(nodes[..i], nodes[i], hosts, lists);
    }
    assert nodes[..|nodes|] == nodes;
  }

  method AddNode(ghost nodes: seq<Node>, x: Node, hosts0: seq<nat>, lists0: seq<seq<Node>>)
    returns (hosts: seq<nat>, lists: seq<seq<Node>>)
    requires Grouped(nodes, hosts0, lists0)
    ensures Grouped(nodes + [x], hosts, lists)
  {
    hosts, lists := hosts0, lists0;
    var h := FindHost(hosts, x.host);
    if h < |hosts| {
      AddKnown(nodes, x, hosts, lists, h);
      lists := lists[h := lists[h] + [x]];
    } else {
      AddNew(nodes, x, hosts, lists);
      hosts, lists := hosts + [x.host], lists + [[x]];
    }
  }

  datatype Plan = Plan(order: seq<Node>, masters: seq<Node>, ranges: seq<Range>, log: seq<Assignment>,
                       unused: seq<Node>)

  /** The whole of it: every node is a master, a replica or left over; masters come in turn from the hosts;
      the slots are partitioned among them if there are not more masters than slots; replicas avoid their
      master's host while they can.  With no nodes it does not end. */
  method CreateCluster(nodes: seq<Node>, r: nat, n: nat) returns (out: Option<Plan>)
    ensures out.None? <==> nodes == []
    ensures out.Some? ==> exists hosts, lists :: Grouped(nodes, hosts, lists) && RoundRobin(lists, out.value.order)
    ensures out.Some? ==> multiset(out.value.order) == multiset(nodes) && PlanOk(out.value, r, n)
  {
    var hosts, lists := GroupByHost(nodes);
    GroupedEmpty(nodes, hosts, lists);
    var order := Interleave(lists);
    if order.None? { return None; }
    var plan := MakePlan(order.value, r, n);
    out := Some(plan);
  }

  ghost predicate PlanOk(p: Plan, r: nat, n: nat) {
    var m := |p.masters|;
    Assigned(p.order, r, p.masters, p.log, p.unused) && m == |p.order| / (r + 1) && SlotsOk(p.ranges, n, m)
  }

  /** The ranges of `m` masters: disjoint, complete and even exactly if there are enough slots. */
  ghost predicate SlotsOk(ranges: seq<Range>, n: nat, m: nat) {
    && |ranges| == m
    && (m > 0 ==> (Partition(ranges, n) <==> m <= n))
    && (0 < m <= n ==> Sizes(ranges, n / m, (n + m - 1) / m))
  }

  method DealSlots(n: nat, m: nat) returns (ranges: seq<Range>)
    ensures SlotsOk(ranges, n, m)
  {
    ranges := AllocSlots(n, m);
  }

  /** Masters, slots and replicas out of the interleaved nodes. */
  method MakePlan(order: seq<Node>, r: nat, n: nat) returns (p: Plan)
    ensures p.order == order && PlanOk(p, r, n)
  {
    var masters, log, unused := AssignNodes(order, r);
    var ranges := DealSlots(n, |masters|);
    p := Plan(order, masters, ranges, log, unused);
  }

  lemma GroupedEmpty(nodes: seq<Node>, hosts: seq<nat>, lists: seq<seq<Node>>)
    requires Grouped(nodes, hosts, lists)
    ensures lists == [] <==> nodes == []
  {
    if nodes != [] { assert nodes[0] in nodes && nodes[0].host in hosts; }
    if lists != [] { assert lists[0] == OnHost(nodes, hosts[0]); }
  }
}
