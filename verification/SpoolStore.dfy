/** All spools of one spooler: their lists in memory, the search tree that leads to them, and the operations
    of `spool.c` on them.  Their contracts speak of the spools by message id only. */
module SpoolStore {
  import opened Basics
  import opened MsgIds
  import opened Spooler
  import opened SpoolMemory
  import opened SpoolWalk
  import opened SpoolNodes
  import opened SpoolDirectory

  class Store {
    const nodes: Nodes
    var recs: map<int, Rec>
    /** The search tree and the next unused address. */
    var addr: map<MsgId, int>
    var top: int
    ghost var tree: Spools
    ghost var current: seq<Sub>

    ghost predicate Valid()
      reads this, nodes
    {
      nodes.Valid() && StoreOk(recs, nodes.names, addr, top, tree, current)
    }

    constructor (internal: set<Sub>)
      ensures Valid() && fresh(nodes) && tree == map[] && current == [] && nodes.got == map[]
    {
      nodes := new Nodes(internal);
      recs, addr, top := map[IMMORTAL := Rec(Newest, Expected, None)], map[], IMMORTAL + 1;
      tree, current := map[], [];
      new;
      nodes.Make(IMMORTAL);
    }

    /** `find_spool`. */
    method Find(x: MsgId) returns (found: bool)
      requires Valid()
      ensures found == (x in tree)
    {
      found := x in addr;
    }

    method Count(id: JoinId) returns (n: int)
      requires Valid() && (id.At? ==> id.id in tree)
      ensures n == |SubsAt(tree, current, id)|
    {
      AddrFacts(recs, nodes.names, addr, top, tree, current, id);
      n := nodes.Count(AddrOf(addr, id));
    }

    method StatusOf(x: MsgId) returns (status: Status)
      requires Valid() && x in tree
      ensures status == tree[x].status
    {
      AddrFacts(recs, nodes.names, addr, top, tree, current, At(x));
      status := recs[addr[x]].status;
    }

    /** `get_spool`, for an id other than the newest. */
    method GetSpool(x: MsgId)
      requires Valid()
      modifies this, nodes
      ensures Valid() && current == old(current) && nodes.got == old(nodes.got)
      ensures tree == old(tree)[x := SpoolOr(old(tree), x)]
    {
      assert x in tree ==> tree[x := tree[x]] == tree;
      if x !in addr {
        SpoolMade(recs, nodes.names, addr, top, tree, current, x);
        var spool := top;
        recs, tree := recs[spool := Rec(At(x), Invalid, None)], tree[x := SpoolRec(Invalid, None, [])];
        addr, top := addr[x := spool], spool + 1;
        nodes.Make(spool);
      }
    }

    /** `destroy_spool`, of a spool that has no subscribers any more. */
    method DestroySpool(x: MsgId)
      requires Valid() && x in tree && tree[x].subs == []
      modifies this, nodes
      ensures Valid() && tree == old(tree) - {x} && current == old(current) && nodes.got == old(nodes.got)
    {
      AddrFacts(recs, nodes.names, addr, top, tree, current, At(x));
      SpoolGone(recs, nodes.names, addr, top, tree, current, x);
      var p := addr[x];
      recs, addr, tree := recs - {p}, addr - {x}, tree - {x};
      nodes.Drop(p);
    }

    /** Another status or message for a spool, or a move to another id: only the record changes. */
    method Change(x: MsgId, y: MsgId, status: Status, msg: Option<MsgId>)
      requires Valid() && x in tree && (y == x || y !in tree)
      modifies this
      ensures Valid() && tree == (old(tree) - {x})[y := SpoolRec(status, msg, old(tree)[x].subs)]
      ensures current == old(current)
    {
      AddrFacts(recs, nodes.names, addr, top, tree, current, At(x));
      var p, rec := addr[x], Rec(At(y), status, msg);
      SpoolChanged(recs, nodes.names, addr, top, tree, current, x, rec);
      recs, addr := recs[p := rec], (addr - {x})[y := p];
      tree := (tree - {x})[y := SpoolRec(status, msg, tree[x].subs)];
    }

    /** `spool_add_subscriber` in the spool `id`: first in its list, or nothing changed. */
    method Add(id: JoinId, s: Sub, enqueued: bool)
      requires Valid() && (id.At? ==> id.id in tree)
      requires s !in current && Outside(tree, s)
      modifies this, nodes
      ensures Valid() && nodes.got == old(nodes.got)
      ensures var subs := [s] + SubsAt(old(tree), old(current), id);
              if enqueued then tree == TreeWith(old(tree), id, subs) && current == CurrentWith(old(current), id, subs)
              else tree == old(tree) && current == old(current)
    {
      AddrFacts(recs, nodes.names, addr, top, tree, current, id);
      Absent(s);
      var p := AddrOf(addr, id);
      if enqueued {
        ghost var subs := [s] + nodes.names[p];
        ListChanged(recs, nodes.names, addr, top, tree, current, p, subs);
        tree, current := TreeWith(tree, id, subs), CurrentWith(current, id, subs);
      }
      nodes.Add(p, s, enqueued);
    }

    /** A subscriber that is in no spool has no node. */
    lemma Absent(s: Sub)
      requires Valid() && s !in current && Outside(tree, s)
      ensures s !in nodes.callback
    {
      nodes.Present(s);
      if s in nodes.callback {
        var p :| p in nodes.names && s in nodes.names[p];
        IdFacts(recs, nodes.names, addr, top, tree, current, p);
      }
    }

    /** `spool_sub_dequeue_callback`: the callback data lead to the spool `id` the subscriber is in. */
    method Dequeue(s: Sub, ghost id: JoinId)
      requires Valid() && (id.At? ==> id.id in tree) && s in SubsAt(tree, current, id)
      modifies this, nodes
      ensures Valid() && nodes.got == old(nodes.got)
      ensures var subs := Staying(SubsAt(old(tree), old(current), id), {s});
              tree == TreeWith(old(tree), id, subs) && current == CurrentWith(old(current), id, subs)
    {
      AddrFacts(recs, nodes.names, addr, top, tree, current, id);
      ghost var p := AddrOf(addr, id);
      ghost var subs := Staying(SubsAt(tree, current, id), {s});
      ListChanged(recs, nodes.names, addr, top, tree, current, p, subs);
      tree, current := TreeWith(tree, id, subs), CurrentWith(current, id, subs);
      nodes.Dequeue(s, p);
    }

    /** `spool_respond_general` on the spool `id`. */
    method RespondGeneral(id: JoinId, msg: Option<MsgId>, leaving: set<Sub>)
      requires Valid() && (id.At? ==> id.id in tree)
      modifies this, nodes
      ensures Valid()
      ensures var was := SubsAt(old(tree), old(current), id);
              && tree == TreeWith(old(tree), id, Staying(was, leaving))
              && current == CurrentWith(old(current), id, Staying(was, leaving))
              && nodes.got == if msg.Some? then Deliver(old(nodes.got), ToSet(was), msg.value) else old(nodes.got)
    {
      AddrFacts(recs, nodes.names, addr, top, tree, current, id);
      var p := AddrOf(addr, id);
      ghost var subs := Staying(SubsAt(tree, current, id), leaving);
      ListChanged(recs, nodes.names, addr, top, tree, current, p, subs);
      tree, current := TreeWith(tree, id, subs), CurrentWith(current, id, subs);
      nodes.RespondGeneral(p, msg, leaving);
    }

    /** `spool_transfer_subscribers`, to a spool of the tree. */
    method TransferSubscribers(from: JoinId, to: MsgId)
      requires Valid() && (from.At? ==> from.id in tree) && to in tree && from != At(to)
      modifies this, nodes
      ensures Valid() && nodes.got == old(nodes.got)
      ensures var was := SubsAt(old(tree), old(current), from);
              && tree == TreeWith(TreeWith(old(tree), from, []), At(to), Reversed(was) + old(tree)[to].subs)
              && current == CurrentWith(old(current), from, [])
    {
      ghost var names := nodes.names;
      AddrFacts(recs, names, addr, top, tree, current, from);
      AddrFacts(recs, names, addr, top, tree, current, At(to));
      var p, q := AddrOf(addr, from), addr[to];
      ghost var subs := Reversed(names[p]) + names[q];
      ListChanged(recs, names, addr, top, tree, current, p, []);
      tree, current := TreeWith(tree, from, []), CurrentWith(current, from, []);
      ListChanged(recs, names[p := []], addr, top, tree, current, q, subs);
      tree := TreeWith(tree, At(to), subs);
      var count := nodes.TransferSubscribers(p, q);
    }

    /** A newcomer for a spool of the tree. */
    method Join(x: MsgId, s: Sub, enqueued: bool)
      requires Valid() && s !in current && Outside(tree, s)
      modifies this, nodes
      ensures Valid() && current == old(current) && nodes.got == old(nodes.got)
      ensures var sp := SpoolOr(old(tree), x);
              tree == old(tree)[x := sp.(subs := if enqueued then [s] + sp.subs else sp.subs)]
    {
      JoinTree(tree, x, s);
      GetSpool(x);
      Add(At(x), s, enqueued);
    }

    /** Everybody from the immortal spool to a spool of the tree. */
    method DrainNewest(m: MsgId)
      requires Valid()
      modifies this, nodes
      ensures Valid() && current == [] && nodes.got == old(nodes.got)
      ensures var sp := SpoolOr(old(tree), m);
              tree == old(tree)[m := sp.(subs := Reversed(old(current)) + sp.subs)]
    {
      ghost var t, sp := tree, SpoolOr(tree, m);
      GetSpool(m);
      TransferSubscribers(Newest, m);
      assert tree == t[m := sp.(subs := Reversed(old(current)) + sp.subs)];
    }

    /** Everybody from one spool of the tree to another one; theirs is destroyed. */
    method Merge(x: MsgId, m: MsgId)
      requires Valid() && x in tree && m in tree && x != m
      modifies this, nodes
      ensures Valid() && current == old(current) && nodes.got == old(nodes.got)
      ensures tree == (old(tree) - {x})[m := old(tree)[m].(subs := Reversed(old(tree)[x].subs) + old(tree)[m].subs)]
    {
      TransferSubscribers(At(x), m);
      DestroySpool(x);
    }

    // ---- What every operation keeps ----------------------------------------------------------------

    /** A subscriber has callback data exactly if it is in a spool, and then it is in that list only, once. */
    lemma OneSpool(s: Sub, id: JoinId, id': JoinId)
      requires Valid() && (id.At? ==> id.id in tree) && (id'.At? ==> id'.id in tree)
      ensures s in SubsAt(tree, current, id) ==> s in nodes.callback && NoDup(SubsAt(tree, current, id))
      ensures s in SubsAt(tree, current, id) && s in SubsAt(tree, current, id') ==> id == id'
      ensures s in nodes.callback <==> s in current || !Outside(tree, s)
    {
      nodes.Present(s);
      AddrFacts(recs, nodes.names, addr, top, tree, current, id);
      AddrFacts(recs, nodes.names, addr, top, tree, current, id');
      if s in nodes.callback && s !in current {
        var p :| p in nodes.names && s in nodes.names[p];
        IdFacts(recs, nodes.names, addr, top, tree, current, p);
      }
      if !Outside(tree, s) {
        var x :| x in tree && s in tree[x].subs;
        AddrFacts(recs, nodes.names, addr, top, tree, current, At(x));
      }
      AddrFacts(recs, nodes.names, addr, top, tree, current, Newest);
    }

    /** Both counters of a spool are those of its list. */
    lemma Counters(id: JoinId)
      requires Valid() && (id.At? ==> id.id in tree)
      ensures id.At? ==> id.id in addr
      ensures AddrOf(addr, id) in nodes.pools
      ensures nodes.pools[AddrOf(addr, id)].subCount == |SubsAt(tree, current, id)|
      ensures nodes.pools[AddrOf(addr, id)].externals == Externals(nodes.internal, SubsAt(tree, current, id))
    {
      AddrFacts(recs, nodes.names, addr, top, tree, current, id);
      nodes.Counted(AddrOf(addr, id));
    }
  }
}
