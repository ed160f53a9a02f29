/** The spools of a spooler by message id: the search tree leads to their addresses, and what their users see
    of them is their status, their message and their subscribers in order. */
module SpoolDirectory {
  import opened Basics
  import opened MsgIds
  import opened Spooler

  /** The address of the immortal spool, which is part of the spooler itself. */
  const IMMORTAL := 0

  /** The rest of a `subscriber_pool_t`. */
  datatype Rec = Rec(id: JoinId, status: Status, msg: Option<MsgId>)

  /** A spool as its users see it, first subscriber first. */
  datatype SpoolRec = SpoolRec(status: Status, msg: Option<MsgId>, subs: seq<Sub>)

  type Spools = map<MsgId, SpoolRec>

  /** A spool that is in the search tree under its own id, or is the immortal one. */
  ghost predicate Filed(recs: map<int, Rec>, addr: map<MsgId, int>, top: int, p: int) {
    && p in recs && p < top
    && match recs[p].id
       case Newest => p == IMMORTAL
       case At(x) => p != IMMORTAL && x in addr && addr[x] == p
  }

  /** What the search tree leads to. */
  ghost predicate Leads(recs: map<int, Rec>, names: map<int, seq<Sub>>, addr: map<MsgId, int>, tree: Spools, x: MsgId) {
    && x in addr && x in tree && addr[x] in recs && addr[x] in names && recs[addr[x]].id == At(x)
    && tree[x] == SpoolRec(recs[addr[x]].status, recs[addr[x]].msg, names[addr[x]])
  }

  /** The search tree leads to exactly the spools there are, and they are `tree` and `current`. */
  ghost predicate StoreOk(recs: map<int, Rec>, names: map<int, seq<Sub>>, addr: map<MsgId, int>, top: int,
                          tree: Spools, current: seq<Sub>)
  {
    && names.Keys == recs.Keys && tree.Keys == addr.Keys
    && Filed(recs, addr, top, IMMORTAL) && recs[IMMORTAL].id == Newest && current == names[IMMORTAL]
    && (forall p {:trigger Filed(recs, addr, top, p)} :: p in recs ==> Filed(recs, addr, top, p))
    && (forall x {:trigger Leads(recs, names, addr, tree, x)} :: x in addr ==> Leads(recs, names, addr, tree, x))
  }

  function TreeWith(tree: Spools, id: JoinId, subs: seq<Sub>): Spools {
    if id.At? && id.id in tree then tree[id.id := tree[id.id].(subs := subs)] else tree
  }

  function CurrentWith(current: seq<Sub>, id: JoinId, subs: seq<Sub>): seq<Sub> {
    if id.At? then current else subs
  }

  function SubsAt(tree: Spools, current: seq<Sub>, id: JoinId): seq<Sub>
    requires id.At? ==> id.id in tree
  {
    if id.At? then tree[id.id].subs else current
  }

  /** A spool as `get_spool` returns it, found or made. */
  function SpoolOr(tree: Spools, x: MsgId): SpoolRec {
    if x in tree then tree[x] else SpoolRec(Invalid, None, [])
  }

  ghost predicate Outside(t: Spools, s: Sub) {
    forall y :: y in t ==> s !in t[y].subs
  }

  /** A newcomer, first in the list of its spool. */
  lemma JoinTree(t: Spools, x: MsgId, s: Sub)
    requires Outside(t, s)
    ensures var sp := SpoolOr(t, x);
            && Outside(t[x := sp], s)
            && TreeWith(t[x := sp], At(x), [s] + sp.subs) == t[x := sp.(subs := [s] + sp.subs)]
  {
  }

  /** Where a spool id leads. */
  function AddrOf(addr: map<MsgId, int>, id: JoinId): int
    requires id.At? ==> id.id in addr
  {
    if id.At? then addr[id.id] else IMMORTAL
  }

  lemma AddrFacts(recs: map<int, Rec>, names: map<int, seq<Sub>>, addr: map<MsgId, int>, top: int, tree: Spools,
                  current: seq<Sub>, id: JoinId)
    requires StoreOk(recs, names, addr, top, tree, current) && (id.At? ==> id.id in tree)
    ensures id.At? ==> id.id in addr
    ensures var p := AddrOf(addr, id);
            && p in recs && p in names && recs[p].id == id && SubsAt(tree, current, id) == names[p]
            && (id.At? ==> tree[id.id].status == recs[p].status && tree[id.id].msg == recs[p].msg)
  {
    if id.At? { assert Leads(recs, names, addr, tree, id.id); }
  }

  /** Every list belongs to a spool the search tree leads to, or to the immortal one. */
  lemma IdFacts(recs: map<int, Rec>, names: map<int, seq<Sub>>, addr: map<MsgId, int>, top: int, tree: Spools,
                current: seq<Sub>, p: int)
    requires StoreOk(recs, names, addr, top, tree, current) && p in names
    ensures p in recs
    ensures var id := recs[p].id;
            && (id.At? ==> id.id in tree && id.id in addr)
            && p == AddrOf(addr, id) && SubsAt(tree, current, id) == names[p]
  {
    assert Filed(recs, addr, top, p);
    if recs[p].id.At? { assert Leads(recs, names, addr, tree, recs[p].id.id); }
  }

  /** One list has changed. */
  lemma ListChanged(recs: map<int, Rec>, names: map<int, seq<Sub>>, addr: map<MsgId, int>, top: int, tree: Spools,
                    current: seq<Sub>, p: int, subs: seq<Sub>)
    requires StoreOk(recs, names, addr, top, tree, current) && p in names && p in recs
    ensures StoreOk(recs, names[p := subs], addr, top, TreeWith(tree, recs[p].id, subs),
                    CurrentWith(current, recs[p].id, subs))
  {
    IdFacts(recs, names, addr, top, tree, current, p);
    var names', tree' := names[p := subs], TreeWith(tree, recs[p].id, subs);
    forall x | x in addr ensures Leads(recs, names', addr, tree', x) {
      assert Leads(recs, names, addr, tree, x);
    }
  }

  // ---- Spools that come, go and change --------------------------------------------------------------

  lemma SpoolMade(recs: map<int, Rec>, names: map<int, seq<Sub>>, addr: map<MsgId, int>, top: int, tree: Spools,
                  current: seq<Sub>, x: MsgId)
    requires StoreOk(recs, names, addr, top, tree, current) && x !in addr
    ensures top !in names
    ensures StoreOk(recs[top := Rec(At(x), Invalid, None)], names[top := []], addr[x := top], top + 1,
                    tree[x := SpoolRec(Invalid, None, [])], current)
  {
    forall p | p in recs ensures p < top { assert Filed(recs, addr, top, p); }
    var recs', names', addr' := recs[top := Rec(At(x), Invalid, None)], names[top := []], addr[x := top];
    var tree' := tree[x := SpoolRec(Invalid, None, [])];
    forall p | p in recs' ensures Filed(recs', addr', top + 1, p) {
      if p != top { assert Filed(recs, addr, top, p); }
    }
    forall y | y in addr' ensures Leads(recs', names', addr', tree', y) {
      if y != x { assert Leads(recs, names, addr, tree, y); }
    }
  }

  lemma SpoolGone(recs: map<int, Rec>, names: map<int, seq<Sub>>, addr: map<MsgId, int>, top: int, tree: Spools,
                  current: seq<Sub>, x: MsgId)
    requires StoreOk(recs, names, addr, top, tree, current) && x in addr
    ensures StoreOk(recs - {addr[x]}, names - {addr[x]}, addr - {x}, top, tree - {x}, current)
  {
    var p := addr[x];
    assert Leads(recs, names, addr, tree, x);
    forall q | q in recs - {p} ensures Filed(recs - {p}, addr - {x}, top, q) { assert Filed(recs, addr, top, q); }
    forall y | y in addr - {x} ensures Leads(recs - {p}, names - {p}, addr - {x}, tree - {x}, y) {
      assert Leads(recs, names, addr, tree, y);
    }
  }

  /** A spool under another id, or with another status: its list goes along. */
  lemma SpoolChanged(recs: map<int, Rec>, names: map<int, seq<Sub>>, addr: map<MsgId, int>, top: int, tree: Spools,
                     current: seq<Sub>, x: MsgId, rec: Rec)
    requires StoreOk(recs, names, addr, top, tree, current) && x in addr && x in tree
    requires rec.id.At? && (rec.id.id == x || rec.id.id !in addr)
    ensures StoreOk(recs[addr[x] := rec], names, (addr - {x})[rec.id.id := addr[x]], top,
                    (tree - {x})[rec.id.id := SpoolRec(rec.status, rec.msg, tree[x].subs)], current)
  {
    var p, y := addr[x], rec.id.id;
    assert Leads(recs, names, addr, tree, x);
    var recs', addr' := recs[p := rec], (addr - {x})[y := p];
    var tree' := (tree - {x})[y := SpoolRec(rec.status, rec.msg, tree[x].subs)];
    assert Filed(recs, addr, top, p);
    forall q | q in recs' ensures Filed(recs', addr', top, q) { assert Filed(recs, addr, top, q); }
    forall z | z in addr' ensures Leads(recs', names, addr', tree', z) {
      if z != y { assert Leads(recs, names, addr, tree, z); }
    }
  }
}
