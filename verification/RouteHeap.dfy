/**
 The persistent trie on the heap (dataplane/routes.go): insert and remove copy the one path
 they change, write only to nodes they have just allocated, and so leave every published
 snapshot answering as it did.
 */
module RouteHeap {
  import opened Bytes
  import R = Routes

  class RouteNode<V> {
    var zero: RouteNode?<V>
    var one: RouteNode?<V>
    var entry: Option<V>
    ghost var Repr: set<RouteNode<V>>

    constructor (zero: RouteNode?<V>, one: RouteNode?<V>, entry: Option<V>)
      requires ValidRoot(zero) && ValidRoot(one)
      ensures Valid() && Repr == {this} + ReprOf(zero) + ReprOf(one)
      ensures ValidRoot(zero) && ValidRoot(one) && Value() == R.Node(ValueOf(zero), ValueOf(one), entry)
    {
      this.zero, this.one, this.entry := zero, one, entry;
      this.Repr := {this} + ReprOf(zero) + ReprOf(one);
    }

    ghost predicate Valid()
      reads this, Repr
      decreases Repr
    {
      && this in Repr
      && (zero != null ==> zero in Repr && zero.Repr < Repr && this !in zero.Repr && zero.Valid())
      && (one != null ==> one in Repr && one.Repr < Repr && this !in one.Repr && one.Valid())
    }

    /** The trie value this node is the root of. */
    ghost function Value(): (t: R.Trie<V>)
      requires Valid()
      reads this, Repr
      decreases Repr
    {
      R.Node(if zero == null then R.Nil else zero.Value(), if one == null then R.Nil else one.Value(), entry)
    }
  }

  ghost function ReprOf<V>(n: RouteNode?<V>): (r: set<RouteNode<V>>)
    reads n
  {
    if n == null then {} else n.Repr
  }

  ghost predicate ValidRoot<V>(n: RouteNode?<V>)
    reads n, ReprOf(n)
  {
    n == null || n.Valid()
  }

  ghost function ValueOf<V>(n: RouteNode?<V>): (t: R.Trie<V>)
    requires ValidRoot(n)
    reads n, ReprOf(n)
  {
    if n == null then R.Nil else n.Value()
  }

  /** A node like n, or an empty one, with its entry replaced. */
  method CopyWith<V>(n: RouteNode?<V>, v: Option<V>) returns (cp: RouteNode<V>)
    requires ValidRoot(n)
    ensures cp.Valid() && fresh(cp) && cp.Repr <= {cp} + ReprOf(n)
    ensures cp.Value() == R.WithEntry(ValueOf(n), [], v)
  {
    if n == null {
      cp := new RouteNode(null, null, v);
    } else {
      cp := new RouteNode(n.zero, n.one, v);
    }
  }

  /** A node like n, or an empty one, with one child replaced. */
  method CopyOver<V>(n: RouteNode?<V>, bit: bool, child: RouteNode<V>) returns (cp: RouteNode<V>)
    requires ValidRoot(n) && child.Valid()
    ensures cp.Valid() && fresh(cp) && cp.Repr <= {cp} + ReprOf(n) + child.Repr
    ensures cp.Value() == R.WithChild(ValueOf(n), bit, child.Value())
  {
    if n == null {
      if bit {
        cp := new RouteNode(null, child, None);
      } else {
        cp := new RouteNode(child, null, None);
      }
    } else if bit {
      cp := new RouteNode(n.zero, child, n.entry);
    } else {
      cp := new RouteNode(child, n.one, n.entry);
    }
  }

  /** withEntry: allocates the nodes of one path, shares every other subtree, and modifies nothing. */
  method WithEntry<V>(n: RouteNode?<V>, path: seq<bool>, v: Option<V>) returns (cp: RouteNode<V>)
    requires ValidRoot(n)
    ensures cp.Valid() && fresh(cp) && fresh(cp.Repr - ReprOf(n))
    ensures cp.Value() == R.WithEntry(ValueOf(n), path, v)
    decreases |path|
  {
    hide R.WithChild;
    if path == [] {
      cp := CopyWith(n, v);
    } else {
      var under := if n == null then null else if path[0] then n.one else n.zero;
      var child := WithEntry(under, path[1..], v);
      cp := CopyOver(n, path[0], child);
    }
  }

  /** node: the walk to a path's node. */
  method EntryAt<V>(n: RouteNode?<V>, path: seq<bool>) returns (e: Option<V>)
    requires ValidRoot(n)
    ensures e == R.Get(ValueOf(n), path)
  {
    var cur, i := n, 0;
    while cur != null && i < |path|
      invariant 0 <= i <= |path| && ValidRoot(cur)
      invariant R.Get(ValueOf(n), path) == R.Get(ValueOf(cur), path[i..])
    {
      assert path[i..][1..] == path[i + 1..];
      cur := if path[i] then cur.one else cur.zero;
      i := i + 1;
    }
    e := if cur == null then None else cur.entry;
  }

  /** lookup: the walk over every bit of the address, keeping the last entry seen. */
  method LookupPath<V>(n: RouteNode?<V>, path: seq<bool>) returns (best: Option<V>)
    requires ValidRoot(n)
    ensures best == R.Walk(ValueOf(n), path, None)
  {
    best := None;
    var cur, i := n, 0;
    assert path[0..] == path;
    while cur != null
      invariant 0 <= i <= |path| && ValidRoot(cur)
      invariant R.Walk(ValueOf(n), path, None) == R.Walk(ValueOf(cur), path[i..], best)
      decreases |path| - i, cur != null
    {
      if cur.entry.Some? {
        best := cur.entry;
      }
      if i == |path| {
        break;
      }
      assert path[i..][1..] == path[i + 1..];
      cur := if path[i] then cur.one else cur.zero;
      i := i + 1;
    }
  }

  /** routeTable: two roots, replaced by insert and remove; the nodes behind them never change. */
  class RouteTable<V> {
    var root4: RouteNode?<V>
    var root6: RouteNode?<V>

    constructor ()
      ensures Valid() && Value() == R.RouteTable(R.Nil, R.Nil)
    {
      root4, root6 := null, null;
    }

    /** view.clone's `routes: v.routes`: two pointers, no node. */
    method Copy() returns (c: RouteTable<V>)
      requires Valid()
      ensures fresh(c) && c.Valid() && c.Value() == Value()
      ensures c.root4 == root4 && c.root6 == root6
    {
      c := new RouteTable();
      c.root4, c.root6 := root4, root6;
    }

    ghost function Nodes(): (r: set<RouteNode<V>>)
      reads this, root4, root6
    {
      ReprOf(root4) + ReprOf(root6)
    }

    ghost predicate Valid()
      reads this, root4, root6, Nodes()
    {
      ValidRoot(root4) && ValidRoot(root6)
    }

    ghost function Value(): (t: R.RouteTable<V>)
      requires Valid()
      reads this, root4, root6, Nodes()
    {
      R.RouteTable(ValueOf(root4), ValueOf(root6))
    }

    /** The shared tail of insert and removal; only this table's root field changes. */
    method SetEntry(p: R.Prefix, v: Option<V>)
      requires Valid() && p.Valid()
      modifies this
      ensures Valid() && Value() == R.SetEntry(old(Value()), p, v)
    {
      var path := R.Path(p.addr, p.bits);
      if p.addr.V4? {
        root4 := WithEntry(root4, path, v);
      } else {
        root6 := WithEntry(root6, path, v);
      }
    }

    method Insert(p: R.Prefix, v: V)
      requires Valid() && p.Valid()
      modifies this
      ensures Valid() && Value() == R.Insert(old(Value()), p, v)
    {
      R.MaskedSame(p);
      SetEntry(p.Masked(), Some(v));
    }

    method RemoveOwned(p: R.Prefix, owned: V -> bool)
      requires Valid() && p.Valid()
      modifies this
      ensures Valid() && Value() == R.RemoveOwned(old(Value()), p, owned)
    {
      R.MaskedSame(p);
      var m := p.Masked();
      var e := EntryAt(if m.addr.V4? then root4 else root6, R.Path(m.addr, m.bits));
      if e.Some? && owned(e.value) {
        SetEntry(m, None);
      }
    }

    method Remove(p: R.Prefix)
      requires Valid() && p.Valid()
      modifies this
      ensures Valid() && Value() == R.Remove(old(Value()), p)
    {
      R.MaskedSame(p);
      var m := p.Masked();
      var e := EntryAt(if m.addr.V4? then root4 else root6, R.Path(m.addr, m.bits));
      if e.Some? {
        SetEntry(m, None);
      }
    }

    method Lookup(a: R.Addr) returns (best: Option<V>)
      requires Valid()
      ensures best == R.Lookup(Value(), a)
    {
      best := LookupPath(if a.V4? then root4 else root6, R.Path(a, a.Width()));
    }
  }

  method Apply<V>(t: RouteTable<V>, op: R.Op<V>)
    requires t.Valid() && op.p.Valid()
    modifies t
    ensures t.Valid() && t.Value() == R.Apply(old(t.Value()), op)
  {
    hide R.Insert, R.Remove, R.RemoveOwned;
    match op
    case OpInsert(p, v) => t.Insert(p, v);
    case OpRemove(p) => t.Remove(p);
    case OpRemoveOwned(p, owned) => t.RemoveOwned(p, owned);
  }

  /**
   A reader's snapshot is a copy of the two roots. Whatever a writer then does to its own copy,
   the snapshot stays valid with the same value, and so answers every address as it did.
   */
  method SnapshotSurvives<V>(snapshot: RouteTable<V>, ops: seq<R.Op<V>>) returns (next: RouteTable<V>)
    requires snapshot.Valid() && forall op :: op in ops ==> op.p.Valid()
    ensures fresh(next) && next.Valid() && next.Value() == R.ApplyAll(old(snapshot.Value()), ops)
    ensures snapshot.Valid() && snapshot.Value() == old(snapshot.Value())
    ensures forall a: R.Addr :: R.Lookup(snapshot.Value(), a) == R.Lookup(old(snapshot.Value()), a)
  {
    hide R.Apply, R.Lookup, R.ApplyAll;
    next := snapshot.Copy();
    ghost var was := snapshot.Value();
    R.NothingApplied(was, ops);
    for i := 0 to |ops|
      invariant next.Valid() && next.Value() == R.ApplyAll(was, ops[..i])
    {
      R.ApplyOneMore(was, ops, i);
      Apply(next, ops[i]);
    }
  }
}
