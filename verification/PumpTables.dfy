/**
 Registration as the pump runs it (dataplane/pump.go): a writer clones the published view,
 changes the clone, and publishes it with one store; a view once published is never written.
 */
module PumpTables {
  import opened Bytes
  import R = Routes
  import opened RouteHeap
  import opened Registry

  /** One snapshot: demux keys and the roots of the two tries. Its fields are constants: a published view is never written. */
  class View {
    const byKey: map<u32, Bound>
    const root4: RouteNode?<Bound>
    const root6: RouteNode?<Bound>

    constructor (byKey: map<u32, Bound>, root4: RouteNode?<Bound>, root6: RouteNode?<Bound>)
      ensures this.byKey == byKey && this.root4 == root4 && this.root6 == root6
    {
      this.byKey, this.root4, this.root6 := byKey, root4, root6;
    }

    ghost predicate Valid()
      reads root4, root6, ReprOf(root4), ReprOf(root6)
    {
      ValidRoot(root4) && ValidRoot(root6)
    }

    ghost function Routes(): (r: R.RouteTable<Bound>)
      requires Valid()
      reads root4, root6, ReprOf(root4), ReprOf(root6)
    {
      R.RouteTable(ValueOf(root4), ValueOf(root6))
    }
  }

  /** clone: a table of its own that shares the view's nodes. */
  method Clone(v: View) returns (rt: RouteTable<Bound>)
    requires v.Valid()
    ensures fresh(rt) && rt.Valid() && rt.Value() == v.Routes()
  {
    rt := new RouteTable<Bound>();
    rt.root4, rt.root6 := v.root4, v.root6;
  }

  /** clone, change the routes, publish: one new view whose routes are the old ones after `ops`; nothing existing is written. */
  method NextView(v: View, byKey: map<u32, Bound>, ops: seq<R.Op<Bound>>) returns (n: View)
    requires v.Valid() && forall op :: op in ops ==> op.p.Valid()
    ensures fresh(n) && n.Valid() && n.byKey == byKey && n.Routes() == R.ApplyAll(v.Routes(), ops)
  {
    hide R.Apply, R.ApplyAll;
    ghost var was := v.Routes();
    var rt := Clone(v);
    R.NothingApplied(was, ops);
    for i := 0 to |ops|
      invariant rt.Valid() && rt.Value() == R.ApplyAll(was, ops[..i])
    {
      R.ApplyOneMore(was, ops, i);
      Apply(rt, ops[i]);
    }
    n := new View(byKey, rt.root4, rt.root6);
  }

  /** AddTunnel's loop body, once per route. */
  function Inserts(ps: seq<R.Prefix>, b: Bound): (r: seq<R.Op<Bound>>)
    ensures |r| == |ps|
  {
    seq(|ps|, i requires 0 <= i < |ps| => R.OpInsert(ps[i], b))
  }

  function Removals(ps: seq<R.Prefix>, t: Tunnel): (r: seq<R.Op<Bound>>)
    ensures |r| == |ps|
  {
    seq(|ps|, i requires 0 <= i < |ps| => R.OpRemoveOwned(ps[i], (b: Bound) => b.t == t))
  }

  lemma {:induction false} InsertsAreInsertAll(rt: R.RouteTable<Bound>, ps: seq<R.Prefix>, b: Bound)
    requires forall p :: p in ps ==> p.Valid()
    ensures forall op :: op in Inserts(ps, b) ==> op.p.Valid()
    ensures R.ApplyAll(rt, Inserts(ps, b)) == InsertAll(rt, ps, b)
    decreases |ps|
  {
    hide R.Insert;
    if ps != [] {
      var n := |ps| - 1;
      InsertsAreInsertAll(rt, ps[..n], b);
      assert Inserts(ps, b)[..n] == Inserts(ps[..n], b);
    }
  }

  lemma {:induction false} RemovalsAreRemoveAll(rt: R.RouteTable<Bound>, ps: seq<R.Prefix>, t: Tunnel)
    requires forall p :: p in ps ==> p.Valid()
    ensures forall op :: op in Removals(ps, t) ==> op.p.Valid()
    ensures R.ApplyAll(rt, Removals(ps, t)) == RemoveAllOwned(rt, ps, t)
    decreases |ps|
  {
    hide R.RemoveOwned;
    if ps != [] {
      var n := |ps| - 1;
      RemovalsAreRemoveAll(rt, ps[..n], t);
      assert Removals(ps, t)[..n] == Removals(ps[..n], t);
    }
  }

  class Tables {
    var published: View
    var stats: map<Tunnel, nat>
    var cells: map<nat, Counters>
    var next: nat
    var retired: Counters

    constructor ()
      ensures Valid() && fresh(published) && Value() == EMPTY
    {
      published := new View(map[], null, null);
      stats, cells, next, retired := map[], map[], 0, ZERO;
    }

    ghost predicate Valid()
      reads this, published.root4, published.root6, ReprOf(published.root4), ReprOf(published.root6)
    {
      published.Valid()
    }

    ghost function Value(): (r: Reg)
      requires Valid()
      reads this, published.root4, published.root6, ReprOf(published.root4), ReprOf(published.root6)
    {
      Reg(published.byKey, published.Routes(), stats, cells, next, retired)
    }

    /** counters: t's block, created on first registration. */
    method CountersFor(t: Tunnel) returns (c: nat)
      requires Valid()
      modifies this`stats, this`cells, this`next
      ensures Valid() && Value() == WithCounters(old(Value()), t) && t in stats && c == stats[t]
    {
      if t !in stats {
        stats, cells := stats[t := next], cells[next := ZERO];
        next := next + 1;
      }
      c := stats[t];
    }

    /** One store makes the changed view current; the one before keeps answering as it did. */
    method Publish(byKey: map<u32, Bound>, ops: seq<R.Op<Bound>>)
      requires Valid() && forall op :: op in ops ==> op.p.Valid()
      modifies this`published
      ensures Valid() && fresh(published) && published.byKey == byKey
      ensures published.Routes() == R.ApplyAll(old(published.Routes()), ops)
      ensures old(published).Valid() && old(published).Routes() == old(published.Routes())
    {
      hide R.ApplyAll;
      published := NextView(published, byKey, ops);
    }

    /** AddTunnel: the previous view keeps answering as it did. */
    method Add(t: Tunnel, key: u32)
      requires Valid() && ValidTunnel(t)
      modifies this
      ensures Valid() && fresh(published) && Value() == AddTunnel(old(Value()), t, key)
      ensures old(published).Valid() && old(published).Routes() == old(published.Routes())
    {
      hide InsertAll, R.ApplyAll, Inserts;
      var c := CountersFor(t);
      var b := Bind(t, c);
      InsertsAreInsertAll(published.Routes(), t.routes, b);
      Publish(published.byKey[key := b], Inserts(t.routes, b));
    }

    /** The first half of RemoveTunnel: keys and routes go by identity. */
    method Withdraw(t: Tunnel)
      requires Valid() && ValidTunnel(t)
      modifies this`published
      ensures Valid() && fresh(published) && published.byKey == KeysWithout(old(published.byKey), t)
      ensures published.Routes() == RemoveAllOwned(old(published.Routes()), t.routes, t)
      ensures old(published).Valid() && old(published).Routes() == old(published.Routes())
    {
      hide RemoveAllOwned, R.ApplyAll, Removals, KeysWithout;
      var keys := WithoutTunnel(published.byKey, t);
      RemovalsAreRemoveAll(published.Routes(), t.routes, t);
      Publish(keys, Removals(t.routes, t));
    }

    /** RemoveTunnel: withdraw it, then keep what it had counted. */
    method Drop(t: Tunnel)
      requires Valid() && ValidTunnel(t)
      modifies this
      ensures Valid() && fresh(published) && Value() == RemoveTunnel(old(Value()), t)
      ensures old(published).Valid() && old(published).Routes() == old(published.Routes())
    {
      hide RemoveAllOwned, KeysWithout, Plus, LiveSum;
      Withdraw(t);
      RetireCounters(t);
    }

    /** What t had counted moves to the retired total: the sum of everything stays what it was. */
    method RetireCounters(t: Tunnel)
      modifies this`stats, this`retired
      ensures stats == old(stats) - {t}
      ensures retired == if t in old(stats) && old(stats)[t] in cells then Plus(old(retired), cells[old(stats)[t]]) else old(retired)
      ensures (forall u :: u in old(stats) ==> old(stats)[u] in cells) ==>
        Plus(retired, LiveSum(stats, cells)) == Plus(old(retired), LiveSum(old(stats), cells))
    {
      if forall u :: u in stats ==> stats[u] in cells { SumStays(retired, stats, cells, t); }
      if t in stats && stats[t] in cells {
        retired := Plus(retired, cells[stats[t]]);
      }
      stats := stats - {t};
    }

    method AddKey(key: u32, t: Tunnel)
      requires Valid()
      modifies this
      ensures Valid() && fresh(published) && Value() == AddInboundKey(old(Value()), key, t)
    {
      var c := CountersFor(t);
      published := new View(published.byKey[key := Bind(t, c)], published.root4, published.root6);
    }

    method DropKey(key: u32)
      requires Valid()
      modifies this
      ensures Valid() && fresh(published) && Value() == RemoveInboundKey(old(Value()), key)
    {
      published := new View(published.byKey - {key}, published.root4, published.root6);
    }

    /** Stats: the retired total plus every live block, in whatever order the map yields them. */
    method Stats() returns (total: Counters)
      requires Valid() && BlocksDistinct(Value())
      ensures total == Total(Value())
    {
      hide Plus, LiveSum;
      total := retired;
      var todo := stats;
      EmptySum(retired, cells);
      while todo != map[]
        invariant forall t :: t in todo ==> t in stats && todo[t] == stats[t]
        invariant forall t :: t in todo ==> todo[t] in cells
        invariant Plus(total, LiveSum(todo, cells)) == Plus(retired, LiveSum(stats, cells))
        decreases |todo|
      {
        var t :| t in todo;
        LiveSumSplit(todo, cells, t);
        PlusAssoc(total, cells[todo[t]], LiveSum(todo - {t}, cells));
        total := Plus(total, cells[todo[t]]);
        todo := todo - {t};
      }
      EmptySum(total, cells);
    }
  }

  lemma SumStays(retired: Counters, stats: map<Tunnel, nat>, cells: map<nat, Counters>, t: Tunnel)
    requires forall u :: u in stats ==> stats[u] in cells
    ensures Plus(if t in stats then Plus(retired, cells[stats[t]]) else retired, LiveSum(stats - {t}, cells))
         == Plus(retired, LiveSum(stats, cells))
  {
    hide Plus, LiveSum;
    if t in stats {
      LiveSumSplit(stats, cells, t);
      PlusAssoc(retired, cells[stats[t]], LiveSum(stats - {t}, cells));
    } else {
      assert stats - {t} == stats;
    }
  }

  lemma PlusAssoc(a: Counters, b: Counters, c: Counters)
    ensures Plus(Plus(a, b), c) == Plus(a, Plus(b, c))
  {
  }

  lemma EmptySum(a: Counters, cells: map<nat, Counters>)
    ensures Plus(a, LiveSum(map[], cells)) == a
  {
  }

  /** The loop over the demux map that deletes t's keys. */
  method WithoutTunnel(byKey: map<u32, Bound>, t: Tunnel) returns (r: map<u32, Bound>)
    ensures r == KeysWithout(byKey, t)
  {
    r := byKey;
    var todo := byKey.Keys;
    while todo != {}
      invariant todo <= byKey.Keys
      invariant forall k :: k in r <==> k in byKey && (k in todo || byKey[k].t != t)
      invariant forall k :: k in r ==> r[k] == byKey[k]
      decreases todo
    {
      var k :| k in todo;
      if r[k].t == t {
        r := r - {k};
      }
      todo := todo - {k};
    }
  }
}
