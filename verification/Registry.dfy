/**
 Tunnel registration (dataplane/pump.go, dataplane/counters.go): the published view of demux
 keys and routes, and the counter blocks behind it.
 */
module Registry {
  import opened Bytes
  import opened Routes

  /** A tunnel as the pump sees it: an identity, constant routes and the optional capabilities it was found to have. */
  datatype Tunnel = Tunnel(id: nat, routes: seq<Prefix>, aggregates: bool, paced: bool, roams: bool, checksSource: bool,
                             pads: bool, appends: bool)

  predicate ValidTunnel(t: Tunnel) { forall p :: p in t.routes ==> p.Valid() }

  /** Traffic counters; lastSeen 0 is "never". */
  datatype Counters = Counters(rxPackets: nat, rxBytes: nat, txPackets: nat, txBytes: nat, lastSeen: nat)

  const ZERO := Counters(0, 0, 0, 0, 0)

  /** TunnelStats.add. */
  function Plus(a: Counters, b: Counters): (r: Counters)
  {
    Counters(a.rxPackets + b.rxPackets, a.rxBytes + b.rxBytes, a.txPackets + b.txPackets, a.txBytes + b.txBytes,
             if b.lastSeen > a.lastSeen then b.lastSeen else a.lastSeen)
  }

  /** A registered tunnel with its counter block and the source prefixes captured when it was bound. */
  datatype Bound = Bound(t: Tunnel, c: nat, srcRoutes: Option<seq<Prefix>>)

  function Bind(t: Tunnel, c: nat): (b: Bound)
  {
    Bound(t, c, if t.checksSource then Some(t.routes) else None)
  }

  /** byKey and routes are the published snapshot; stats and cells the counter blocks, named by a reference. */
  datatype Reg = Reg(byKey: map<u32, Bound>, routes: RouteTable<Bound>,
                     stats: map<Tunnel, nat>, cells: map<nat, Counters>, next: nat, retired: Counters)

  const EMPTY := Reg(map[], RouteTable(Nil, Nil), map[], map[], 0, ZERO)

  /** counters: t's block, created on first registration. */
  function WithCounters(r: Reg, t: Tunnel): (r': Reg)
    ensures t in r'.stats
  {
    if t in r.stats then r
    else r.(stats := r.stats[t := r.next], cells := r.cells[r.next := ZERO], next := r.next + 1)
  }

  function InsertAll(routes: RouteTable<Bound>, ps: seq<Prefix>, b: Bound): (r: RouteTable<Bound>)
    requires forall p :: p in ps ==> p.Valid()
  {
    if ps == [] then routes else Insert(InsertAll(routes, ps[..|ps| - 1], b), ps[|ps| - 1], b)
  }

  function RemoveAllOwned(routes: RouteTable<Bound>, ps: seq<Prefix>, t: Tunnel): (r: RouteTable<Bound>)
    requires forall p :: p in ps ==> p.Valid()
  {
    if ps == [] then routes
    else RemoveOwned(RemoveAllOwned(routes, ps[..|ps| - 1], t), ps[|ps| - 1], (b: Bound) => b.t == t)
  }

  function AddTunnel(r: Reg, t: Tunnel, key: u32): (r': Reg)
    requires ValidTunnel(t)
  {
    var r1 := WithCounters(r, t);
    var b := Bind(t, r1.stats[t]);
    r1.(byKey := r1.byKey[key := b], routes := InsertAll(r1.routes, t.routes, b))
  }

  /** The demux keys of every other tunnel. */
  function KeysWithout(byKey: map<u32, Bound>, t: Tunnel): (r: map<u32, Bound>)
    ensures forall k :: k in r <==> k in byKey && byKey[k].t != t
    ensures forall k :: k in r ==> r[k] == byKey[k]
  {
    map k | k in byKey && byKey[k].t != t :: byKey[k]
  }

  function RemoveTunnel(r: Reg, t: Tunnel): (r': Reg)
    requires ValidTunnel(t)
  {
    var r1 := r.(byKey := KeysWithout(r.byKey, t),
                 routes := RemoveAllOwned(r.routes, t.routes, t));
    if t in r.stats && r.stats[t] in r.cells then
      r1.(retired := Plus(r.retired, r.cells[r.stats[t]]), stats := r.stats - {t})
    else r1.(stats := r.stats - {t})
  }

  function AddInboundKey(r: Reg, key: u32, t: Tunnel): (r': Reg)
  {
    var r1 := WithCounters(r, t);
    r1.(byKey := r1.byKey[key := Bind(t, r1.stats[t])])
  }

  function RemoveInboundKey(r: Reg, key: u32): (r': Reg)
  {
    r.(byKey := r.byKey - {key})
  }

  // ---------- what each loop leaves behind ----------

  /** q is, after masking, one of ps. */
  predicate Listed(ps: seq<Prefix>, q: Prefix)
    requires q.Valid() && forall p :: p in ps ==> p.Valid()
  {
    exists i :: 0 <= i < |ps| && ps[i].Masked() == q.Masked()
  }

  lemma ListedStep(ps: seq<Prefix>, q: Prefix)
    requires ps != [] && q.Valid() && forall p :: p in ps ==> p.Valid()
    ensures Listed(ps, q) <==> Listed(ps[..|ps| - 1], q) || ps[|ps| - 1].Masked() == q.Masked()
  {
    var n := |ps| - 1;
    if Listed(ps, q) {
      var i :| 0 <= i < |ps| && ps[i].Masked() == q.Masked();
      if i < n { assert ps[..n][i].Masked() == q.Masked(); }
    }
    if Listed(ps[..n], q) {
      var i :| 0 <= i < n && ps[..n][i].Masked() == q.Masked();
      assert ps[i].Masked() == q.Masked();
    }
  }

  lemma {:induction false} EntryAfterInsertAll(routes: RouteTable<Bound>, ps: seq<Prefix>, b: Bound, q: Prefix)
    requires q.Valid() && forall p :: p in ps ==> p.Valid()
    ensures Entry(InsertAll(routes, ps, b), q) == if Listed(ps, q) then Some(b) else Entry(routes, q)
    decreases |ps|
  {
    hide Entry, SetEntry, Listed;
    if ps == [] {
      NotListed(q);
    } else {
      var n := |ps| - 1;
      EntryAfterInsertAll(routes, ps[..n], b, q);
      ListedStep(ps, q);
      EntryAfterSet(InsertAll(routes, ps[..n], b), ps[n], Some(b), q);
    }
  }

  lemma NotListed(q: Prefix)
    requires q.Valid()
    ensures !Listed([], q)
  {
  }

  lemma {:induction false} EntryAfterRemoveAll(routes: RouteTable<Bound>, ps: seq<Prefix>, t: Tunnel, q: Prefix)
    requires q.Valid() && forall p :: p in ps ==> p.Valid()
    ensures var e := Entry(routes, q);
      Entry(RemoveAllOwned(routes, ps, t), q) == if Listed(ps, q) && e.Some? && e.value.t == t then None else e
    decreases |ps|
  {
    hide Entry, SetEntry, Listed;
    if ps == [] {
      NotListed(q);
    } else {
      var n := |ps| - 1;
      var before := RemoveAllOwned(routes, ps[..n], t);
      EntryAfterRemoveAll(routes, ps[..n], t, q);
      ListedStep(ps, q);
      EntryAfterSet(before, ps[n], None, q);
      EntryMasked(before, ps[n], q);
    }
  }

  lemma EntryMasked(routes: RouteTable<Bound>, p: Prefix, q: Prefix)
    requires p.Valid() && q.Valid()
    ensures p.Masked().Valid()
    ensures p.Masked() == q.Masked() ==> Entry(routes, p.Masked()) == Entry(routes, q)
  {
    hide Path;
    MaskedSame(p);
    MaskedSame(q);
  }

  // ---------- the invariant ----------

  /** b belongs to a tunnel with a counter block and carries exactly that block. */
  predicate Registered(r: Reg, b: Bound)
  {
    b.t in r.stats && b == Bind(b.t, r.stats[b.t]) && ValidTunnel(b.t)
  }

  ghost predicate KeysRegistered(r: Reg) { forall k :: k in r.byKey ==> Registered(r, r.byKey[k]) }

  /** Every route entry is registered and sits at one of its own tunnel's prefixes. */
  ghost predicate RoutesRegistered(r: Reg)
  {
    forall q: Prefix :: q.Valid() && Entry(r.routes, q).Some? ==>
      Registered(r, Entry(r.routes, q).value) && Listed(Entry(r.routes, q).value.t.routes, q)
  }

  /** Distinct tunnels have distinct counter blocks, all allocated. */
  ghost predicate BlocksDistinct(r: Reg)
  {
    && (forall t :: t in r.stats ==> r.stats[t] in r.cells && r.stats[t] < r.next)
    && (forall t, u :: t in r.stats && u in r.stats && t != u ==> r.stats[t] != r.stats[u])
  }

  ghost predicate RegInv(r: Reg) { KeysRegistered(r) && RoutesRegistered(r) && BlocksDistinct(r) }

  datatype RegOp =
    | OpAdd(t: Tunnel, key: u32) | OpDrop(t: Tunnel) | OpAddKey(key: u32, t: Tunnel) | OpDropKey(key: u32)

  predicate ValidOp(op: RegOp) { op.OpDropKey? || ValidTunnel(op.t) }

  function ApplyOp(r: Reg, op: RegOp): (r': Reg)
    requires ValidOp(op)
  {
    match op
    case OpAdd(t, key) => AddTunnel(r, t, key)
    case OpDrop(t) => RemoveTunnel(r, t)
    case OpAddKey(key, t) => AddInboundKey(r, key, t)
    case OpDropKey(key) => RemoveInboundKey(r, key)
  }

  lemma WithCountersKeeps(r: Reg, t: Tunnel)
    requires RegInv(r)
    ensures RegInv(WithCounters(r, t)) && WithCounters(r, t).byKey == r.byKey && WithCounters(r, t).routes == r.routes
    ensures forall b :: Registered(r, b) ==> Registered(WithCounters(r, t), b)
  {
    hide Entry, Listed;
  }

  lemma AddTunnelKeeps(r: Reg, t: Tunnel, key: u32)
    requires RegInv(r) && ValidTunnel(t)
    ensures RegInv(AddTunnel(r, t, key))
  {
    hide Entry, WithCounters, InsertAll;
    WithCountersKeeps(r, t);
    var r1, r' := WithCounters(r, t), AddTunnel(r, t, key);
    var b := Bind(t, r1.stats[t]);
    forall q: Prefix | q.Valid() && Entry(r'.routes, q).Some?
      ensures Registered(r', Entry(r'.routes, q).value) && Listed(Entry(r'.routes, q).value.t.routes, q)
    {
      EntryAfterInsertAll(r1.routes, t.routes, b, q);
    }
  }

  lemma RemoveTunnelKeeps(r: Reg, t: Tunnel)
    requires RegInv(r) && ValidTunnel(t)
    ensures RegInv(RemoveTunnel(r, t))
  {
    hide Entry, RemoveAllOwned, Listed;
    var r' := RemoveTunnel(r, t);
    forall q: Prefix | q.Valid() && Entry(r'.routes, q).Some?
      ensures Registered(r', Entry(r'.routes, q).value) && Listed(Entry(r'.routes, q).value.t.routes, q)
    {
      EntryAfterRemoveAll(r.routes, t.routes, t, q);
    }
  }

  lemma ApplyOpKeeps(r: Reg, op: RegOp)
    requires RegInv(r) && ValidOp(op)
    ensures RegInv(ApplyOp(r, op))
  {
    hide Entry, AddTunnel, RemoveTunnel, WithCounters, Listed;
    match op
    case OpAdd(t, key) => AddTunnelKeeps(r, t, key);
    case OpDrop(t) => RemoveTunnelKeeps(r, t);
    case OpAddKey(key, t) => WithCountersKeeps(r, t);
    case OpDropKey(key) =>
  }

  function RunOps(r: Reg, ops: seq<RegOp>): (r': Reg)
    requires forall op :: op in ops ==> ValidOp(op)
  {
    if ops == [] then r else ApplyOp(RunOps(r, ops[..|ops| - 1]), ops[|ops| - 1])
  }

  /** Every published view is consistent, over every sequence of registrations and removals. */
  lemma {:induction false} RunKeepsInv(ops: seq<RegOp>)
    requires forall op :: op in ops ==> ValidOp(op)
    ensures RegInv(RunOps(EMPTY, ops))
    decreases |ops|
  {
    hide ApplyOp;
    if ops == [] {
      EmptyInv();
    } else {
      RunKeepsInv(ops[..|ops| - 1]);
      ApplyOpKeeps(RunOps(EMPTY, ops[..|ops| - 1]), ops[|ops| - 1]);
    }
  }

  lemma EmptyInv()
    ensures RegInv(EMPTY)
  {
    hide Path;
    assert forall q: Prefix :: q.Valid() ==> Entry(EMPTY.routes, q).None?;
  }

  /** RemoveTunnel takes every key and every route of t, and nothing that belongs to another tunnel. */
  lemma RemoveTunnelExact(r: Reg, t: Tunnel)
    requires RegInv(r) && ValidTunnel(t)
    ensures var r' := RemoveTunnel(r, t);
      && (forall k :: k in r'.byKey <==> k in r.byKey && r.byKey[k].t != t)
      && (forall k :: k in r'.byKey ==> r'.byKey[k] == r.byKey[k])
      && (forall q: Prefix :: q.Valid() ==>
            var e := Entry(r.routes, q);
            Entry(r'.routes, q) == if e.Some? && e.value.t == t then None else e)
      && r'.stats == r.stats - {t} && r'.cells == r.cells
  {
    hide Entry, RemoveAllOwned, Listed;
    forall q: Prefix | q.Valid()
      ensures var e := Entry(r.routes, q);
        Entry(RemoveTunnel(r, t).routes, q) == if e.Some? && e.value.t == t then None else e
    {
      EntryAfterRemoveAll(r.routes, t.routes, t, q);
    }
  }

  // ---------- totals ----------

  /** The sum over the live counter blocks, as Stats computes it. */
  ghost function LiveSum(stats: map<Tunnel, nat>, cells: map<nat, Counters>): (s: Counters)
    requires forall t :: t in stats ==> stats[t] in cells
  {
    if stats == map[] then ZERO
    else
      var t :| t in stats;
      Plus(cells[stats[t]], LiveSum(stats - {t}, cells))
  }

  /** PumpStats.Total. */
  ghost function Total(r: Reg): (s: Counters)
    requires BlocksDistinct(r)
  {
    Plus(r.retired, LiveSum(r.stats, r.cells))
  }

  /** The order in which the blocks are visited does not matter. */
  lemma {:induction false} LiveSumSplit(stats: map<Tunnel, nat>, cells: map<nat, Counters>, t: Tunnel)
    requires t in stats && forall u :: u in stats ==> stats[u] in cells
    ensures LiveSum(stats, cells) == Plus(cells[stats[t]], LiveSum(stats - {t}, cells))
    decreases |stats|
  {
    var first :| first in stats && LiveSum(stats, cells) == Plus(cells[stats[first]], LiveSum(stats - {first}, cells));
    if first != t {
      var rest := stats - {first} - {t};
      LiveSumSplit(stats - {first}, cells, t);
      LiveSumSplit(stats - {t}, cells, first);
      assert stats - {t} - {first} == rest;
      PlusSwap(cells[stats[first]], cells[stats[t]], LiveSum(rest, cells));
    }
  }

  lemma PlusSwap(a: Counters, b: Counters, c: Counters)
    ensures Plus(a, Plus(b, c)) == Plus(b, Plus(a, c))
    ensures Plus(a, Plus(b, c)) == Plus(Plus(a, c), b)
    ensures Plus(ZERO, a) == a
  {
  }

  lemma {:induction false} LiveSumFrame(stats: map<Tunnel, nat>, a: map<nat, Counters>, b: map<nat, Counters>)
    requires forall t :: t in stats ==> stats[t] in a && stats[t] in b && a[stats[t]] == b[stats[t]]
    ensures LiveSum(stats, a) == LiveSum(stats, b)
    decreases |stats|
  {
    if stats != map[] {
      var t :| t in stats;
      LiveSumSplit(stats, a, t);
      LiveSumSplit(stats, b, t);
      LiveSumFrame(stats - {t}, a, b);
    }
  }

  lemma AddTunnelKeepsTotal(r: Reg, t: Tunnel, key: u32)
    requires BlocksDistinct(r) && ValidTunnel(t)
    ensures BlocksDistinct(AddTunnel(r, t, key)) && Total(AddTunnel(r, t, key)) == Total(r)
  {
    hide LiveSum, Plus, InsertAll, BlocksDistinct, WithCounters;
    WithCountersKeepsTotal(r, t);
    SameBlocks(WithCounters(r, t), AddTunnel(r, t, key));
  }

  lemma AddInboundKeyKeepsTotal(r: Reg, key: u32, t: Tunnel)
    requires BlocksDistinct(r)
    ensures BlocksDistinct(AddInboundKey(r, key, t)) && Total(AddInboundKey(r, key, t)) == Total(r)
  {
    hide LiveSum, Plus, BlocksDistinct, WithCounters;
    WithCountersKeepsTotal(r, t);
    SameBlocks(WithCounters(r, t), AddInboundKey(r, key, t));
  }

  lemma RemoveTunnelKeepsTotal(r: Reg, t: Tunnel)
    requires BlocksDistinct(r) && ValidTunnel(t)
    ensures BlocksDistinct(RemoveTunnel(r, t)) && Total(RemoveTunnel(r, t)) == Total(r)
  {
    hide LiveSum, Plus, RemoveAllOwned, KeysWithout;
    if t in r.stats {
      LiveSumSplit(r.stats, r.cells, t);
      PlusSwap(r.retired, r.cells[r.stats[t]], LiveSum(r.stats - {t}, r.cells));
      PlusRegroup(r.retired, r.cells[r.stats[t]], LiveSum(r.stats - {t}, r.cells));
    } else {
      assert r.stats - {t} == r.stats;
    }
  }

  lemma PlusRegroup(a: Counters, b: Counters, c: Counters)
    ensures Plus(Plus(a, b), c) == Plus(a, Plus(b, c))
  {
  }

  /** Keys and routes do not enter into the counter blocks. */
  lemma SameBlocks(a: Reg, b: Reg)
    requires BlocksDistinct(a) && a.stats == b.stats && a.cells == b.cells && a.next == b.next
    ensures BlocksDistinct(b) && (a.retired == b.retired ==> Total(a) == Total(b))
  {
    hide LiveSum, Plus;
  }

  /** Registering, re-registering and removing tunnels never changes the pump-wide total. */
  lemma ApplyOpKeepsTotal(r: Reg, op: RegOp)
    requires RegInv(r) && ValidOp(op)
    ensures RegInv(ApplyOp(r, op)) && Total(ApplyOp(r, op)) == Total(r)
  {
    hide KeysRegistered, RoutesRegistered, BlocksDistinct, AddTunnel, RemoveTunnel, AddInboundKey, Total;
    ApplyOpKeeps(r, op);
    match op
    case OpAdd(t, key) => AddTunnelKeepsTotal(r, t, key);
    case OpDrop(t) => RemoveTunnelKeepsTotal(r, t);
    case OpAddKey(key, t) => AddInboundKeyKeepsTotal(r, key, t);
    case OpDropKey(key) => DropKeyKeepsTotal(r, key);
  }

  lemma DropKeyKeepsTotal(r: Reg, key: u32)
    requires BlocksDistinct(r)
    ensures BlocksDistinct(RemoveInboundKey(r, key)) && Total(RemoveInboundKey(r, key)) == Total(r)
  {
    hide LiveSum, Plus, BlocksDistinct;
    SameBlocks(r, RemoveInboundKey(r, key));
  }

  lemma WithCountersKeepsTotal(r: Reg, t: Tunnel)
    requires BlocksDistinct(r)
    ensures BlocksDistinct(WithCounters(r, t)) && WithCounters(r, t).retired == r.retired
    ensures LiveSum(WithCounters(r, t).stats, WithCounters(r, t).cells) == LiveSum(r.stats, r.cells)
  {
    hide LiveSum;
    if t !in r.stats { FreshBlockSum(r.stats, r.cells, t, r.next); }
  }

  lemma FreshBlockSum(stats: map<Tunnel, nat>, cells: map<nat, Counters>, t: Tunnel, c: nat)
    requires t !in stats && forall u :: u in stats ==> stats[u] in cells && stats[u] != c
    ensures LiveSum(stats[t := c], cells[c := ZERO]) == LiveSum(stats, cells)
  {
    hide LiveSum, Plus;
    LiveSumSplit(stats[t := c], cells[c := ZERO], t);
    assert stats[t := c] - {t} == stats;
    LiveSumFrame(stats, cells, cells[c := ZERO]);
    PlusSwap(LiveSum(stats, cells), ZERO, ZERO);
  }

  /** Counting on a registered tunnel's block moves the total by exactly that. */
  lemma CountMovesTotal(r: Reg, t: Tunnel, c: Counters)
    requires BlocksDistinct(r) && t in r.stats
    ensures BlocksDistinct(r.(cells := r.cells[r.stats[t] := c]))
    ensures Total(r) == Plus(Plus(r.retired, LiveSum(r.stats - {t}, r.cells)), r.cells[r.stats[t]])
    ensures Total(r.(cells := r.cells[r.stats[t] := c])) == Plus(Plus(r.retired, LiveSum(r.stats - {t}, r.cells)), c)
  {
    hide Plus;
    var r' := r.(cells := r.cells[r.stats[t] := c]);
    LiveSumSplit(r.stats, r.cells, t);
    LiveSumSplit(r'.stats, r'.cells, t);
    LiveSumFrame(r.stats - {t}, r.cells, r'.cells);
    PlusSwap(r.retired, c, LiveSum(r.stats - {t}, r.cells));
    PlusSwap(r.retired, r.cells[r.stats[t]], LiveSum(r.stats - {t}, r.cells));
  }

  /** Some registered tunnel counts on block c; a retired block has nobody. */
  ghost predicate Live(r: Reg, c: nat) { exists t :: t in r.stats && r.stats[t] == c }

  /** Changing a live block moves the total by exactly that; changing a retired one leaves it alone. */
  lemma BlockMoves(r: Reg, c: nat, y: Counters) returns (rest: Counters)
    requires BlocksDistinct(r) && c in r.cells
    ensures BlocksDistinct(r.(cells := r.cells[c := y]))
    ensures Live(r, c) ==> Total(r) == Plus(rest, r.cells[c]) && Total(r.(cells := r.cells[c := y])) == Plus(rest, y)
    ensures !Live(r, c) ==> Total(r.(cells := r.cells[c := y])) == Total(r)
  {
    hide LiveSum, Plus;
    rest := ZERO;
    if Live(r, c) {
      var t :| t in r.stats && r.stats[t] == c;
      CountMovesTotal(r, t, y);
      rest := Plus(r.retired, LiveSum(r.stats - {t}, r.cells));
    } else {
      LiveSumFrame(r.stats, r.cells, r.cells[c := y]);
    }
  }

  /** A removed tunnel's block is live no longer. */
  lemma RemovedIsRetired(r: Reg, t: Tunnel)
    requires BlocksDistinct(r) && ValidTunnel(t) && t in r.stats
    ensures !Live(RemoveTunnel(r, t), r.stats[t])
  {
    hide RemoveAllOwned, KeysWithout;
  }
}
