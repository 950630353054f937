/**
 What a registration leaves behind, entry by entry, and what the pump-wide total adds up
 (dataplane/pump.go, dataplane/counters.go).
 */
module RegistryExact {
  import opened Bytes
  import opened Routes
  import opened Registry

  /** A tunnel bound to counter block c: it carries its own prefixes along when its sources are checked. */
  function BoundTo(t: Tunnel, c: nat): (b: Bound)
  {
    Bound(t, c, if t.checksSource then Some(t.routes) else None)
  }

  /** b is r with t's block in place: as it was when t had one, and otherwise a new one that has counted nothing. */
  predicate BlockReady(b: Reg, r: Reg, t: Tunnel)
  {
    && t in b.stats && b.retired == r.retired
    && if t in r.stats then b.stats == r.stats && b.cells == r.cells
       else
         && b.stats == r.stats[t := r.next]
         && b.cells == r.cells[r.next := Counters(0, 0, 0, 0, 0)]
  }

  /** Registering t under a key: that key and t's prefixes lead to t and its block, and every other key and prefix leads where it did. */
  lemma AddedExact(r: Reg, t: Tunnel, key: u32, q: Prefix)
    requires ValidTunnel(t) && q.Valid()
    ensures var r' := AddTunnel(r, t, key);
      && BlockReady(r', r, t)
      && r'.byKey == r.byKey[key := BoundTo(t, r'.stats[t])]
      && Entry(r'.routes, q) ==
           if exists i :: 0 <= i < |t.routes| && t.routes[i].Masked() == q.Masked() then Some(BoundTo(t, r'.stats[t]))
           else Entry(r.routes, q)
  {
    hide Entry, InsertAll;
    var r1 := WithCounters(r, t);
    EntryAfterInsertAll(r1.routes, t.routes, Bind(t, r1.stats[t]), q);
  }

  /** A further key for t, and the end of one. */
  lemma KeysExact(r: Reg, t: Tunnel, key: u32)
    ensures var a := AddInboundKey(r, key, t);
      BlockReady(a, r, t) && a.routes == r.routes && a.byKey == r.byKey[key := BoundTo(t, a.stats[t])]
    ensures var d := RemoveInboundKey(r, key);
      d == r.(byKey := d.byKey) && key !in d.byKey
      && (forall k :: k != key ==> (k in d.byKey <==> k in r.byKey) && (k in r.byKey ==> d.byKey[k] == r.byKey[k]))
  {
  }

  // ---------- the total ----------

  /** ts names every tunnel with a block, each once. */
  ghost predicate Lists(ts: seq<Tunnel>, stats: map<Tunnel, nat>)
  {
    && (forall t :: t in stats <==> t in ts)
    && (forall i, j :: 0 <= i < j < |ts| ==> ts[i] != ts[j])
  }

  function SumOf(ts: seq<Tunnel>, stats: map<Tunnel, nat>, cells: map<nat, Counters>, part: Counters -> nat): (n: nat)
    requires forall t :: t in ts ==> t in stats && stats[t] in cells
  {
    if ts == [] then 0 else part(cells[stats[ts[0]]]) + SumOf(ts[1..], stats, cells, part)
  }

  /** n is the largest of the blocks' last-seen times, and of at. */
  ghost predicate IsLatest(n: nat, ts: seq<Tunnel>, stats: map<Tunnel, nat>, cells: map<nat, Counters>, at: nat)
    requires forall t :: t in ts ==> t in stats && stats[t] in cells
  {
    && at <= n && (forall t :: t in ts ==> cells[stats[t]].lastSeen <= n)
    && (n == at || exists t :: t in ts && cells[stats[t]].lastSeen == n)
  }

  /** A counter that adds up. */
  ghost predicate Additive(part: Counters -> nat) { part(ZERO) == 0 && forall a, b :: part(Plus(a, b)) == part(a) + part(b) }

  lemma {:induction false} LiveSumIs(ts: seq<Tunnel>, stats: map<Tunnel, nat>, cells: map<nat, Counters>, part: Counters -> nat)
    requires Lists(ts, stats) && Additive(part) && forall t :: t in stats ==> stats[t] in cells
    ensures part(LiveSum(stats, cells)) == SumOf(ts, stats, cells, part)
    decreases |ts|
  {
    hide Plus;
    if ts == [] {
      assert stats == map[];
    } else {
      var t, rest := ts[0], stats - {ts[0]};
      LiveSumSplit(stats, cells, t);
      RestLists(ts, stats);
      LiveSumIs(ts[1..], rest, cells, part);
      SameSum(ts[1..], rest, stats, cells, part);
    }
  }

  lemma {:induction false} LiveSumLatest(ts: seq<Tunnel>, stats: map<Tunnel, nat>, cells: map<nat, Counters>)
    requires Lists(ts, stats) && forall t :: t in stats ==> stats[t] in cells
    ensures IsLatest(LiveSum(stats, cells).lastSeen, ts, stats, cells, 0)
    decreases |ts|
  {
    if ts == [] {
      assert stats == map[];
    } else {
      var t, rest := ts[0], stats - {ts[0]};
      LiveSumSplit(stats, cells, t);
      RestLists(ts, stats);
      LiveSumLatest(ts[1..], rest, cells);
      OneMoreSeen(ts, stats, cells, LiveSum(rest, cells).lastSeen);
    }
  }

  lemma OneMoreSeen(ts: seq<Tunnel>, stats: map<Tunnel, nat>, cells: map<nat, Counters>, n: nat)
    requires Lists(ts, stats) && ts != [] && forall t :: t in stats ==> stats[t] in cells
    requires Lists(ts[1..], stats - {ts[0]}) && IsLatest(n, ts[1..], stats - {ts[0]}, cells, 0)
    ensures var x := cells[stats[ts[0]]].lastSeen; IsLatest(if n > x then n else x, ts, stats, cells, 0)
  {
    var t, rest := ts[0], stats - {ts[0]};
    OthersFollow(ts, stats);
    if n != 0 {
      var u :| u in ts[1..] && cells[rest[u]].lastSeen == n;
      assert u in ts && cells[stats[u]].lastSeen == n;
    }
  }

  lemma RestLists(ts: seq<Tunnel>, stats: map<Tunnel, nat>)
    requires Lists(ts, stats) && ts != []
    ensures Lists(ts[1..], stats - {ts[0]})
  {
    OthersFollow(ts, stats);
  }

  lemma OthersFollow(ts: seq<Tunnel>, stats: map<Tunnel, nat>)
    requires Lists(ts, stats) && ts != []
    ensures forall u :: u in ts[1..] <==> u in ts && u != ts[0]
  {
    forall u ensures u in ts[1..] <==> u in ts && u != ts[0] {
      if u in ts && u != ts[0] {
        var i :| 0 <= i < |ts| && ts[i] == u;
        assert ts[1..][i - 1] == u;
      }
    }
  }

  lemma {:induction false} SameSum(ts: seq<Tunnel>, a: map<Tunnel, nat>, b: map<Tunnel, nat>, cells: map<nat, Counters>, part: Counters -> nat)
    requires forall t :: t in ts ==> t in a && t in b && a[t] == b[t] && a[t] in cells
    ensures SumOf(ts, a, cells, part) == SumOf(ts, b, cells, part)
    decreases |ts|
  {
    if ts != [] { SameSum(ts[1..], a, b, cells, part); }
  }

  /** The pump-wide total, however the tunnels are listed: of each counter what is retired plus what every block holds, and the latest time any of them was seen. */
  lemma TotalIs(r: Reg, ts: seq<Tunnel>)
    requires BlocksDistinct(r) && Lists(ts, r.stats)
    ensures var s := Total(r);
      && s.rxPackets == r.retired.rxPackets + SumOf(ts, r.stats, r.cells, (c: Counters) => c.rxPackets)
      && s.rxBytes == r.retired.rxBytes + SumOf(ts, r.stats, r.cells, (c: Counters) => c.rxBytes)
      && s.txPackets == r.retired.txPackets + SumOf(ts, r.stats, r.cells, (c: Counters) => c.txPackets)
      && s.txBytes == r.retired.txBytes + SumOf(ts, r.stats, r.cells, (c: Counters) => c.txBytes)
      && IsLatest(s.lastSeen, ts, r.stats, r.cells, r.retired.lastSeen)
  {
    hide LiveSum, SumOf;
    LiveSumIs(ts, r.stats, r.cells, (c: Counters) => c.rxPackets);
    LiveSumIs(ts, r.stats, r.cells, (c: Counters) => c.rxBytes);
    LiveSumIs(ts, r.stats, r.cells, (c: Counters) => c.txPackets);
    LiveSumIs(ts, r.stats, r.cells, (c: Counters) => c.txBytes);
    LiveSumLatest(ts, r.stats, r.cells);
  }
}
