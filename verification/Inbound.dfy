/**
 The inbound packet path (dataplane/pump.go, dataplane/source.go, dataplane/counters.go):
 demux, decapsulation, roaming after authentication, source enforcement and accounting.
 */
module Inbound {
  import opened Bytes
  import opened Routes
  import opened Registry

  type Endpoint = nat

  datatype Drops = Drops(noKey: nat, unknownKey: nat, decapFailed: nat, notIP: nat, noRoute: nat,
                         tooBig: nat, encapFailed: nat, pacerFull: nat, spoofedSource: nat)

  const NO_DROPS := Drops(0, 0, 0, 0, 0, 0, 0, 0, 0)

  // ---------- addresses inside packets ----------

  /** Big-endian number of k octets. */
  function BeNat(p: Packet, off: nat, k: nat): (r: nat)
    requires off + k <= |p|
  {
    if k == 0 then 0 else BeNat(p, off, k - 1) * 0x100 + p[off + k - 1]
  }

  /** The source (off4 12, off6 8) or destination (off4 16, off6 24) of an inner packet of either family. */
  function AddrAt(p: Packet, off4: nat, off6: nat): (a: Option<Addr>)
    requires off4 + 4 <= 20 && off6 + 16 <= 40
  {
    if |p| < 1 then None
    else if p[0] / 16 == 4 then if |p| < 20 then None else Some(V4(BeNat(p, off4, 4)))
    else if p[0] / 16 == 6 then if |p| < 40 then None else Some(V6(BeNat(p, off6, 16)))
    else None
  }

  function InnerSource(p: Packet): (a: Option<Addr>) { AddrAt(p, 12, 8) }

  function InnerDest(p: Packet): (a: Option<Addr>) { AddrAt(p, 16, 24) }

  lemma {:induction false} BeNatFits(p: Packet, off: nat, k: nat)
    requires off + k <= |p|
    ensures Shr(BeNat(p, off, k), 8 * k) == 0
    decreases k
  {
    if k > 0 {
      BeNatFits(p, off, k - 1);
      var x, b := BeNat(p, off, k - 1), p[off + k - 1];
      ShrShr(x * 0x100 + b, 8, 8 * (k - 1));
      EightShifts(x, b);
    }
  }

  lemma {:induction false} BeNatSame(a: Packet, b: Packet, off: nat, k: nat)
    requires off + k <= |a| && off + k <= |b| && forall i :: off <= i < off + k ==> a[i] == b[i]
    ensures BeNat(a, off, k) == BeNat(b, off, k)
    decreases k
  {
    if k > 0 { BeNatSame(a, b, off, k - 1); }
  }

  lemma EightShifts(x: nat, b: byte)
    ensures Shr(x * 0x100 + b, 8) == x
  {
    var n := x * 0x100 + b;
    ShrShr(n, 4, 4);
    FourShifts(n);
    FourShifts(n / 16);
    assert n / 16 / 16 == x;
  }

  lemma FourShifts(n: nat)
    ensures Shr(n, 4) == n / 16
  {
    assert Shr(n, 4) == Shr(n / 2, 3) == Shr(n / 2 / 2, 2);
    assert Shr(n / 2 / 2, 2) == Shr(n / 2 / 2 / 2, 1) == Shr(n / 2 / 2 / 2 / 2, 0);
  }

  /** An address read out of a packet always fits its family. */
  lemma AddrAtValid(p: Packet, off4: nat, off6: nat)
    requires off4 + 4 <= 20 && off6 + 16 <= 40
    ensures AddrAt(p, off4, off6).Some? ==> AddrAt(p, off4, off6).value.Valid()
  {
    if |p| >= 20 { BeNatFits(p, off4, 4); }
    if |p| >= 40 { BeNatFits(p, off6, 16); }
  }

  /** SourceWithin. */
  predicate SourceWithin(p: Packet, prefixes: seq<Prefix>)
    requires forall q :: q in prefixes ==> q.Valid()
  {
    InnerSource(p).Some? && exists i :: 0 <= i < |prefixes| && prefixes[i].Contains(InnerSource(p).value)
  }

  // ---------- the path ----------

  /**
   One datagram off the wire: what the demux made of it, where it came from, and what the
   tunnel's Decapsulate and DecapsulateMulti would return for it (None is an error). The
   last two range over every possible answer of the protocol engines.
   */
  datatype Datagram = Datagram(key: Option<u32>, from: Option<Endpoint>,
                               single: Option<Packet>, multi: Option<seq<Packet>>)

  datatype Pump = Pump(reg: Reg, drops: Drops, peers: map<Tunnel, Endpoint>, lastInbound: nat)

  /** A packet handed to the TUN and the tunnel that carried it. */
  datatype Delivery = Delivery(t: Tunnel, inner: Packet)

  function CountRx(p: Pump, c: nat, n: nat, now: nat): (r: Pump)
  {
    if c !in p.reg.cells then p
    else
      var x := p.reg.cells[c];
      p.(reg := p.reg.(cells := p.reg.cells[c := x.(rxPackets := x.rxPackets + 1, rxBytes := x.rxBytes + n, lastSeen := now)]))
  }

  /** What happens once the keys have vouched for a datagram: the return path follows, and the liveness clock moves. */
  function Authenticated(p: Pump, b: Bound, from: Option<Endpoint>, now: nat): (r: Pump)
  {
    p.(peers := if from.Some? && b.t.roams then p.peers[b.t := from.value] else p.peers, lastInbound := now)
  }

  /** A bound that bind produced: the source prefixes are the tunnel's own. */
  predicate WellBound(b: Bound) { b == Bind(b.t, b.c) && ValidTunnel(b.t) }

  /** sourceOK without its drop count. */
  predicate SourceOK(b: Bound, inner: Packet)
    requires WellBound(b)
  {
    b.srcRoutes.None? || SourceWithin(inner, b.srcRoutes.value)
  }

  datatype Handled = Handled(p: Pump, out: seq<Delivery>)

  /** One inner packet of an authenticated datagram: skipped when empty, dropped when spoofed, else counted and delivered. */
  function Accept(h: Handled, b: Bound, inner: Packet, now: nat): (r: Handled)
    requires WellBound(b)
  {
    if inner == [] then h
    else if !SourceOK(b, inner) then h.(p := h.p.(drops := h.p.drops.(spoofedSource := h.p.drops.spoofedSource + 1)))
    else Handled(CountRx(h.p, b.c, |inner|, now), h.out + [Delivery(b.t, inner)])
  }

  function AcceptAll(h: Handled, b: Bound, inners: seq<Packet>, now: nat): (r: Handled)
    requires WellBound(b)
  {
    if inners == [] then h
    else Accept(AcceptAll(h, b, inners[..|inners| - 1], now), b, inners[|inners| - 1], now)
  }

  ghost predicate WellBoundView(view: map<u32, Bound>) { forall k :: k in view ==> WellBound(view[k]) }

  /** handleInbound against one held snapshot of the demux table. */
  function Handle(p: Pump, view: map<u32, Bound>, d: Datagram, now: nat): (r: Handled)
    requires WellBoundView(view)
  {
    if d.key.None? then Handled(p.(drops := p.drops.(noKey := p.drops.noKey + 1)), [])
    else if d.key.value !in view then Handled(p.(drops := p.drops.(unknownKey := p.drops.unknownKey + 1)), [])
    else
      var b := view[d.key.value];
      if b.t.aggregates then
        if d.multi.None? then Handled(p.(drops := p.drops.(decapFailed := p.drops.decapFailed + 1)), [])
        else AcceptAll(Handled(Authenticated(p, b, d.from, now), []), b, d.multi.value, now)
      else if d.single.None? then Handled(p.(drops := p.drops.(decapFailed := p.drops.decapFailed + 1)), [])
      else
        var p1 := Authenticated(p, b, d.from, now);
        if d.single.value == [] then Handled(CountRx(p1, b.c, 0, now), [])   // keepalive
        else Accept(Handled(p1, []), b, d.single.value, now)
  }

  // ---------- safety ----------

  /** A source-checked tunnel contributes only packets whose source its own prefixes contain. */
  predicate Honest(x: Delivery)
    requires ValidTunnel(x.t)
  {
    x.inner != [] && (x.t.checksSource ==> SourceWithin(x.inner, x.t.routes))
  }

  predicate AllHonest(out: seq<Delivery>)
  {
    forall i :: 0 <= i < |out| ==> ValidTunnel(out[i].t) && Honest(out[i])
  }

  lemma {:induction false} AcceptAllHonest(h: Handled, b: Bound, inners: seq<Packet>, now: nat)
    requires WellBound(b) && AllHonest(h.out)
    ensures AllHonest(AcceptAll(h, b, inners, now).out)
    decreases |inners|
  {
    hide SourceWithin, CountRx;
    if inners != [] { AcceptAllHonest(h, b, inners[..|inners| - 1], now); }
  }

  lemma HandleHonest(p: Pump, view: map<u32, Bound>, d: Datagram, now: nat)
    requires WellBoundView(view)
    ensures AllHonest(Handle(p, view, d, now).out)
  {
    hide SourceWithin, CountRx, AcceptAll;
    if d.key.Some? && d.key.value in view && d.multi.Some? {
      var b := view[d.key.value];
      AcceptAllHonest(Handled(Authenticated(p, b, d.from, now), []), b, d.multi.value, now);
    }
  }

  /** The datagram named a registered tunnel and that tunnel's keys opened it. */
  predicate Opened(view: map<u32, Bound>, d: Datagram)
  {
    && d.key.Some? && d.key.value in view
    && (if view[d.key.value].t.aggregates then d.multi.Some? else d.single.Some?)
  }

  lemma {:induction false} AcceptAllQuiet(h: Handled, b: Bound, inners: seq<Packet>, now: nat)
    requires WellBound(b)
    ensures AcceptAll(h, b, inners, now).p.peers == h.p.peers
    ensures AcceptAll(h, b, inners, now).p.lastInbound == h.p.lastInbound
    decreases |inners|
  {
    hide SourceWithin;
    if inners != [] { AcceptAllQuiet(h, b, inners[..|inners| - 1], now); }
  }

  /** Return addresses and the liveness clock move exactly on an opened datagram, and only its own tunnel's address does. */
  lemma OnlyOpenedMoves(p: Pump, view: map<u32, Bound>, d: Datagram, now: nat)
    requires WellBoundView(view)
    ensures var r := Handle(p, view, d, now).p;
      if !Opened(view, d) then r.peers == p.peers && r.lastInbound == p.lastInbound
      else
        var t := view[d.key.value].t;
        r.lastInbound == now
        && r.peers == (if d.from.Some? && t.roams then p.peers[t := d.from.value] else p.peers)
  {
    hide SourceWithin, AcceptAll;
    if d.key.Some? && d.key.value in view && d.multi.Some? {
      var b := view[d.key.value];
      AcceptAllQuiet(Handled(Authenticated(p, b, d.from, now), []), b, d.multi.value, now);
    }
  }

  // ---------- what the path leaves alone ----------

  lemma {:induction false} AcceptAllOnlyCounts(h: Handled, b: Bound, inners: seq<Packet>, now: nat)
    requires WellBound(b)
    ensures OnlyCells(AcceptAll(h, b, inners, now).p.reg, h.p.reg)
    decreases |inners|
  {
    hide SourceWithin;
    if inners != [] { AcceptAllOnlyCounts(h, b, inners[..|inners| - 1], now); }
  }

  /** The packet path touches no table: only counter contents. */
  predicate OnlyCells(a: Reg, b: Reg) { a.(cells := b.cells) == b && a.cells.Keys == b.cells.Keys }

  lemma HandleOnlyCounts(p: Pump, view: map<u32, Bound>, d: Datagram, now: nat)
    requires WellBoundView(view)
    ensures OnlyCells(Handle(p, view, d, now).p.reg, p.reg)
  {
    hide SourceWithin, AcceptAll;
    if d.key.Some? && d.key.value in view && d.multi.Some? {
      var b := view[d.key.value];
      AcceptAllOnlyCounts(Handled(Authenticated(p, b, d.from, now), []), b, d.multi.value, now);
    }
  }

  lemma OnlyCellsKeeps(a: Reg, b: Reg)
    requires OnlyCells(a, b) && RegInv(b)
    ensures RegInv(a)
  {
    hide Entry, Listed;
  }

  lemma RegisteredIsWellBound(r: Reg)
    requires RegInv(r)
    ensures WellBoundView(r.byKey)
  {
    hide RoutesRegistered, BlocksDistinct;
  }

  // ---------- conservation ----------

  predicate AtLeast(a: Counters, b: Counters)
  {
    a.rxPackets >= b.rxPackets && a.rxBytes >= b.rxBytes && a.txPackets >= b.txPackets && a.txBytes >= b.txBytes
  }

  function TxDrops(d: Drops): (n: nat) { d.notIP + d.noRoute + d.tooBig + d.pacerFull + d.encapFailed }

  function RxDrops(d: Drops): (n: nat) { d.noKey + d.unknownKey + d.decapFailed + d.spoofedSource }

  /** Everything inbound the pump can account for: the pump-wide packet count plus the inbound drops. */
  ghost function Accounted(p: Pump): (n: nat)
    requires BlocksDistinct(p.reg)
  {
    Total(p.reg).rxPackets + RxDrops(p.drops)
  }

  function NonEmpty(inners: seq<Packet>): (n: nat)
  {
    if inners == [] then 0 else NonEmpty(inners[..|inners| - 1]) + (if inners[|inners| - 1] == [] then 0 else 1)
  }

  /** What a datagram is worth: the inner packets of an opened aggregate, and one otherwise. */
  function Units(view: map<u32, Bound>, d: Datagram): (n: nat)
  {
    if Opened(view, d) && view[d.key.value].t.aggregates then NonEmpty(d.multi.value) else 1
  }

  /** One packet is accounted for, unless it was counted on a block nobody sums any more. */
  lemma CountRxMoves(p: Pump, c: nat, n: nat, now: nat)
    requires BlocksDistinct(p.reg)
    ensures BlocksDistinct(CountRx(p, c, n, now).reg)
    ensures Accounted(CountRx(p, c, n, now)) + (if Live(p.reg, c) then 0 else 1) == Accounted(p) + 1
    ensures AtLeast(Total(CountRx(p, c, n, now).reg), Total(p.reg))
  {
    hide LiveSum;
    if c in p.reg.cells {
      var x := p.reg.cells[c];
      var rest := BlockMoves(p.reg, c, x.(rxPackets := x.rxPackets + 1, rxBytes := x.rxBytes + n, lastSeen := now));
    }
  }

  /** How many of the inner packets are accepted. */
  function Taken(b: Bound, inners: seq<Packet>): (n: nat)
    requires WellBound(b)
  {
    if inners == [] then 0
    else
      var last := inners[|inners| - 1];
      Taken(b, inners[..|inners| - 1]) + (if last != [] && SourceOK(b, last) then 1 else 0)
  }

  lemma {:induction false} AcceptAllAccounts(h: Handled, b: Bound, inners: seq<Packet>, now: nat)
    requires WellBound(b) && BlocksDistinct(h.p.reg)
    ensures var r := AcceptAll(h, b, inners, now).p;
      && BlocksDistinct(r.reg) && OnlyCells(r.reg, h.p.reg) && AtLeast(Total(r.reg), Total(h.p.reg))
      && Accounted(r) + (if Live(h.p.reg, b.c) then 0 else Taken(b, inners)) == Accounted(h.p) + NonEmpty(inners)
    decreases |inners|
  {
    hide SourceOK, BlocksDistinct, CountRx, Total, Live;
    if inners != [] {
      var n := |inners| - 1;
      AcceptAllAccounts(h, b, inners[..n], now);
      var before := AcceptAll(h, b, inners[..n], now).p;
      CountRxMoves(before, b.c, |inners[n]|, now);
      CountRxOnlyCells(before, b.c, |inners[n]|, now);
      SameLive(before.reg, h.p.reg, b.c);
    }
  }

  lemma CountRxOnlyCells(p: Pump, c: nat, n: nat, now: nat)
    ensures OnlyCells(CountRx(p, c, n, now).reg, p.reg)
  {
  }

  lemma SameLive(a: Reg, b: Reg, c: nat)
    requires OnlyCells(a, b)
    ensures Live(a, c) == Live(b, c)
  {
  }

  /** The packets of d that are accepted and then counted on a block its tunnel no longer has. */
  ghost function Lost(r: Reg, view: map<u32, Bound>, d: Datagram): (n: nat)
    requires WellBoundView(view)
  {
    if !Opened(view, d) || Live(r, view[d.key.value].c) then 0
    else
      var b := view[d.key.value];
      if b.t.aggregates then Taken(b, d.multi.value)
      else if d.single.value == [] || SourceOK(b, d.single.value) then 1
      else 0
  }

  /** What a datagram is worth is accounted for, except exactly what is lost that way; and no total goes down. */
  lemma HandleAccounts(p: Pump, view: map<u32, Bound>, d: Datagram, now: nat)
    requires WellBoundView(view) && BlocksDistinct(p.reg)
    ensures var r := Handle(p, view, d, now).p;
      && BlocksDistinct(r.reg) && AtLeast(Total(r.reg), Total(p.reg))
      && Accounted(r) + Lost(p.reg, view, d) == Accounted(p) + Units(view, d)
  {
    hide SourceOK, AcceptAll, BlocksDistinct, CountRx, Total, NonEmpty, Taken, Live;
    if d.key.Some? && d.key.value in view {
      var b := view[d.key.value];
      var p1 := Authenticated(p, b, d.from, now);
      if b.t.aggregates && d.multi.Some? {
        AcceptAllAccounts(Handled(p1, []), b, d.multi.value, now);
      } else if !b.t.aggregates && d.single.Some? {
        CountRxMoves(p1, b.c, |d.single.value|, now);
      }
    }
  }

  lemma CountRxKeepsTx(p: Pump, c: nat, n: nat, now: nat)
    requires BlocksDistinct(p.reg)
    ensures BlocksDistinct(CountRx(p, c, n, now).reg)
    ensures Total(CountRx(p, c, n, now).reg).txPackets == Total(p.reg).txPackets
  {
    hide LiveSum;
    if c in p.reg.cells {
      var x := p.reg.cells[c];
      var rest := BlockMoves(p.reg, c, x.(rxPackets := x.rxPackets + 1, rxBytes := x.rxBytes + n, lastSeen := now));
    }
  }

  lemma {:induction false} AcceptAllKeepsTx(h: Handled, b: Bound, inners: seq<Packet>, now: nat)
    requires WellBound(b) && BlocksDistinct(h.p.reg)
    ensures var r := AcceptAll(h, b, inners, now).p;
      BlocksDistinct(r.reg) && Total(r.reg).txPackets == Total(h.p.reg).txPackets && TxDrops(r.drops) == TxDrops(h.p.drops)
    decreases |inners|
  {
    hide SourceOK, BlocksDistinct, CountRx, Total;
    if inners != [] {
      var n := |inners| - 1;
      AcceptAllKeepsTx(h, b, inners[..n], now);
      var before := AcceptAll(h, b, inners[..n], now).p;
      CountRxKeepsTx(before, b.c, |inners[n]|, now);
      CountRxKeepsDrops(before, b.c, |inners[n]|, now);
    }
  }

  lemma CountRxKeepsDrops(p: Pump, c: nat, n: nat, now: nat)
    ensures CountRx(p, c, n, now).drops == p.drops
  {
  }

  /** Inbound traffic does not enter the outbound books. */
  lemma HandleTouchesNoTx(p: Pump, view: map<u32, Bound>, d: Datagram, now: nat)
    requires WellBoundView(view) && BlocksDistinct(p.reg)
    ensures var r := Handle(p, view, d, now).p;
      BlocksDistinct(r.reg) && Total(r.reg).txPackets == Total(p.reg).txPackets && TxDrops(r.drops) == TxDrops(p.drops)
  {
    hide SourceOK, AcceptAll, BlocksDistinct, CountRx, Total;
    if d.key.Some? && d.key.value in view {
      var b := view[d.key.value];
      var p1 := Authenticated(p, b, d.from, now);
      if b.t.aggregates && d.multi.Some? {
        AcceptAllKeepsTx(Handled(p1, []), b, d.multi.value, now);
      } else if !b.t.aggregates && d.single.Some? {
        CountRxKeepsTx(p1, b.c, |d.single.value|, now);
        CountRxKeepsTx(p1, b.c, 0, now);
        CountRxKeepsDrops(p1, b.c, |d.single.value|, now);
        CountRxKeepsDrops(p1, b.c, 0, now);
      }
    }
  }

  /** A datagram that meets the registrations its snapshot was taken from loses nothing. */
  lemma FreshLosesNothing(r: Reg, d: Datagram)
    requires RegInv(r) && WellBoundView(r.byKey)
    ensures Lost(r, r.byKey, d) == 0
  {
    hide RoutesRegistered, BlocksDistinct, Taken, SourceOK;
    if Opened(r.byKey, d) {
      var b := r.byKey[d.key.value];
      assert Registered(r, b);
    }
  }

  lemma BlocksOfInv(r: Reg)
    requires RegInv(r)
    ensures BlocksDistinct(r)
  {
  }

  // ---------- batches ----------

  /** A read batch against one snapshot and one clock reading. */
  function HandleBatch(p: Pump, view: map<u32, Bound>, ds: seq<Datagram>, now: nat): (r: Handled)
    requires WellBoundView(view)
  {
    if ds == [] then Handled(p, [])
    else
      var h := HandleBatch(p, view, ds[..|ds| - 1], now);
      var k := Handle(h.p, view, ds[|ds| - 1], now);
      Handled(k.p, h.out + k.out)
  }

  function Inners(out: seq<Delivery>): (r: seq<Packet>)
    ensures |r| == |out|
  {
    seq(|out|, i requires 0 <= i < |out| => out[i].inner)
  }

  lemma {:induction false} HandleBatchHonest(p: Pump, view: map<u32, Bound>, ds: seq<Datagram>, now: nat)
    requires WellBoundView(view)
    ensures AllHonest(HandleBatch(p, view, ds, now).out)
    decreases |ds|
  {
    hide Handle, Honest;
    if ds != [] {
      HandleBatchHonest(p, view, ds[..|ds| - 1], now);
      HandleHonest(HandleBatch(p, view, ds[..|ds| - 1], now).p, view, ds[|ds| - 1], now);
    }
  }
}
