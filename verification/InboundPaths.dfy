/**
 The two inbound loops of the pump as they run (dataplane/pump.go, dataplane/gro_linux.go):
 the packet-at-a-time path and the coalescing path, each proved against the one specification
 of what a batch does to the pump.
 */
module InboundPaths {
  import opened Bytes
  import opened Registry
  import opened Inbound
  import opened Gro
  import opened GroStore
  import opened GroTable

  function Plains(ps: seq<Packet>): (r: seq<Write>)
    ensures |r| == |ps|
  {
    seq(|ps|, i requires 0 <= i < |ps| => Plain(ps[i]))
  }

  /** The pump's mutable state on the inbound goroutine. */
  class InboundPump {
    var reg: Reg
    var drops: Drops
    var peers: map<Tunnel, Endpoint>
    var lastInbound: nat

    function Value(): (p: Pump)
      reads this
    {
      Pump(reg, drops, peers, lastInbound)
    }

    method CountRxBlock(c: nat, n: nat, now: nat)
      modifies this`reg
      ensures Value() == CountRx(old(Value()), c, n, now)
    {
      if c in reg.cells {
        var x := reg.cells[c];
        reg := reg.(cells := reg.cells[c := x.(rxPackets := x.rxPackets + 1, rxBytes := x.rxBytes + n, lastSeen := now)]);
      }
    }

    method LookupInbound(view: map<u32, Bound>, d: Datagram) returns (b: Option<Bound>)
      modifies this`drops
      ensures b == if d.key.Some? && d.key.value in view then Some(view[d.key.value]) else None
      ensures b.Some? ==> Value() == old(Value())
      ensures b.None? && WellBoundView(view) ==> forall now :: Handled(Value(), []) == Handle(old(Value()), view, d, now)
    {
      if d.key.None? {
        drops := drops.(noKey := drops.noKey + 1);
        return None;
      }
      if d.key.value !in view {
        drops := drops.(unknownKey := drops.unknownKey + 1);
        return None;
      }
      return Some(view[d.key.value]);
    }

    method Roam(b: Bound, from: Option<Endpoint>)
      modifies this`peers
      ensures peers == if from.Some? && b.t.roams then old(peers)[b.t := from.value] else old(peers)
    {
      if from.Some? && b.t.roams {
        peers := peers[b.t := from.value];
      }
    }

    method SourceAllowed(b: Bound, inner: Packet) returns (ok: bool)
      requires WellBound(b)
      modifies this`drops
      ensures ok == SourceOK(b, inner)
      ensures Value() == if ok then old(Value())
                         else old(Value()).(drops := old(drops).(spoofedSource := old(drops).spoofedSource + 1))
    {
      if b.srcRoutes.None? {
        return true;
      }
      ok := SourceIn(inner, b.srcRoutes.value);
      if !ok {
        drops := drops.(spoofedSource := drops.spoofedSource + 1);
      }
    }

    /** decapInbound: the inner packet to deliver, if there is one. */
    method DecapInbound(b: Bound, d: Datagram, now: nat) returns (inner: Option<Packet>)
      requires WellBound(b) && !b.t.aggregates
      modifies this
      ensures inner.Some? ==> inner.value != []
      ensures forall view :: WellBoundView(view) && d.key.Some? && d.key.value in view && view[d.key.value] == b ==>
        Handle(old(Value()), view, d, now) ==
          if inner.None? then Handled(Value(), [])
          else Handled(CountRx(Value(), b.c, |inner.value|, now), [Delivery(b.t, inner.value)])
    {
      hide SourceOK, CountRx;
      if d.single.None? {
        drops := drops.(decapFailed := drops.decapFailed + 1);
        return None;
      }
      Roam(b, d.from);
      lastInbound := now;
      if d.single.value == [] {
        CountRxBlock(b.c, 0, now);
        return None;
      }
      var ok := SourceAllowed(b, d.single.value);
      if !ok {
        return None;
      }
      return d.single;
    }

    /** decapMulti. */
    method DecapMulti(b: Bound, d: Datagram, now: nat) returns (inners: Option<seq<Packet>>)
      modifies this
      ensures inners == d.multi
      ensures Value() == if inners.None? then old(Value()).(drops := old(drops).(decapFailed := old(drops).decapFailed + 1))
                         else Authenticated(old(Value()), b, d.from, now)
    {
      if d.multi.None? {
        drops := drops.(decapFailed := drops.decapFailed + 1);
        return None;
      }
      Roam(b, d.from);
      lastInbound := now;
      return d.multi;
    }
  }

  method SourceIn(p: Packet, prefixes: seq<Routes.Prefix>) returns (ok: bool)
    requires forall q :: q in prefixes ==> q.Valid()
    ensures ok == SourceWithin(p, prefixes)
  {
    var src := InnerSource(p);
    if src.None? {
      return false;
    }
    for i := 0 to |prefixes|
      invariant forall j :: 0 <= j < i ==> !prefixes[j].Contains(src.value)
    {
      if prefixes[i].Contains(src.value) {
        return true;
      }
    }
    return false;
  }

  // ---------- packet at a time ----------

  /** What one aggregated datagram does. */
  function MultiSpec(p: Pump, b: Bound, d: Datagram, now: nat): (r: Handled)
    requires WellBound(b)
  {
    if d.multi.None? then Handled(p.(drops := p.drops.(decapFailed := p.drops.decapFailed + 1)), [])
    else AcceptAll(Handled(Authenticated(p, b, d.from, now), []), b, d.multi.value, now)
  }

  /** handleInboundMulti. */
  method HandleInboundMulti(pump: InboundPump, tun: Tun, b: Bound, d: Datagram, now: nat)
    requires WellBound(b)
    modifies pump, tun
    ensures var h := MultiSpec(old(pump.Value()), b, d, now);
      pump.Value() == h.p && tun.out == old(tun.out) + Plains(Inners(h.out))
  {
    hide SourceOK, CountRx, Authenticated;
    var r := pump.DecapMulti(b, d, now);
    if r.None? {
      return;
    }
    var inners := r.value;
    ghost var h0 := Handled(pump.Value(), []);
    var i := 0;
    while i < |inners|
      invariant 0 <= i <= |inners|
      invariant var h := AcceptAll(h0, b, inners[..i], now); pump.Value() == h.p && tun.out == old(tun.out) + Plains(Inners(h.out))
    {
      assert inners[..i + 1][..i] == inners[..i];
      if inners[i] != [] {
        var ok := pump.SourceAllowed(b, inners[i]);
        if ok {
          pump.CountRxBlock(b.c, |inners[i]|, now);
          tun.Put(Plain(inners[i]));
        }
      }
      i := i + 1;
    }
    assert inners[..i] == inners;
  }

  /** handleInbound. */
  method HandleInbound(pump: InboundPump, tun: Tun, view: map<u32, Bound>, d: Datagram, now: nat)
    requires WellBoundView(view)
    modifies pump, tun
    ensures pump.Value() == Handle(old(pump.Value()), view, d, now).p
    ensures tun.out == old(tun.out) + Plains(Inners(Handle(old(pump.Value()), view, d, now).out))
  {
    hide CountRx, AcceptAll, Accept;
    var b := pump.LookupInbound(view, d);
    if b.None? {
      return;
    }
    if b.value.t.aggregates {
      HandleInboundMulti(pump, tun, b.value, d, now);
      return;
    }
    var inner := pump.DecapInbound(b.value, d, now);
    if inner.None? {
      return;
    }
    pump.CountRxBlock(b.value.c, |inner.value|, now);
    tun.Put(Plain(inner.value));
  }

  /** HandleInboundBatch on a plain TUN. */
  method HandleInboundBatch(pump: InboundPump, tun: Tun, view: map<u32, Bound>, ds: seq<Datagram>, now: nat)
    requires WellBoundView(view)
    modifies pump, tun
    ensures var h := HandleBatch(old(pump.Value()), view, ds, now);
      pump.Value() == h.p && tun.out == old(tun.out) + Plains(Inners(h.out))
  {
    hide Handle;
    var i := 0;
    while i < |ds|
      invariant 0 <= i <= |ds|
      invariant var h := HandleBatch(old(pump.Value()), view, ds[..i], now);
        pump.Value() == h.p && tun.out == old(tun.out) + Plains(Inners(h.out))
    {
      assert ds[..i + 1][..i] == ds[..i];
      HandleInbound(pump, tun, view, ds[i], now);
      i := i + 1;
    }
    assert ds[..i] == ds;
  }

  // ---------- coalescing ----------

  /** One inner packet of an aggregated datagram; false is an index panic in the table. */
  method GroInner(pump: InboundPump, t: GroTable, tun: Tun, b: Bound, inner: Packet, now: nat) returns (ok: bool)
    requires WellBound(b) && t.Valid()
    modifies pump, t, t.groups, tun
    ensures forall k :: 0 <= k < |t.groups| ==> t.groups[k] in old(t.groups) || fresh(t.groups[k])
    ensures var h := Accept(Handled(old(pump.Value()), []), b, inner, now); var f := FullRun(old(t.View(tun)), Inners(h.out));
      pump.Value() == h.p && ok == !f.down && if ok then t.Valid() && t.View(tun) == f else tun.out == f.out
  {
    hide SourceOK, CountRx, FullRun, FullStep, Inners, SlotOk;
    ghost var v0 := t.View(tun);
    NothingRuns(v0);
    if inner == [] {
      return true;
    }
    var allowed := pump.SourceAllowed(b, inner);
    if !allowed {
      return true;
    }
    pump.CountRxBlock(b.c, |inner|, now);
    RunDelivery(v0, Delivery(b.t, inner));
    ok := t.Offer(tun, inner);
  }

  lemma RunDelivery(v0: Full, x: Delivery)
    requires FullOk(v0)
    ensures FullRun(v0, Inners([] + [x])) == FullRun(v0, Inners([x])) == FullStep(v0, x.inner)
    ensures FullStep(v0, x.inner).down ==> FullStep(v0, x.inner).out == v0.out
  {
    hide FullStep, FullRun, SlotOk;
    assert Inners([x]) == [] + [x.inner] && [] + [x] == [x];
    NothingRuns(v0);
    assert Inners([]) == [];
    RunOneMore(v0, [], x.inner);
    if FullStep(v0, x.inner).down { PanicWritesNothing(v0, x.inner); }
  }

  /** groMulti; false is an index panic in the table, after which nothing more is written. */
  method GroMulti(pump: InboundPump, t: GroTable, tun: Tun, b: Bound, d: Datagram, now: nat) returns (ok: bool)
    requires WellBound(b) && t.Valid()
    modifies pump, t, t.groups, tun
    ensures forall k :: 0 <= k < |t.groups| ==> t.groups[k] in old(t.groups) || fresh(t.groups[k])
    ensures var h := MultiSpec(old(pump.Value()), b, d, now); var f := FullRun(old(t.View(tun)), Inners(h.out));
      ok == !f.down && if ok then pump.Value() == h.p && t.Valid() && t.View(tun) == f else tun.out == f.out
  {
    hide Accept, Authenticated, FullRun, Inners, SlotOk;
    ghost var v0 := t.View(tun);
    NothingRuns(v0);
    var r := pump.DecapMulti(b, d, now);
    if r.None? {
      return true;
    }
    var inners := r.value;
    ghost var h0 := Handled(pump.Value(), []);
    var i := 0;
    while i < |inners|
      invariant 0 <= i <= |inners| && t.Valid()
      invariant forall k :: 0 <= k < |t.groups| ==> t.groups[k] in old(t.groups) || fresh(t.groups[k])
      invariant var h := AcceptAll(h0, b, inners[..i], now);
        pump.Value() == h.p && t.View(tun) == FullRun(v0, Inners(h.out))
    {
      assert inners[..i + 1][..i] == inners[..i];
      ghost var h := AcceptAll(h0, b, inners[..i], now);
      AcceptAdds(v0, h, b, inners[i], now);
      ok := GroInner(pump, t, tun, b, inners[i], now);
      if !ok {
        OutGrows(h0, b, inners, i + 1, now);
        StopsHere(v0, AcceptAll(h0, b, inners[..i + 1], now).out, AcceptAll(h0, b, inners, now).out);
        return;
      }
      i := i + 1;
    }
    assert inners[..i] == inners;
    return true;
  }

  /** One inner packet adds to what was delivered, and the table runs on from where it was. */
  lemma AcceptAdds(v0: Full, h: Handled, b: Bound, inner: Packet, now: nat)
    requires WellBound(b) && FullOk(v0)
    ensures var one := Accept(Handled(h.p, []), b, inner, now);
      && Accept(h, b, inner, now) == Handled(one.p, h.out + one.out)
      && FullRun(v0, Inners(h.out + one.out)) == FullRun(FullRun(v0, Inners(h.out)), Inners(one.out))
  {
    hide FullRun, SlotOk, SourceOK, CountRx;
    var one := Accept(Handled(h.p, []), b, inner, now);
    InnersConcat(h.out, one.out);
    RunConcat(v0, Inners(h.out), Inners(one.out));
  }

  lemma NothingRuns(f: Full)
    requires FullOk(f)
    ensures FullRun(f, Inners([])) == f
  {
    assert Inners([]) == [];
  }

  /** Once the table is down it is down for the whole of what would have followed. */
  lemma StopsHere(v0: Full, out: seq<Delivery>, full: seq<Delivery>)
    requires FullOk(v0) && out <= full && FullRun(v0, Inners(out)).down
    ensures FullRun(v0, Inners(full)) == FullRun(v0, Inners(out))
  {
    hide FullRun, SlotOk, Inners;
    InnersLead(out, full);
    RunStopped(v0, Inners(out), Inners(full));
  }

  /** Accepting more inner packets only extends what has been delivered. */
  lemma {:induction false} OutGrows(h: Handled, b: Bound, inners: seq<Packet>, i: nat, now: nat)
    requires WellBound(b) && i <= |inners|
    ensures AcceptAll(h, b, inners[..i], now).out <= AcceptAll(h, b, inners, now).out
    decreases |inners|
  {
    hide SourceOK, CountRx;
    if i < |inners| {
      var n := |inners| - 1;
      OutGrows(h, b, inners[..n], i, now);
      assert inners[..n][..i] == inners[..i];
    } else {
      assert inners[..i] == inners;
    }
  }

  lemma {:induction false} BatchOutGrows(p: Pump, view: map<u32, Bound>, ds: seq<Datagram>, i: nat, now: nat)
    requires WellBoundView(view) && i <= |ds|
    ensures HandleBatch(p, view, ds[..i], now).out <= HandleBatch(p, view, ds, now).out
    decreases |ds|
  {
    hide Handle;
    if i < |ds| {
      var n := |ds| - 1;
      BatchOutGrows(p, view, ds[..n], i, now);
      assert ds[..n][..i] == ds[..i];
    } else {
      assert ds[..i] == ds;
    }
  }

  lemma InnersConcat(a: seq<Delivery>, b: seq<Delivery>)
    ensures Inners(a + b) == Inners(a) + Inners(b)
  {
  }

  /** One datagram of the coalescing loop; false is an index panic in the table. */
  method GroDatagram(pump: InboundPump, t: GroTable, tun: Tun, view: map<u32, Bound>, d: Datagram, now: nat) returns (ok: bool)
    requires WellBoundView(view) && t.Valid()
    modifies pump, t, t.groups, tun
    ensures forall k :: 0 <= k < |t.groups| ==> t.groups[k] in old(t.groups) || fresh(t.groups[k])
    ensures var h := Handle(old(pump.Value()), view, d, now); var f := FullRun(old(t.View(tun)), Inners(h.out));
      ok == !f.down && if ok then pump.Value() == h.p && t.Valid() && t.View(tun) == f else tun.out == f.out
  {
    hide CountRx, AcceptAll, Accept, FullRun, FullStep, SlotOk, Inners;
    ghost var v0 := t.View(tun);
    NothingRuns(v0);
    var b := pump.LookupInbound(view, d);
    if b.None? {
      return true;
    }
    if b.value.t.aggregates {
      ok := GroMulti(pump, t, tun, b.value, d, now);
      return;
    }
    var inner := pump.DecapInbound(b.value, d, now);
    if inner.None? {
      return true;
    }
    pump.CountRxBlock(b.value.c, |inner.value|, now);
    RunDelivery(v0, Delivery(b.value.t, inner.value));
    ok := t.Offer(tun, inner.value);
  }

  /**
   handleInboundBatchGRO, on every batch: unless an index panics, the pump ends in exactly the
   state the packet-at-a-time path leaves, and the TUN gets what the table emits for exactly the
   packets that path writes. When an index panics, the TUN keeps what was written before.
   */
  method HandleInboundBatchGRO(pump: InboundPump, t: GroTable, tun: Tun, view: map<u32, Bound>, ds: seq<Datagram>, now: nat)
    returns (ok: bool)
    requires WellBoundView(view) && t.Valid()
    modifies pump, t, t.groups, tun
    ensures var h := HandleBatch(old(pump.Value()), view, ds, now); var pkts := Inners(h.out);
      && ok == !Batch(old(t.slots), pkts).down
      && tun.out == old(tun.out) + Emitted(old(t.slots), pkts)
      && (ok ==> pump.Value() == h.p && t.Valid())
  {
    hide Handle, FullRun, SlotOk, Inners, FlushSlots;
    ghost var p0, slots := pump.Value(), t.slots;
    t.Reset();
    ghost var v0 := t.View(tun);
    NothingRuns(v0);
    var i := 0;
    while i < |ds|
      invariant 0 <= i <= |ds| && t.Valid()
      invariant forall k :: 0 <= k < |t.groups| ==> t.groups[k] in old(t.groups) || fresh(t.groups[k])
      invariant var h := HandleBatch(p0, view, ds[..i], now);
        pump.Value() == h.p && t.View(tun) == FullRun(v0, Inners(h.out))
    {
      ghost var h := HandleBatch(p0, view, ds[..i], now);
      assert ds[..i + 1][..i] == ds[..i];
      ghost var k := Handle(h.p, view, ds[i], now);
      assert HandleBatch(p0, view, ds[..i + 1], now) == Handled(k.p, h.out + k.out);
      InnersConcat(h.out, k.out);
      RunConcat(v0, Inners(h.out), Inners(k.out));
      ok := GroDatagram(pump, t, tun, view, ds[i], now);
      if !ok {
        BatchOutGrows(p0, view, ds, i + 1, now);
        StopsHere(v0, h.out + k.out, HandleBatch(p0, view, ds, now).out);
        EmitsAfter(slots, old(tun.out), Inners(HandleBatch(p0, view, ds, now).out));
        return;
      }
      i := i + 1;
    }
    assert ds[..i] == ds;
    EmitsAfter(slots, old(tun.out), Inners(HandleBatch(p0, view, ds, now).out));
    t.FlushGroups(tun);
    return true;
  }

  lemma InnersLead(a: seq<Delivery>, b: seq<Delivery>)
    requires a <= b
    ensures Inners(a) <= Inners(b)
  {
  }

  /** The batch behaves the same whatever the TUN got before it. */
  lemma EmitsAfter(slots: seq<Slot>, before: seq<Write>, pkts: seq<Packet>)
    requires SlotsOk(slots)
    ensures var f := FullRun(Full(slots, 0, before, false), pkts);
      && f.down == Batch(slots, pkts).down
      && before + Emitted(slots, pkts) == if f.down then f.out else f.out + FlushSlots(f.slots, f.n)
  {
    hide FullRun, SlotOk, FlushSlots;
    assert before + [] == before;
    RunShifts(Full(slots, 0, [], false), before, pkts);
  }
}
