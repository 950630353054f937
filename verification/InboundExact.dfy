/**
 What one datagram does, in full (dataplane/pump.go, dataplane/source.go, dataplane/counters.go): which
 packets reach the TUN, on which block they are counted, and which drop is.
 */
module InboundExact {
  import opened Bytes
  import opened Routes
  import opened Registry
  import opened Inbound

  // ---------- addresses ----------

  /** The k octets that spell n, most significant first. */
  function Octets(n: nat, k: nat): (r: Packet)
    ensures |r| == k
  {
    if k == 0 then [] else Octets(n / 0x100, k - 1) + [n % 0x100]
  }

  lemma {:induction false} BeNatSpells(p: Packet, off: nat, k: nat, n: nat)
    requires off + k <= |p| && Shr(n, 8 * k) == 0
    ensures BeNat(p, off, k) == n <==> p[off..off + k] == Octets(n, k)
    decreases k
  {
    if k > 0 {
      var q, m := n / 0x100, off + k - 1;
      ShrShr(q * 0x100 + n % 0x100, 8, 8 * (k - 1));
      EightShifts(q, n % 0x100);
      BeNatSpells(p, off, k - 1, q);
      assert p[off..off + k] == p[off..m] + [p[m]];
      assert |Octets(q, k - 1)| == |p[off..m]|;
      if p[off..off + k] == Octets(n, k) {
        assert p[off..m] == p[off..off + k][..k - 1] == Octets(q, k - 1);
        assert p[m] == p[off..off + k][k - 1];
      }
    }
  }

  /** The packet is whole enough to be of a's family, and spells a from off4 or off6 on. */
  predicate Spells(p: Packet, a: Addr, off4: nat, off6: nat)
    requires off4 + 4 <= 20 && off6 + 16 <= 40
  {
    if a.V4? then |p| >= 20 && p[0] / 16 == 4 && p[off4..off4 + 4] == Octets(a.n, 4)
    else |p| >= 40 && p[0] / 16 == 6 && p[off6..off6 + 16] == Octets(a.n, 16)
  }

  /** Source and destination are read where the two IP headers put them. */
  lemma AddressesRead(p: Packet, a: Addr)
    requires a.Valid()
    ensures InnerSource(p) == Some(a) <==> Spells(p, a, 12, 8)
    ensures InnerDest(p) == Some(a) <==> Spells(p, a, 16, 24)
  {
    hide BeNat, Octets, Shr;
    AddressAt(p, a, 12, 8);
    AddressAt(p, a, 16, 24);
  }

  lemma AddressAt(p: Packet, a: Addr, off4: nat, off6: nat)
    requires a.Valid() && off4 + 4 <= 20 && off6 + 16 <= 40
    ensures AddrAt(p, off4, off6) == Some(a) <==> Spells(p, a, off4, off6)
  {
    hide BeNat, Octets, Shr;
    if a.V4? && |p| >= 20 { BeNatSpells(p, off4, 4, a.n); }
    if a.V6? && |p| >= 40 { BeNatSpells(p, off6, 16, a.n); }
  }

  // ---------- what is delivered ----------

  /** t may send q: it is not source-checked, or one of the prefixes it registered contains q's source. */
  predicate MaySend(t: Tunnel, q: Packet)
    requires ValidTunnel(t)
  {
    !t.checksSource ||
    (InnerSource(q).Some? && exists i :: 0 <= i < |t.routes| && t.routes[i].Contains(InnerSource(q).value))
  }

  /** The packets of qs that reach the TUN from t. */
  function Sendable(t: Tunnel, qs: seq<Packet>): (r: seq<Packet>)
    requires ValidTunnel(t)
  {
    if qs == [] then [] else (if qs[0] != [] && MaySend(t, qs[0]) then [qs[0]] else []) + Sendable(t, qs[1..])
  }

  function From(t: Tunnel, qs: seq<Packet>): (r: seq<Delivery>)
    ensures |r| == |qs|
  {
    seq(|qs|, i requires 0 <= i < |qs| => Delivery(t, qs[i]))
  }

  /** What an opened datagram turned out to hold. */
  function Inside(view: map<u32, Bound>, d: Datagram): (r: seq<Packet>)
    requires Opened(view, d)
  {
    if view[d.key.value].t.aggregates then d.multi.value else [d.single.value]
  }

  /** What a datagram is owed: in order, the non-empty packets in it that its tunnel may send. */
  function Owed(view: map<u32, Bound>, d: Datagram): (r: seq<Delivery>)
    requires WellBoundView(view)
  {
    if !Opened(view, d) then []
    else
      var t := view[d.key.value].t;
      From(t, Sendable(t, Inside(view, d)))
  }

  lemma {:induction false} SendableGrows(t: Tunnel, qs: seq<Packet>, q: Packet)
    requires ValidTunnel(t)
    ensures Sendable(t, qs + [q]) == Sendable(t, qs) + if q != [] && MaySend(t, q) then [q] else []
    decreases |qs|
  {
    hide MaySend;
    if qs != [] {
      SendableGrows(t, qs[1..], q);
      assert (qs + [q])[1..] == qs[1..] + [q];
    } else {
      assert qs + [q] == [q] && [q][1..] == [];
    }
  }

  lemma FromGrows(t: Tunnel, qs: seq<Packet>, more: seq<Packet>)
    ensures From(t, qs + more) == From(t, qs) + From(t, more)
  {
  }

  lemma {:induction false} AcceptAllDelivers(h: Handled, b: Bound, qs: seq<Packet>, now: nat)
    requires WellBound(b)
    ensures AcceptAll(h, b, qs, now).out == h.out + From(b.t, Sendable(b.t, qs))
    decreases |qs|
  {
    hide CountRx, From, Sendable;
    if qs == [] {
      NothingFrom(b.t);
    } else {
      var n := |qs| - 1;
      AcceptAllDelivers(h, b, qs[..n], now);
      assert qs[..n] + [qs[n]] == qs;
      SendableGrows(b.t, qs[..n], qs[n]);
      FromGrows(b.t, Sendable(b.t, qs[..n]), [qs[n]]);
      OneFrom(b.t, qs[n]);
      SourceIsOK(b, qs[n]);
      var before := Sendable(b.t, qs[..n]);
      assert before + [] == before;
      assert h.out + From(b.t, before) + [Delivery(b.t, qs[n])] == h.out + (From(b.t, before) + [Delivery(b.t, qs[n])]);
    }
  }

  lemma NothingFrom(t: Tunnel)
    requires ValidTunnel(t)
    ensures From(t, Sendable(t, [])) == []
  {
  }

  lemma OneFrom(t: Tunnel, q: Packet)
    ensures From(t, [q]) == [Delivery(t, q)] && From(t, []) == []
  {
  }

  lemma SourceIsOK(b: Bound, q: Packet)
    requires WellBound(b)
    ensures SourceOK(b, q) == MaySend(b.t, q)
  {
  }

  lemma OneSendable(t: Tunnel, q: Packet)
    requires ValidTunnel(t)
    ensures Sendable(t, [q]) == if q != [] && MaySend(t, q) then [q] else []
  {
    SendableGrows(t, [], q);
  }

  /** The TUN gets exactly what the datagram is owed. */
  lemma HandleDelivers(p: Pump, view: map<u32, Bound>, d: Datagram, now: nat)
    requires WellBoundView(view)
    ensures Handle(p, view, d, now).out == Owed(view, d)
  {
    hide CountRx, AcceptAll, From, Sendable, MaySend, SourceOK;
    if Opened(view, d) {
      var b := view[d.key.value];
      if b.t.aggregates {
        AcceptAllDelivers(Handled(Authenticated(p, b, d.from, now), []), b, d.multi.value, now);
      } else {
        var q := d.single.value;
        OneSendable(b.t, q);
        OneFrom(b.t, q);
        SourceIsOK(b, q);
      }
    }
  }

  /** What the datagrams of a batch are owed, in arrival order. */
  function OwedAll(view: map<u32, Bound>, ds: seq<Datagram>): (r: seq<Delivery>)
    requires WellBoundView(view)
  {
    if ds == [] then [] else Owed(view, ds[0]) + OwedAll(view, ds[1..])
  }

  lemma {:induction false} OwedAllGrows(view: map<u32, Bound>, ds: seq<Datagram>, d: Datagram)
    requires WellBoundView(view)
    ensures OwedAll(view, ds + [d]) == OwedAll(view, ds) + Owed(view, d)
    decreases |ds|
  {
    hide Owed;
    if ds != [] {
      OwedAllGrows(view, ds[1..], d);
      assert (ds + [d])[1..] == ds[1..] + [d];
    } else {
      assert ds + [d] == [d] && [d][1..] == [];
    }
  }

  /** And a batch delivers what each of its datagrams is owed, whatever the counters were. */
  lemma {:induction false} BatchDelivers(p: Pump, view: map<u32, Bound>, ds: seq<Datagram>, now: nat)
    requires WellBoundView(view)
    ensures HandleBatch(p, view, ds, now).out == OwedAll(view, ds)
    decreases |ds|
  {
    hide Handle, Owed;
    if ds != [] {
      var n := |ds| - 1;
      BatchDelivers(p, view, ds[..n], now);
      HandleDelivers(HandleBatch(p, view, ds[..n], now).p, view, ds[n], now);
      OwedAllGrows(view, ds[..n], ds[n]);
      assert ds[..n] + [ds[n]] == ds;
    }
  }

  // ---------- what is counted ----------

  function OctetCount(qs: seq<Packet>): (n: nat) { if qs == [] then 0 else |qs[0]| + OctetCount(qs[1..]) }

  /** A block that has received qs at time now. */
  function Received(x: Counters, qs: seq<Packet>, now: nat): (r: Counters)
  {
    x.(rxPackets := x.rxPackets + |qs|, rxBytes := x.rxBytes + OctetCount(qs), lastSeen := if qs == [] then x.lastSeen else now)
  }

  /** What an opened datagram counts as: what it delivers, and a keepalive, the empty packet of a tunnel that does not aggregate, as itself. */
  function Counted(view: map<u32, Bound>, d: Datagram): (r: seq<Packet>)
    requires WellBoundView(view) && Opened(view, d)
  {
    var t := view[d.key.value].t;
    if !t.aggregates && d.single.value == [] then [[]] else Sendable(t, Inside(view, d))
  }

  /** The packets in qs that t may not send. */
  function Spoofed(t: Tunnel, qs: seq<Packet>): (n: nat)
    requires ValidTunnel(t)
  {
    if qs == [] then 0 else (if qs[0] != [] && !MaySend(t, qs[0]) then 1 else 0) + Spoofed(t, qs[1..])
  }

  lemma {:induction false} OctetCountGrows(qs: seq<Packet>, q: Packet)
    ensures OctetCount(qs + [q]) == OctetCount(qs) + |q|
    decreases |qs|
  {
    if qs != [] {
      OctetCountGrows(qs[1..], q);
      assert (qs + [q])[1..] == qs[1..] + [q];
    } else {
      assert qs + [q] == [q] && [q][1..] == [];
    }
  }

  lemma {:induction false} SpoofedGrows(t: Tunnel, qs: seq<Packet>, q: Packet)
    requires ValidTunnel(t)
    ensures Spoofed(t, qs + [q]) == Spoofed(t, qs) + if q != [] && !MaySend(t, q) then 1 else 0
    decreases |qs|
  {
    hide MaySend;
    if qs != [] {
      SpoofedGrows(t, qs[1..], q);
      assert (qs + [q])[1..] == qs[1..] + [q];
    } else {
      assert qs + [q] == [q] && [q][1..] == [];
    }
  }

  /** The registry with one block having received qs. */
  function OnBlock(r: Reg, c: nat, qs: seq<Packet>, now: nat): (r': Reg)
  {
    if c in r.cells then r.(cells := r.cells[c := Received(r.cells[c], qs, now)]) else r
  }

  lemma ReceivedOne(p: Pump, r: Reg, c: nat, qs: seq<Packet>, q: Packet, now: nat)
    requires p.reg == OnBlock(r, c, qs, now)
    ensures CountRx(p, c, |q|, now) == p.(reg := OnBlock(r, c, qs + [q], now))
  {
    hide OctetCount;
    OctetCountGrows(qs, q);
  }

  lemma ReceivedNone(r: Reg, c: nat, now: nat)
    ensures OnBlock(r, c, [], now) == r
  {
  }

  lemma {:induction false} AcceptAllCounts(h: Handled, b: Bound, qs: seq<Packet>, now: nat)
    requires WellBound(b)
    ensures AcceptAll(h, b, qs, now).p == h.p.(
      reg := OnBlock(h.p.reg, b.c, Sendable(b.t, qs), now),
      drops := h.p.drops.(spoofedSource := h.p.drops.spoofedSource + Spoofed(b.t, qs)))
    decreases |qs|
  {
    hide CountRx, Sendable, Spoofed, OnBlock, MaySend, SourceOK;
    if qs == [] {
      ReceivedNone(h.p.reg, b.c, now);
      NothingCounts(b.t);
    } else {
      var n := |qs| - 1;
      AcceptAllCounts(h, b, qs[..n], now);
      assert qs[..n] + [qs[n]] == qs;
      SendableGrows(b.t, qs[..n], qs[n]);
      SpoofedGrows(b.t, qs[..n], qs[n]);
      SourceIsOK(b, qs[n]);
      ReceivedOne(AcceptAll(h, b, qs[..n], now).p, h.p.reg, b.c, Sendable(b.t, qs[..n]), qs[n], now);
      assert Sendable(b.t, qs[..n]) + [] == Sendable(b.t, qs[..n]);
    }
  }

  lemma NothingCounts(t: Tunnel)
    requires ValidTunnel(t)
    ensures Sendable(t, []) == [] && Spoofed(t, []) == 0
  {
  }

  /** A datagram that did not open moves one drop counter, the one of the step it failed at, and nothing else. */
  lemma UnopenedDrops(p: Pump, view: map<u32, Bound>, d: Datagram, now: nat)
    requires WellBoundView(view) && !Opened(view, d)
    ensures var r := Handle(p, view, d, now).p;
      r == p.(drops :=
        if d.key.None? then p.drops.(noKey := p.drops.noKey + 1)
        else if d.key.value !in view then p.drops.(unknownKey := p.drops.unknownKey + 1)
        else p.drops.(decapFailed := p.drops.decapFailed + 1))
  {
  }

  /**
   An opened one counts its packets, octets and the time on its own tunnel's block, and a spoofed-source
   drop for each packet its tunnel may not send; every other counter stands.
   */
  lemma OpenedCounts(p: Pump, view: map<u32, Bound>, d: Datagram, now: nat)
    requires WellBoundView(view) && Opened(view, d)
    ensures var r, b := Handle(p, view, d, now).p, view[d.key.value];
      && r.reg == OnBlock(p.reg, b.c, Counted(view, d), now)
      && r.drops == p.drops.(spoofedSource := p.drops.spoofedSource + Spoofed(b.t, Inside(view, d)))
  {
    hide CountRx, AcceptAll, Sendable, Spoofed, OnBlock, MaySend, SourceOK;
    var b := view[d.key.value];
    var p1 := Authenticated(p, b, d.from, now);
    ReceivedNone(p.reg, b.c, now);
    if b.t.aggregates {
      AcceptAllCounts(Handled(p1, []), b, d.multi.value, now);
    } else {
      var q := d.single.value;
      OneSendable(b.t, q);
      SpoofedGrows(b.t, [], q);
      NothingCounts(b.t);
      SourceIsOK(b, q);
      ReceivedOne(p1, p.reg, b.c, [], q, now);
      assert [] + [q] == [q];
      if q == [] { assert [q] == [[]]; }
    }
  }
}
