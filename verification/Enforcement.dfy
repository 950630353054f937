/**
 Source enforcement across coalescing (dataplane/source.go, dataplane/gro_linux.go): what the stack
 gets out of a batch, against the checks its packets passed on the way in.
 */
module Enforcement {
  import opened Bytes
  import opened Routes
  import opened Registry
  import opened Inbound
  import opened Gro
  import opened GroBatch
  import opened GroStore
  import opened GroFlow
  import opened GroLoss
  import opened GroSamples

  /** A packet and what stands for it show the stack the same source address. */
  lemma StandsForKeepsSource(d: Packet, p: Packet, offered: seq<Packet>)
    requires StandsFor(d, p, offered)
    ensures InnerSource(d) == InnerSource(p)
  {
    hide Rewritten, Eligible, BeNat;
    if d != p {
      var i :| 0 <= i < |offered| && RewrittenAs(d, p, offered[i]);
      BeNatSame(d, p, 12, 4);
      RewrittenIsV4(d, p);
    }
  }

  /** Rewritten packets are IPv4, so the IPv6 reading of their first octets does not arise. */
  lemma RewrittenIsV4(d: Packet, p: Packet)
    requires |d| == |p| >= 40 && Eligible(p) && d[0] == p[0]
    ensures d[0] / 16 == 4
  {
  }

  /** What a source-checked tunnel lets through. */
  predicate Permits(t: Tunnel, d: Packet)
    requires ValidTunnel(t)
  {
    t.checksSource ==> SourceWithin(d, t.routes)
  }

  /** d is delivery x as sent or as coalescing rewrote it, and passes the source check of x's own tunnel. */
  predicate Carries(d: Packet, x: Delivery, out: seq<Delivery>)
  {
    StandsFor(d, x.inner, Inners(out)) && ValidTunnel(x.t) && Permits(x.t, d)
  }

  predicate Carried(d: Packet, out: seq<Delivery>) { exists i :: 0 <= i < |out| && Carries(d, out[i], out) }

  lemma StandingIsCarried(d: Packet, out: seq<Delivery>)
    requires AllHonest(out) && Standing(d, Inners(out))
    ensures Carried(d, out)
  {
    hide StandsFor, InnerSource;
    var i :| 0 <= i < |out| && StandsFor(d, Inners(out)[i], Inners(out));
    StandsForKeepsSource(d, Inners(out)[i], Inners(out));
    assert Honest(out[i]);
    assert Carries(d, out[i], out);
  }

  /**
   Source enforcement survives coalescing: every packet the stack gets out of a clean batch is one
   of its deliveries, as sent or as rewritten, and passes the source check of that delivery's tunnel.
   */
  lemma CoalescedIsHonest(slots: seq<Slot>, p: Pump, view: map<u32, Bound>, ds: seq<Datagram>, now: nat, e: nat)
    requires SlotsOk(slots) && WellBoundView(view)
    requires EveryFlowClean(Inners(HandleBatch(p, view, ds, now).out))
    requires e < |ExpandAll(Emitted(slots, Inners(HandleBatch(p, view, ds, now).out)))|
    ensures var out := HandleBatch(p, view, ds, now).out; Carried(ExpandAll(Emitted(slots, Inners(out)))[e], out)
  {
    hide Process, Emitted, ExpandAll, HandleBatch, Standing, Carried, SlotOk, Honest, Inners, EveryFlowClean;
    var out := HandleBatch(p, view, ds, now).out;
    CleanIffFlowsClean(Inners(out));
    HandleBatchHonest(p, view, ds, now);
    CleanStanding(slots, Inners(out));
    assert Standing(ExpandAll(Emitted(slots, Inners(out)))[e], Inners(out));
    StandingIsCarried(ExpandAll(Emitted(slots, Inners(out)))[e], out);
  }

  lemma PermitsSameSource(t: Tunnel, a: Packet, b: Packet)
    requires ValidTunnel(t) && InnerSource(a) == InnerSource(b)
    ensures Permits(t, a) == Permits(t, b)
  {
    hide InnerSource;
  }

  /** Folding flags into octet 33 leaves every address of a packet alone. */
  lemma HeaderlessSource(p: Packet)
    requires |p| > 40 && !Panics(p)
    ensures InnerSource(Headerless(p)) == InnerSource(p[40..])
  {
    hide BeNat, Panics, Headerless;
    var d, q := Headerless(p), p[40..];
    if |q| >= 20 { BeNatSame(d, q, 12, 4); }
    if |q| >= 40 { BeNatSame(d, q, 8, 16); }
  }

  lemma StandingGrows(d: Packet, ps: seq<Packet>, p: Packet)
    requires Standing(d, ps)
    ensures Standing(d, ps + [p])
  {
    hide RewrittenAs;
    var k :| 0 <= k < |ps| && StandsFor(d, ps[k], ps);
    var more := ps + [p];
    if d != ps[k] {
      var i :| 0 <= i < |ps| && RewrittenAs(d, ps[k], ps[i]);
      assert more[i] == ps[i];
    }
    assert more[k] == ps[k];
    assert StandsFor(d, more[k], more);
  }

  /** x is the first delivery to meet an emptied group, and the append does not panic: its bare payload reaches the stack. */
  ghost predicate Bares(out: seq<Delivery>, x: Delivery)
  {
    !EveryFlowClean(Inners(out + [x])) && |x.inner| > 40 && !Panics(x.inner)
  }

  /**
   Each packet the stack gets passes the source check of the tunnel it came through: the bare payload,
   where there is one, that of x's own tunnel, and every other packet that of the delivery it stands for.
   */
  ghost predicate Enforced(slots: seq<Slot>, out: seq<Delivery>, x: Delivery)
    requires SlotsOk(slots) && ValidTunnel(x.t)
  {
    var got := ExpandAll(Emitted(slots, Inners(out + [x])));
    forall e :: 0 <= e < |got| ==>
      if Bares(out, x) && e == BareAt(Inners(out), x.inner) then Permits(x.t, got[e]) else Carried(got[e], out + [x])
  }

  /**
   Where everything comes from, for any deliveries that each passed their own check, up to and
   including the first that meets an emptied group: each packet is a delivery its own tunnel permits,
   but for the one bare payload.
   */
  lemma AllButOneCarried(slots: seq<Slot>, out: seq<Delivery>, x: Delivery)
    requires SlotsOk(slots) && AllHonest(out + [x]) && EveryFlowClean(Inners(out))
    ensures var got := ExpandAll(Emitted(slots, Inners(out + [x])));
      if !Bares(out, x) then forall e :: 0 <= e < |got| ==> Carried(got[e], out + [x])
      else
        var k := BareAt(Inners(out), x.inner);
        k < |got| && got[k] == Headerless(x.inner) && forall e :: 0 <= e < |got| && e != k ==> Carried(got[e], out + [x])
  {
    hide Process, Emitted, ExpandAll, Standing, SlotOk, Honest, Carried, Panics, Inners, OntoEmptied, Tidy, EveryFlowClean, BareAt, Headerless;
    var all := out + [x];
    var got := ExpandAll(Emitted(slots, Inners(all)));
    InnersOfLast(out, x);
    CleanIffFlowsClean(Inners(out));
    CleanIffFlowsClean(Inners(all));
    if Process(Inners(all)).clean {
      CleanStanding(slots, Inners(all));
      forall e | 0 <= e < |got| ensures Carried(got[e], all) {
        assert Standing(got[e], Inners(all));
        StandingIsCarried(got[e], all);
      }
    } else {
      LastMeetsEmptied(Inners(out), x.inner);
      LossStanding(slots, Inners(out), x.inner);
      forall e | 0 <= e < |got| && (Panics(x.inner) || e != BareAt(Inners(out), x.inner)) ensures Carried(got[e], all) {
        assert Standing(got[e], Inners(out));
        StandingGrows(got[e], Inners(out), x.inner);
        StandingIsCarried(got[e], all);
      }
    }
  }

  lemma InnersOfLast(out: seq<Delivery>, x: Delivery)
    ensures Inners(out + [x]) == Inners(out) + [x.inner]
  {
  }

  lemma LastMeetsEmptied(pkts: seq<Packet>, p: Packet)
    requires Process(pkts).clean && !Process(pkts + [p]).clean
    ensures Tidy(Process(pkts).s.tbl) && OntoEmptied(Process(pkts).s.tbl, p)
  {
    hide Step, OntoEmptied, Tidy;
    assert (pkts + [p])[..|pkts|] == pkts;
    CleanIsTidy(pkts);
  }

  /**
   Exactly when coalescing keeps source enforcement, each packet against its own sender: x meets no
   emptied group, or panics, or x's own tunnel permits the payload of x as a packet.
   */
  lemma EnforcedIff(slots: seq<Slot>, out: seq<Delivery>, x: Delivery)
    requires SlotsOk(slots) && AllHonest(out + [x]) && EveryFlowClean(Inners(out))
    ensures ValidTunnel(x.t)
    ensures Enforced(slots, out, x) <==> (Bares(out, x) ==> Permits(x.t, x.inner[40..]))
  {
    hide Emitted, ExpandAll, SlotOk, Honest, Carried, Panics, Inners, EveryFlowClean, BareAt, Headerless, InnerSource, Permits;
    assert (out + [x])[|out|] == x;
    AllButOneCarried(slots, out, x);
    if Bares(out, x) {
      HeaderlessSource(x.inner);
      PermitsSameSource(x.t, Headerless(x.inner), x.inner[40..]);
    }
  }

  /** The same for what any read batch delivers, up to its first such packet. */
  lemma BatchEnforcedIff(slots: seq<Slot>, p: Pump, view: map<u32, Bound>, ds: seq<Datagram>, now: nat, n: nat)
    requires SlotsOk(slots) && WellBoundView(view) && n < |HandleBatch(p, view, ds, now).out|
    requires EveryFlowClean(Inners(HandleBatch(p, view, ds, now).out[..n]))
    ensures var out := HandleBatch(p, view, ds, now).out; var before, x := out[..n], out[n];
      ValidTunnel(x.t) && (Enforced(slots, before, x) <==> (Bares(before, x) ==> Permits(x.t, x.inner[40..])))
  {
    hide Enforced, Bares, Honest, Inners, HandleBatch, SlotOk, EveryFlowClean, Permits;
    var out := HandleBatch(p, view, ds, now).out;
    HandleBatchHonest(p, view, ds, now);
    assert out[..n] + [out[n]] == out[..n + 1];
    EnforcedIff(slots, out[..n], out[n]);
  }

  // ---------- batches that leak ----------

  const SAMPLE_SOURCE: Addr := V4(0x0A00_0001)

  /** A source-checked tunnel that may send as 10.0.0.1 and nothing else. */
  const ONE_HOST: Tunnel := Tunnel(0, [Prefix(SAMPLE_SOURCE, 32)], false, false, false, true, false, false)

  const NEIGHBOUR_SOURCE: Addr := V4(0x0A09_0909)

  /** Another such tunnel, for 10.9.9.9. */
  const NEIGHBOUR: Tunnel := Tunnel(1, [Prefix(NEIGHBOUR_SOURCE, 32)], false, false, false, true, false, false)

  /** A source-checked tunnel with one host route permits exactly that host's packets. */
  lemma HostPermits(t: Tunnel, host: Addr, d: Packet)
    requires host.V4? && Prefix(host, 32).Valid() && t.checksSource && t.routes == [Prefix(host, 32)]
    ensures ValidTunnel(t) && (Permits(t, d) <==> InnerSource(d) == Some(host))
  {
    hide InnerSource;
    assert t.routes[0] == Prefix(host, 32);
    if InnerSource(d).Some? { HostContains(host, InnerSource(d).value); }
  }

  lemma HostContains(host: Addr, a: Addr)
    requires host.V4? && Prefix(host, 32).Valid()
    ensures Prefix(host, 32).Contains(a) <==> a == host
  {
    if a.V4? {
      assert Top(a, 32) == a.n && Top(host, 32) == host.n;
    }
  }

  lemma SampleSource(r: Packet)
    requires |r| >= 40 && r[0] == 0x45 && r[12] == 10 && r[13] == 0 && r[14] == 0 && r[15] == 1
    ensures InnerSource(r) == Some(SAMPLE_SOURCE)
  {
    assert BeNat(r, 12, 1) == 10 && BeNat(r, 12, 2) == 0xA00 && BeNat(r, 12, 3) == 0xA0000;
  }

  lemma HonestFrom(x: Delivery, host: Addr)
    requires host.V4? && Prefix(host, 32).Valid() && x.t.checksSource && x.t.routes == [Prefix(host, 32)]
    requires x.inner != [] && InnerSource(x.inner) == Some(host)
    ensures ValidTunnel(x.t) && Honest(x)
  {
    hide InnerSource;
    HostPermits(x.t, host, x.inner);
    PermitsIsHonest(x);
  }

  lemma SourceValid(p: Packet)
    ensures InnerSource(p).Some? && InnerSource(p).value.V4? ==> Prefix(InnerSource(p).value, 32).Valid()
  {
    AddrAtValid(p, 12, 8);
  }

  /**
   Three packets that each carry the tunnel's own address, the second a truncation of the first:
   whatever is not from that address and is the third one's payload reaches the stack as a packet.
   */
  lemma PayloadBypassesCheck(slots: seq<Slot>, payload: Packet)
    requires SlotsOk(slots) && 0 < |payload| <= 32747 && InnerSource(payload) != Some(SAMPLE_SOURCE)
    ensures var t := Trio(payload, 0x10); var out, x := [Delivery(ONE_HOST, t[0]), Delivery(ONE_HOST, t[1])], Delivery(ONE_HOST, t[2]);
      && AllHonest(out + [x]) && EveryFlowClean(Inners(out)) && ValidTunnel(x.t)
      && Plain(payload) in Emitted(slots, Inners(out + [x])) && !Enforced(slots, out, x)
  {
    hide Trio, Emitted, SlotOk, Permits, InnerSource, EveryFlowClean, Enforced, Process, Tidy, OntoEmptied, Honest;
    var t := Trio(payload, 0x10);
    var out, x := [Delivery(ONE_HOST, t[0]), Delivery(ONE_HOST, t[1])], Delivery(ONE_HOST, t[2]);
    assert Inners(out) == t[..2] && Inners(out + [x]) == t;
    AnyPayloadSurfaces(slots, payload);
    assert Emitted(slots, t)[2] == Plain(payload);
    TrioSources(payload);
    SourceValid(t[0]);
    forall i | 0 <= i < 3 ensures ValidTunnel((out + [x])[i].t) && Honest((out + [x])[i]) {
      HonestFrom((out + [x])[i], SAMPLE_SOURCE);
    }
    TrioMeetsEmptied(payload, 0x10);
    CleanIffFlowsClean(t[..2]);
    MeetsIsUnclean(t[..2], t[2]);
    TrioLast(payload, 0x10);
    NoFlags(t[2]);
    HostPermits(ONE_HOST, SAMPLE_SOURCE, payload);
    EnforcedIff(slots, out, x);
  }

  lemma MeetsIsUnclean(pkts: seq<Packet>, p: Packet)
    requires Process(pkts).clean && Tidy(Process(pkts).s.tbl) && OntoEmptied(Process(pkts).s.tbl, p)
    ensures !EveryFlowClean(pkts + [p])
  {
    hide Step, OntoEmptied, Tidy, EveryFlowClean;
    assert (pkts + [p])[..|pkts|] == pkts;
    CleanIffFlowsClean(pkts + [p]);
  }

  /**
   One client sending as another. A neighbour's packet is in the batch too, and its tunnel would permit
   what surfaces; the tunnel it came through does not, and that is what enforcement asks.
   */
  lemma NeighbourDoesNotExcuse(slots: seq<Slot>, payload: Packet)
    requires SlotsOk(slots) && 0 < |payload| <= 32747 && InnerSource(payload) == Some(NEIGHBOUR_SOURCE)
    ensures var t := Trio(payload, 0x10); var x := Delivery(ONE_HOST, t[2]);
      var out := [Delivery(NEIGHBOUR, ForeignHeader()), Delivery(ONE_HOST, t[0]), Delivery(ONE_HOST, t[1])];
      && AllHonest(out + [x]) && EveryFlowClean(Inners(out)) && ValidTunnel(x.t) && ValidTunnel(NEIGHBOUR)
      && Permits(NEIGHBOUR, payload) && !Permits(ONE_HOST, payload) && !Enforced(slots, out, x)
  {
    hide Trio, Emitted, SlotOk, Permits, InnerSource, EveryFlowClean, Enforced, Process, Tidy, OntoEmptied, Honest, ForeignHeader;
    var t := Trio(payload, 0x10);
    var x := Delivery(ONE_HOST, t[2]);
    var out := [Delivery(NEIGHBOUR, ForeignHeader()), Delivery(ONE_HOST, t[0]), Delivery(ONE_HOST, t[1])];
    assert Inners(out) == [ForeignHeader(), t[0], t[1]];
    TrioSources(payload);
    ForeignSource();
    SourceValid(t[0]);
    SourceValid(payload);
    HonestFrom(out[0], NEIGHBOUR_SOURCE);
    HonestFrom(out[1], SAMPLE_SOURCE);
    HonestFrom(out[2], SAMPLE_SOURCE);
    HonestFrom(x, SAMPLE_SOURCE);
    AfterNeighbour(payload);
    CleanIffFlowsClean(Inners(out));
    MeetsIsUnclean(Inners(out), t[2]);
    InnersOfLast(out, x);
    TrioLast(payload, 0x10);
    NoFlags(t[2]);
    HostPermits(ONE_HOST, SAMPLE_SOURCE, payload);
    HostPermits(NEIGHBOUR, NEIGHBOUR_SOURCE, payload);
    EnforcedIff(slots, out, x);
  }

  lemma AfterNeighbour(payload: Packet)
    requires 0 < |payload| <= 32747
    ensures var t := Trio(payload, 0x10); var before := [ForeignHeader(), t[0], t[1]];
      Process(before).clean && Tidy(Process(before).s.tbl) && OntoEmptied(Process(before).s.tbl, t[2])
  {
    hide Sample, CanAppend, Process, Tidy, OntoEmptied, ForeignHeader;
    var a, c := Sample(0, 0, 0x10, payload), Sample(1, |payload|, 0x10, payload);
    SampleEligible(0, 0, 0x10, payload);
    SampleEligible(1, |payload|, 0x10, payload);
    SampleContinues(payload, payload, 0x10);
    TruncatedPasses(a);
    PassThroughAfter(ForeignHeader(), a, a[..40], c);
  }

  lemma PermitsIsHonest(x: Delivery)
    requires ValidTunnel(x.t) && x.inner != [] && Permits(x.t, x.inner)
    ensures Honest(x)
  {
  }

  lemma TrioSources(payload: Packet)
    requires 0 < |payload| <= 32747
    ensures forall i :: 0 <= i < 3 ==> Trio(payload, 0x10)[i] != [] && InnerSource(Trio(payload, 0x10)[i]) == Some(SAMPLE_SOURCE)
  {
    hide Sample, InnerSource;
    var t := Trio(payload, 0x10);
    SampleOctets(0, 0, 0x10, payload);
    SampleOctets(1, |payload|, 0x10, payload);
    SampleSource(t[0]);
    SampleSource(t[1]);
    SampleSource(t[2]);
  }

  /** An IPv4 header from 10.9.9.9. */
  function ForeignHeader(): (r: Packet)
    ensures |r| == 20
  {
    seq(20, i requires 0 <= i < 20 => if i == 0 then 0x45 else if i == 12 then 10 else if 13 <= i <= 15 then 9 else 0)
  }

  lemma ForeignSource()
    ensures InnerSource(ForeignHeader()) == Some(NEIGHBOUR_SOURCE)
  {
    var d := ForeignHeader();
    assert BeNat(d, 12, 1) == 10 && BeNat(d, 12, 2) == 0xA09 && BeNat(d, 12, 3) == 0xA0909;
  }

  /** For one: a payload that is itself a header from another address. */
  lemma ForeignSourceSurfaces(slots: seq<Slot>)
    requires SlotsOk(slots)
    ensures var d := ForeignHeader(); var t := Trio(d, 0x10);
      && InnerSource(d) == Some(NEIGHBOUR_SOURCE) && Plain(d) in Emitted(slots, t)
      && forall i :: 0 <= i < 3 ==> InnerSource(t[i]) == Some(SAMPLE_SOURCE)
  {
    hide Trio, Emitted, SlotOk, InnerSource, ForeignHeader;
    ForeignSource();
    AnyPayloadSurfaces(slots, ForeignHeader());
    assert Emitted(slots, Trio(ForeignHeader(), 0x10))[2] == Plain(ForeignHeader());
    TrioSources(ForeignHeader());
  }
}
