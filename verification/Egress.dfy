/**
 The outbound packet path (dataplane/pump.go, dataplane/pump_gso_linux.go): one packet at a
 time, and one TSO super-frame's worth of segments at a time.
 */
module Egress {
  import opened Bytes
  import opened Offload
  import opened Icmp
  import opened Routes
  import opened Registry
  import opened Inbound
  import S = Shaper

  datatype Sent = Sent(to: Endpoint, datagram: Packet)

  /** What a pump holds still while it handles outbound packets, and the protocol engines it calls, whose state is E. */
  datatype Env<!E> = Env(
    mtu: int,
    cfg: S.Config,
    shaping: bool,
    encapsulate: (E, Tunnel, Packet, int) -> (E, Option<Packet>),   // the last argument is the padding floor
    enqueue: (E, Tunnel, Packet) -> (E, bool),
    peerAddr: Tunnel -> Endpoint)

  datatype Outbound<E> = Outbound(reg: Reg, drops: Drops, shaper: S.Table, engines: E, sent: seq<Sent>, replies: seq<Packet>)

  function CountTx(r: Reg, c: nat, n: nat): (r': Reg)
  {
    if c !in r.cells then r
    else
      var x := r.cells[c];
      r.(cells := r.cells[c := x.(txPackets := x.txPackets + 1, txBytes := x.txBytes + n)])
  }

  /** The padding floor encap passes on: an appending tunnel takes any target, a padding one only a positive target. */
  function Floor(t: Tunnel, target: int): (r: int) { if t.appends || (target > 0 && t.pads) then target else 0 }

  datatype Encapped<E> = Encapped(p: Outbound<E>, out: Option<Packet>)

  /** encap plus its accounting: the datagram, or a counted failure. */
  function Encap<E>(env: Env<E>, p: Outbound<E>, b: Bound, pkt: Packet, now: int): (r: Encapped<E>)
  {
    var sh := if env.shaping then S.Target(env.cfg, p.shaper, S.Call(pkt, env.mtu, now)) else S.Shaped(p.shaper, 0);
    var (engines, out) := env.encapsulate(p.engines, b.t, pkt, Floor(b.t, sh.target));
    var p1 := p.(shaper := sh.t, engines := engines);
    if out.None? then Encapped(p1.(drops := p1.drops.(encapFailed := p1.drops.encapFailed + 1)), None)
    else Encapped(p1.(reg := CountTx(p1.reg, b.c, |pkt|)), out)
  }

  /** Hand one packet to a paced tunnel. */
  function Pace<E>(env: Env<E>, p: Outbound<E>, b: Bound, pkt: Packet): (r: Outbound<E>)
  {
    var (engines, ok) := env.enqueue(p.engines, b.t, pkt);
    var p1 := p.(engines := engines);
    if ok then p1.(reg := CountTx(p1.reg, b.c, |pkt|)) else p1.(drops := p1.drops.(pacerFull := p1.drops.pacerFull + 1))
  }

  /** The end of routeOutbound: pace, or encapsulate and send at once. */
  function HandOver<E>(env: Env<E>, p: Outbound<E>, b: Bound, pkt: Packet, now: int): (r: Outbound<E>)
  {
    if b.t.paced then Pace(env, p, b, pkt)
    else
      var x := Encap(env, p, b, pkt, now);
      if x.out.None? then x.p else x.p.(sent := x.p.sent + [Sent(env.peerAddr(b.t), x.out.value)])
  }

  predicate TooBig<E>(env: Env<E>, pkt: Packet) { env.mtu > 0 && NeedsFragmentation(pkt, env.mtu) }

  /** The ICMP answers one refused packet provokes. */
  function Reply<E>(env: Env<E>, pkt: Packet): (r: seq<Packet>)
  {
    if env.mtu <= 0 then []
    else match FragNeeded(pkt, env.mtu) case None => [] case Some(x) => [x]
  }

  function RouteOutbound<E>(env: Env<E>, p: Outbound<E>, pkt: Packet, now: int): (r: Outbound<E>)
  {
    var dst := InnerDest(pkt);
    if dst.None? then p.(drops := p.drops.(notIP := p.drops.notIP + 1))
    else
      var b := Lookup(p.reg.routes, dst.value);
      if b.None? then p.(drops := p.drops.(noRoute := p.drops.noRoute + 1))
      else if TooBig(env, pkt) then
        p.(drops := p.drops.(tooBig := p.drops.tooBig + 1), replies := p.replies + Reply(env, pkt))
      else HandOver(env, p, b.value, pkt, now)
  }

  /** The reference: routeOutbound on each packet in turn, packet i at time nows[i]. */
  function RouteEach<E>(env: Env<E>, p: Outbound<E>, pkts: seq<Packet>, nows: seq<int>): (r: Outbound<E>)
    requires |nows| >= |pkts|
  {
    if pkts == [] then p
    else
      var n := |pkts| - 1;
      RouteOutbound(env, RouteEach(env, p, pkts[..n], nows), pkts[n], nows[n])
  }

  // ---------- sendSegments ----------

  function PaceEach<E>(env: Env<E>, p: Outbound<E>, b: Bound, segs: seq<Packet>): (r: Outbound<E>)
  {
    if segs == [] then p else Pace(env, PaceEach(env, p, b, segs[..|segs| - 1]), b, segs[|segs| - 1])
  }

  datatype Burst<E> = Burst(p: Outbound<E>, outs: seq<Packet>)

  /** Encapsulate the whole burst before anything is sent. */
  function EncapEach<E>(env: Env<E>, p: Outbound<E>, b: Bound, segs: seq<Packet>, nows: seq<int>): (r: Burst<E>)
    requires |nows| >= |segs|
  {
    if segs == [] then Burst(p, [])
    else
      var n := |segs| - 1;
      var before := EncapEach(env, p, b, segs[..n], nows);
      var x := Encap(env, before.p, b, segs[n], nows[n]);
      Burst(x.p, before.outs + (match x.out case None => [] case Some(d) => [d]))
  }

  function SendAll(sent: seq<Sent>, to: Endpoint, outs: seq<Packet>): (r: seq<Sent>)
  {
    sent + seq(|outs|, i requires 0 <= i < |outs| => Sent(to, outs[i]))
  }

  function SendSegments<E>(env: Env<E>, p: Outbound<E>, segs: seq<Packet>, nows: seq<int>): (r: Outbound<E>)
    requires 0 < |segs| <= |nows|
  {
    var dst := InnerDest(segs[0]);
    if dst.None? then p.(drops := p.drops.(notIP := p.drops.notIP + 1))
    else
      var b := Lookup(p.reg.routes, dst.value);
      if b.None? then p.(drops := p.drops.(noRoute := p.drops.noRoute + 1))
      else if TooBig(env, segs[0]) then
        p.(drops := p.drops.(tooBig := p.drops.tooBig + |segs|), replies := p.replies + Reply(env, segs[0]))
      else if b.value.t.paced then PaceEach(env, p, b.value, segs)
      else
        var x := EncapEach(env, p, b.value, segs, nows);
        x.p.(sent := SendAll(x.p.sent, env.peerAddr(b.value.t), x.outs))
  }

  // ---------- one super-frame's segments ----------

  /** Segments of one super-frame: one destination, an IPv4 header each, none longer than the first. */
  predicate Alike(segs: seq<Packet>)
  {
    forall i :: 0 <= i < |segs| ==>
      && QuotableV4(segs[i]) && InnerDest(segs[i]) == InnerDest(segs[0]) && InnerDest(segs[0]).Some?
      && |segs[i]| <= |segs[0]| && segs[i][6] == segs[0][6]
  }

  /** Everything segmentTSO4 produces is alike. */
  lemma CutIsAlike(pkt: Packet, gso: nat)
    requires SegmentTSO4Spec(pkt, gso).Segmented?
    ensures SegmentTSO4Spec(pkt, gso).segs != [] && Alike(SegmentTSO4Spec(pkt, gso).segs)
  {
    hide Segment, SegmentCount, InnerDest;
    var l := LayoutOf(pkt, gso);
    var segs := Cut(pkt, l.ihl, l.thl, gso);
    SegmentCountPositive(|pkt| - l.ihl - l.thl, gso);
    SegmentHeader(pkt, l.ihl, l.thl, gso, 0);
    forall i | 0 <= i < |segs|
      ensures QuotableV4(segs[i]) && InnerDest(segs[i]) == InnerDest(segs[0]) && InnerDest(segs[0]).Some?
      ensures |segs[i]| <= |segs[0]| && segs[i][6] == segs[0][6]
    {
      SegmentHeader(pkt, l.ihl, l.thl, gso, i);
      SameDest(segs[i], segs[0]);
    }
  }

  lemma SegmentHeader(pkt: Packet, ihl: nat, thl: nat, gso: nat, i: nat)
    requires LayoutOf(pkt, gso) == Frame(ihl, thl) && i < SegmentCount(|pkt| - ihl - thl, gso)
    ensures var s := Segment(pkt, ihl, thl, gso, i);
      && QuotableV4(s) && |s| >= 40 && s[0] == pkt[0] && s[6] == pkt[6] && s[16..20] == pkt[16..20]
      && |s| == ihl + thl + Min(gso, |pkt| - ihl - thl - Offset(i, gso))
      && Offset(0, gso) == 0
  {
    hide Segment, SegmentCount, IpChecksumOK, TcpChecksumOK, ClearFinPsh, Be16, Be32, Low16, Low32;
    SegmentFields(pkt, ihl, thl, gso, i);
    OffsetZero(gso);
    var s := Segment(pkt, ihl, thl, gso, i);
    assert forall k :: 16 <= k < 20 ==> !FixedUp(k, ihl);
  }

  lemma SameDest(a: Packet, b: Packet)
    requires |a| >= 40 && |b| >= 40 && a[0] == b[0] && a[0] / 16 == 4 && a[16..20] == b[16..20]
    ensures InnerDest(a) == InnerDest(b) && InnerDest(b).Some?
  {
    forall i | 16 <= i < 20 ensures a[i] == b[i] { assert a[i] == a[16..20][i - 16]; }
    BeNatSame(a, b, 16, 4);
  }

  // ---------- the burst is the packets ----------

  function HandEach<E>(env: Env<E>, p: Outbound<E>, b: Bound, segs: seq<Packet>, nows: seq<int>): (r: Outbound<E>)
    requires |nows| >= |segs|
  {
    if segs == [] then p
    else
      var n := |segs| - 1;
      HandOver(env, HandEach(env, p, b, segs[..n], nows), b, segs[n], nows[n])
  }

  lemma EncapIgnoresSent<E>(env: Env<E>, p: Outbound<E>, b: Bound, pkt: Packet, now: int, sent: seq<Sent>)
    ensures var x := Encap(env, p, b, pkt, now);
      Encap(env, p.(sent := sent), b, pkt, now) == Encapped(x.p.(sent := sent), x.out)
    ensures Encap(env, p, b, pkt, now).p.sent == p.sent
  {
  }

  /** Sending after the whole burst is encapsulated puts the same datagrams on the wire, in the same order, from the same state. */
  lemma {:induction false} BurstIsEach<E>(env: Env<E>, p: Outbound<E>, b: Bound, segs: seq<Packet>, nows: seq<int>)
    requires |nows| >= |segs|
    ensures var x := EncapEach(env, p, b, segs, nows);
      x.p.sent == p.sent &&
      if b.t.paced then HandEach(env, p, b, segs, nows) == PaceEach(env, p, b, segs)
      else HandEach(env, p, b, segs, nows) == x.p.(sent := SendAll(x.p.sent, env.peerAddr(b.t), x.outs))
    decreases |segs|
  {
    hide Encap, Pace;
    if segs != [] {
      var n := |segs| - 1;
      BurstIsEach(env, p, b, segs[..n], nows);
      var before := EncapEach(env, p, b, segs[..n], nows);
      EncapIgnoresSent(env, before.p, b, segs[n], nows[n], SendAll(p.sent, env.peerAddr(b.t), before.outs));
      EncapIgnoresSent(env, before.p, b, segs[n], nows[n], before.p.sent);
    } else {
      assert SendAll(p.sent, env.peerAddr(b.t), []) == p.sent;
    }
  }

  lemma HandOverFrame<E>(env: Env<E>, p: Outbound<E>, b: Bound, pkt: Packet, now: int)
    ensures var r := HandOver(env, p, b, pkt, now);
      && OnlyCells(r.reg, p.reg) && r.replies == p.replies
      && r.drops.(encapFailed := 0, pacerFull := 0) == p.drops.(encapFailed := 0, pacerFull := 0)
  {
  }

  /** How many of the segments are over the mtu. */
  function BigOnes<E>(env: Env<E>, segs: seq<Packet>): (n: nat)
    ensures n <= |segs|
  {
    if segs == [] then 0
    else BigOnes(env, segs[..|segs| - 1]) + (if TooBig(env, segs[|segs| - 1]) then 1 else 0)
  }

  /** One answer for each of those, in order, quoting it. */
  function Replies<E>(env: Env<E>, segs: seq<Packet>): (r: seq<Packet>)
  {
    if segs == [] then []
    else
      var last := segs[|segs| - 1];
      Replies(env, segs[..|segs| - 1]) + (if TooBig(env, last) then Reply(env, last) else [])
  }

  lemma {:induction false} RepliesCount<E>(env: Env<E>, segs: seq<Packet>)
    requires forall i :: 0 <= i < |segs| ==> QuotableV4(segs[i])
    ensures |Replies(env, segs)| == BigOnes(env, segs)
    decreases |segs|
  {
    hide TooBig, Reply;
    if segs != [] {
      RepliesCount(env, segs[..|segs| - 1]);
      ReplyIsOne(env, segs[|segs| - 1]);
    }
  }

  /** What the reference does to tables, replies and the three routing drops. */
  lemma {:induction false} RouteEachEffects<E>(env: Env<E>, p: Outbound<E>, segs: seq<Packet>, nows: seq<int>, m: nat)
    requires |nows| >= |segs| && m <= |segs| && Alike(segs)
    ensures var r := RouteEach(env, p, segs[..m], nows);
      && OnlyCells(r.reg, p.reg) && r.drops.notIP == p.drops.notIP
      && (m > 0 && Lookup(p.reg.routes, InnerDest(segs[0]).value).None? ==> r == p.(drops := p.drops.(noRoute := p.drops.noRoute + m)))
      && (m > 0 && Lookup(p.reg.routes, InnerDest(segs[0]).value).Some? ==>
            && r.drops.noRoute == p.drops.noRoute
            && r.drops.tooBig == p.drops.tooBig + BigOnes(env, segs[..m])
            && r.replies == p.replies + Replies(env, segs[..m]))
    decreases m
  {
    hide HandOver, Lookup, InnerDest, TooBig, Reply;
    if m > 0 {
      RouteEachEffects(env, p, segs, nows, m - 1);
      assert segs[..m][..m - 1] == segs[..m - 1];
      var before := RouteEach(env, p, segs[..m - 1], nows);
      var dst := InnerDest(segs[m - 1]).value;
      ReplyIsOne(env, segs[m - 1]);
      if Lookup(p.reg.routes, dst).Some? {
        HandOverFrame(env, before, Lookup(p.reg.routes, dst).value, segs[m - 1], nows[m - 1]);
      }
    }
  }

  lemma ReplyIsOne<E>(env: Env<E>, pkt: Packet)
    requires QuotableV4(pkt)
    ensures TooBig(env, pkt) ==> |Reply(env, pkt)| == 1
  {
  }

  /** With a route and a first segment that fits, the reference hands every segment over. */
  lemma {:induction false} RouteEachHands<E>(env: Env<E>, p: Outbound<E>, segs: seq<Packet>, nows: seq<int>, m: nat)
    requires |nows| >= |segs| && m <= |segs| && segs != [] && Alike(segs) && !TooBig(env, segs[0])
    requires Lookup(p.reg.routes, InnerDest(segs[0]).value).Some?
    ensures RouteEach(env, p, segs[..m], nows) == HandEach(env, p, Lookup(p.reg.routes, InnerDest(segs[0]).value).value, segs[..m], nows)
    decreases m
  {
    hide HandOver, Lookup, InnerDest, TooBig, Reply;
    if m > 0 {
      RouteEachHands(env, p, segs, nows, m - 1);
      RouteEachEffects(env, p, segs, nows, m - 1);
      assert segs[..m][..m - 1] == segs[..m - 1];
      SmallerFits(env, segs[0], segs[m - 1]);
    }
  }

  lemma SmallerFits<E>(env: Env<E>, a: Packet, b: Packet)
    requires QuotableV4(a) && QuotableV4(b) && |b| <= |a| && a[6] == b[6] && !TooBig(env, a)
    ensures !TooBig(env, b)
  {
  }

  /** The guard under which one lookup and one MTU test answer for the whole super-frame. */
  predicate OneAnswerForAll<E>(env: Env<E>, p: Outbound<E>, segs: seq<Packet>)
    requires segs != [] && Alike(segs)
  {
    |segs| == 1 || (Lookup(p.reg.routes, InnerDest(segs[0]).value).Some? && !TooBig(env, segs[0]))
  }

  /**
   GSO egress is packet-at-a-time egress, exactly when the super-frame is one segment or its
   destination has a route and its first segment fits: same datagrams in the same order to the
   same peer, same counters, drops, replies and shaper state.
   */
  lemma SegmentsRefinePackets<E>(env: Env<E>, p: Outbound<E>, segs: seq<Packet>, nows: seq<int>)
    requires 0 < |segs| <= |nows| && Alike(segs)
    ensures SendSegments(env, p, segs, nows) == RouteEach(env, p, segs, nows) <==> OneAnswerForAll(env, p, segs)
  {
    hide HandOver, Lookup, InnerDest, TooBig, Reply, EncapEach, PaceEach, RouteEach;
    var n := |segs|;
    assert segs[..n] == segs;
    var b := Lookup(p.reg.routes, InnerDest(segs[0]).value);
    if b.Some? && !TooBig(env, segs[0]) {
      RouteEachHands(env, p, segs, nows, n);
      BurstIsEach(env, p, b.value, segs, nows);
    } else if n == 1 {
      OneSegment(env, p, segs[0], nows);
      assert segs == [segs[0]];
    } else {
      AnswersDiffer(env, p, segs, nows);
    }
  }

  /** Two or more refused segments: one drop or one reply for all is not one for each. */
  lemma AnswersDiffer<E>(env: Env<E>, p: Outbound<E>, segs: seq<Packet>, nows: seq<int>)
    requires 1 < |segs| <= |nows| && Alike(segs)
    requires Lookup(p.reg.routes, InnerDest(segs[0]).value).None? || TooBig(env, segs[0])
    ensures SendSegments(env, p, segs, nows) != RouteEach(env, p, segs, nows)
  {
    hide HandOver, Lookup, InnerDest, TooBig, Reply, EncapEach, PaceEach, RouteEach, BigOnes, Replies;
    assert segs[..|segs|] == segs;
    RouteEachEffects(env, p, segs, nows, |segs|);
    RepliesCount(env, segs);
    ReplyIsOne(env, segs[0]);
  }

  lemma OneSegment<E>(env: Env<E>, p: Outbound<E>, seg: Packet, nows: seq<int>)
    requires 0 < |nows| && InnerDest(seg).Some?
    requires Lookup(p.reg.routes, InnerDest(seg).value).None? || TooBig(env, seg)
    ensures SendSegments(env, p, [seg], nows) == RouteEach(env, p, [seg], nows)
  {
    hide HandOver, Lookup, InnerDest, TooBig, Reply;
    assert [seg][..0] == [];
  }

  // ---------- the vnet read loop ----------

  /** One turn of runVnet: what a TUN read of buf does; nows are the clock readings its packets see. */
  function VnetRead<E>(env: Env<E>, p: Outbound<E>, buf: Packet, nows: seq<int>): (r: Outbound<E>)
    requires |nows| >= MAX_TSO_SEGMENTS
  {
    if |buf| < VNET_HDR_LEN then p
    else
      var hdr, pkt := ParseHdr(buf), buf[VNET_HDR_LEN..];
      if hdr.gsoType == VNET_GSO_NONE then
        var whole := if hdr.flags % 2 == 1 then Completed(pkt, hdr.csumStart, hdr.csumOffset) else pkt;
        RouteOutbound(env, p, whole, nows[0])
      else if hdr.gsoType == VNET_GSO_TCPV4 then
        match SegmentTSO4Spec(pkt, hdr.gsoSize)
        case Rejected(_) => p
        case Segmented(segs) =>  // never empty and never over 256: VnetReadIsPackets
          if segs == [] || |segs| > |nows| then p else SendSegments(env, p, segs, nows)
      else p
  }

  /** runVnet over the reads it gets before the TUN closes. */
  function VnetRun<E>(env: Env<E>, p: Outbound<E>, bufs: seq<Packet>, clocks: seq<seq<int>>): (r: Outbound<E>)
    requires |clocks| >= |bufs| && forall i :: 0 <= i < |bufs| ==> |clocks[i]| >= MAX_TSO_SEGMENTS
    decreases |bufs|
  {
    if bufs == [] then p
    else
      var n := |bufs| - 1;
      VnetRead(env, VnetRun(env, p, bufs[..n], clocks), bufs[n], clocks[n])
  }

  /** A super-frame read whole is its segments routed one by one, exactly under the guard above. */
  lemma VnetReadIsPackets<E>(env: Env<E>, p: Outbound<E>, hdr: VirtioNetHdr, pkt: Packet, nows: seq<int>)
    requires |nows| >= MAX_TSO_SEGMENTS && hdr.gsoType == VNET_GSO_TCPV4 && SegmentTSO4Spec(pkt, hdr.gsoSize).Segmented?
    ensures var segs := SegmentTSO4Spec(pkt, hdr.gsoSize).segs;
      && 0 < |segs| <= MAX_TSO_SEGMENTS && Alike(segs)
      && (VnetRead(env, p, EncodeHdr(hdr) + pkt, nows) == RouteEach(env, p, segs, nows) <==> OneAnswerForAll(env, p, segs))
  {
    hide SendSegments, RouteEach, Alike, EncodeHdr, ParseHdr, Segment, RouteOutbound, Completed;
    var buf := EncodeHdr(hdr) + pkt;
    CutIsAlike(pkt, hdr.gsoSize);
    assert buf[VNET_HDR_LEN..] == pkt;
    HdrRoundTrip(hdr, EncodeHdr(hdr));
    ParsePrefix(EncodeHdr(hdr), pkt);
    SegmentsRefinePackets(env, p, SegmentTSO4Spec(pkt, hdr.gsoSize).segs, nows);
  }

  lemma ParsePrefix(h: Packet, rest: Packet)
    requires |h| == VNET_HDR_LEN
    ensures ParseHdr(h + rest) == ParseHdr(h)
  {
  }

  // ---------- conservation ----------

  ghost function TxAccounted<E>(p: Outbound<E>): (n: nat)
    requires BlocksDistinct(p.reg)
  {
    Total(p.reg).txPackets + TxDrops(p.drops)
  }

  /** One packet is accounted for, unless it was counted on a block nobody sums any more. */
  lemma CountTxMoves(r: Reg, c: nat, n: nat)
    requires BlocksDistinct(r)
    ensures BlocksDistinct(CountTx(r, c, n)) && AtLeast(Total(CountTx(r, c, n)), Total(r))
    ensures Total(CountTx(r, c, n)).txPackets + (if Live(r, c) then 0 else 1) == Total(r).txPackets + 1
    ensures Total(CountTx(r, c, n)).rxPackets == Total(r).rxPackets
  {
    hide LiveSum;
    if c in r.cells {
      var x := r.cells[c];
      var rest := BlockMoves(r, c, x.(txPackets := x.txPackets + 1, txBytes := x.txBytes + n));
    }
  }

  lemma LookupIsRegistered(r: Reg, a: Addr)
    requires RegInv(r) && a.Valid()
    ensures Lookup(r.routes, a).Some? ==> Registered(r, Lookup(r.routes, a).value)
  {
    hide Get, Shr, Shl, Bit, Listed, Registered;
    var path := Path(a, a.Width());
    WalkIsBest(Root(r.routes, a), path, None);
    if Lookup(r.routes, a).Some? {
      var k :| 0 <= k <= |path| && Get(Root(r.routes, a), path[..k]).Some? && Lookup(r.routes, a) == Get(Root(r.routes, a), path[..k]);
      assert path[..k] == Path(a, k);
      var q := Prefix(a, k);
      assert q.Valid() && Entry(r.routes, q) == Lookup(r.routes, a);
    }
  }

  /** The engines take the packet: it is encapsulated, or the pacer has room. */
  predicate Accepted<E>(env: Env<E>, p: Outbound<E>, b: Bound, pkt: Packet, now: int)
  {
    if b.t.paced then env.enqueue(p.engines, b.t, pkt).1 else Encap(env, p, b, pkt, now).out.Some?
  }

  /** 1 when the packet is sent and then counted on a block its tunnel no longer has. */
  ghost function TxLost<E>(env: Env<E>, p: Outbound<E>, pkt: Packet, now: int): (n: nat)
  {
    var dst := InnerDest(pkt);
    if dst.None? || Lookup(p.reg.routes, dst.value).None? || TooBig(env, pkt) then 0
    else
      var b := Lookup(p.reg.routes, dst.value).value;
      if Accepted(env, p, b, pkt, now) && !Live(p.reg, b.c) then 1 else 0
  }

  /**
   Every packet offered for egress is counted as sent or dropped for one reason, except exactly
   those lost that way; the routes p holds may be any snapshot, however old.
   */
  lemma OutboundConserves<E>(env: Env<E>, p: Outbound<E>, pkt: Packet, now: int)
    requires BlocksDistinct(p.reg)
    ensures var r := RouteOutbound(env, p, pkt, now);
      && BlocksDistinct(r.reg) && OnlyCells(r.reg, p.reg) && AtLeast(Total(r.reg), Total(p.reg))
      && TxAccounted(r) + TxLost(env, p, pkt, now) == TxAccounted(p) + 1
      && Total(r.reg).rxPackets == Total(p.reg).rxPackets && RxDrops(r.drops) == RxDrops(p.drops)
  {
    hide Lookup, InnerDest, TooBig, Reply, Total, BlocksDistinct, Live;
    var dst := InnerDest(pkt);
    if dst.Some? && Lookup(p.reg.routes, dst.value).Some? && !TooBig(env, pkt) {
      HandOverCounts(env, p, Lookup(p.reg.routes, dst.value).value, pkt, now);
    }
  }

  lemma HandOverCounts<E>(env: Env<E>, p: Outbound<E>, b: Bound, pkt: Packet, now: int)
    requires BlocksDistinct(p.reg)
    ensures var r := HandOver(env, p, b, pkt, now);
      && BlocksDistinct(r.reg) && OnlyCells(r.reg, p.reg) && AtLeast(Total(r.reg), Total(p.reg))
      && TxAccounted(r) + (if Accepted(env, p, b, pkt, now) && !Live(p.reg, b.c) then 1 else 0) == TxAccounted(p) + 1
      && Total(r.reg).rxPackets == Total(p.reg).rxPackets && RxDrops(r.drops) == RxDrops(p.drops)
  {
    hide Total, BlocksDistinct, Live, S.Target;
    CountTxMoves(p.reg, b.c, |pkt|);
  }

  /** Routed by the registrations of the moment, nothing is lost. */
  lemma FreshSendLosesNothing<E>(env: Env<E>, p: Outbound<E>, pkt: Packet, now: int)
    requires RegInv(p.reg)
    ensures TxLost(env, p, pkt, now) == 0
  {
    hide Lookup, InnerDest, TooBig, Accepted, RegInv;
    DestValid(pkt);
    var dst := InnerDest(pkt);
    if dst.Some? && Lookup(p.reg.routes, dst.value).Some? {
      LookupIsRegistered(p.reg, dst.value);
    }
  }

  lemma DestValid(pkt: Packet)
    ensures InnerDest(pkt).Some? ==> InnerDest(pkt).value.Valid()
  {
    AddrAtValid(pkt, 16, 24);
  }

  // ---------- the burst buffers ----------

  /** Where an encapsulated datagram lives until the flush: in a reused burst slot, or in a buffer of its own. */
  datatype OutRef = InSlot(i: nat) | Owned(datagram: Packet)

  predicate RefOk(slots: seq<Packet>, o: OutRef) { o.InSlot? ==> o.i < |slots| }

  function Deref(slots: seq<Packet>, o: OutRef): (d: Packet)
    requires RefOk(slots, o)
  {
    match o case InSlot(i) => slots[i] case Owned(d) => d
  }

  /** The references read out the datagrams, in order. */
  predicate Reads(slots: seq<Packet>, outs: seq<OutRef>, datagrams: seq<Packet>)
  {
    |outs| == |datagrams| && forall j :: 0 <= j < |outs| ==> RefOk(slots, outs[j]) && Deref(slots, outs[j]) == datagrams[j]
  }

  /** Filling slot i disturbs nothing handed out in earlier slots. */
  lemma ReadsKept(a: seq<Packet>, b: seq<Packet>, outs: seq<OutRef>, datagrams: seq<Packet>, i: nat)
    requires Reads(a, outs, datagrams) && |a| <= |b|
    requires forall j :: 0 <= j < |outs| ==> (outs[j].InSlot? ==> outs[j].i < i)
    requires forall k :: 0 <= k < |a| && k < i ==> b[k] == a[k]
    ensures Reads(b, outs, datagrams)
  {
  }

  /** The TUN reader's side of the pump, with the burst slots an appending tunnel builds its datagrams in. */
  class EgressPump<E> {
    var reg: Reg
    var drops: Drops
    var shaper: S.Table
    var engines: E
    var sent: seq<Sent>
    var replies: seq<Packet>
    var burst: seq<Packet>

    constructor (p: Outbound<E>)
      ensures Value() == p && burst == []
    {
      reg, drops, shaper, engines, sent, replies := p.reg, p.drops, p.shaper, p.engines, p.sent, p.replies;
      burst := [];
    }

    function Value(): (p: Outbound<E>)
      reads this
    {
      Outbound(reg, drops, shaper, engines, sent, replies)
    }

    /** burstBuf: make sure slot i exists; slots already handed out keep their contents. */
    method BurstBuf(i: nat)
      modifies this`burst
      ensures |burst| > i && old(burst) <= burst
    {
      while |burst| <= i
        invariant old(burst) <= burst
        decreases i - |burst|
      {
        burst := burst + [[]];
      }
    }

    /** encap into slot i; only that slot's contents change. */
    method EncapInto(env: Env<E>, b: Bound, pkt: Packet, now: int, i: nat) returns (out: Option<OutRef>)
      requires i < |burst|
      modifies this
      ensures |burst| == |old(burst)| && forall k :: 0 <= k < |burst| && k != i ==> burst[k] == old(burst)[k]
      ensures var x := Encap(env, old(Value()), b, pkt, now);
        Value() == x.p && out.Some? == x.out.Some? && (out.Some? ==> RefOk(burst, out.value) && Deref(burst, out.value) == x.out.value)
        && (out.Some? && out.value.InSlot? ==> out.value.i == i)
    {
      hide S.Target;
      var target := 0;
      if env.shaping {
        var sh := S.Target(env.cfg, shaper, S.Call(pkt, env.mtu, now));
        shaper, target := sh.t, sh.target;
      }
      var (engines', d) := env.encapsulate(engines, b.t, pkt, Floor(b.t, target));
      engines := engines';
      if d.None? {
        drops := drops.(encapFailed := drops.encapFailed + 1);
        return None;
      }
      if b.t.appends {
        burst := burst[i := d.value];
        out := Some(InSlot(i));
      } else {
        out := Some(Owned(d.value));
      }
      reg := CountTx(reg, b.c, |pkt|);
    }

    method PaceOne(env: Env<E>, b: Bound, pkt: Packet)
      modifies this
      ensures Value() == Pace(env, old(Value()), b, pkt)
    {
      var (engines', ok) := env.enqueue(engines, b.t, pkt);
      engines := engines';
      if !ok {
        drops := drops.(pacerFull := drops.pacerFull + 1);
        return;
      }
      reg := CountTx(reg, b.c, |pkt|);
    }

    /** The burst loop: every datagram stays readable where its encapsulation put it. */
    method EncapBurst(env: Env<E>, b: Bound, segs: seq<Packet>, nows: seq<int>) returns (outs: seq<OutRef>)
      requires |nows| >= |segs|
      modifies this
      ensures var x := EncapEach(env, old(Value()), b, segs, nows); Value() == x.p && Reads(burst, outs, x.outs)
    {
      hide Encap;
      outs := [];
      var i := 0;
      while i < |segs|
        invariant 0 <= i <= |segs|
        invariant forall j :: 0 <= j < |outs| ==> (outs[j].InSlot? ==> outs[j].i < i)
        invariant var x := EncapEach(env, old(Value()), b, segs[..i], nows); Value() == x.p && Reads(burst, outs, x.outs)
      {
        assert segs[..i + 1][..i] == segs[..i];
        ghost var before := EncapEach(env, old(Value()), b, segs[..i], nows);
        ghost var slots := burst;
        BurstBuf(i);
        var o := EncapInto(env, b, segs[i], nows[i], i);
        ReadsKept(slots, burst, outs, before.outs, i);
        if o.Some? {
          outs := outs + [o.value];
        }
        i := i + 1;
      }
      assert segs[..i] == segs;
    }

    /** The burst and its flush: what is read out of the slots at the end is what each encap put there. */
    method SendBurst(env: Env<E>, b: Bound, segs: seq<Packet>, nows: seq<int>)
      requires |nows| >= |segs|
      modifies this
      ensures var x := EncapEach(env, old(Value()), b, segs, nows);
        Value() == x.p.(sent := SendAll(x.p.sent, env.peerAddr(b.t), x.outs))
    {
      hide EncapEach;
      ghost var x := EncapEach(env, Value(), b, segs, nows);
      var outs := EncapBurst(env, b, segs, nows);
      var j := 0;
      while j < |outs|
        invariant 0 <= j <= |outs| && Reads(burst, outs, x.outs)
        invariant Value() == x.p.(sent := SendAll(x.p.sent, env.peerAddr(b.t), x.outs[..j]))
      {
        sent := sent + [Sent(env.peerAddr(b.t), Deref(burst, outs[j]))];
        j := j + 1;
      }
      assert x.outs[..j] == x.outs;
    }

    method SendICMP(env: Env<E>, pkt: Packet)
      requires env.mtu > 0
      modifies this`replies
      ensures replies == old(replies) + Reply(env, pkt)
    {
      var reply := FragNeeded(pkt, env.mtu);
      if reply.Some? {
        replies := replies + [reply.value];
      }
    }

    /** sendSegments. */
    method SendSuperFrame(env: Env<E>, segs: seq<Packet>, nows: seq<int>)
      requires 0 < |segs| <= |nows|
      modifies this
      ensures Value() == SendSegments(env, old(Value()), segs, nows)
    {
      hide EncapEach, Pace, Lookup, InnerDest, NeedsFragmentation, Reply;
      var dst := InnerDest(segs[0]);
      if dst.None? {
        drops := drops.(notIP := drops.notIP + 1);
        return;
      }
      var b := Lookup(reg.routes, dst.value);
      if b.None? {
        drops := drops.(noRoute := drops.noRoute + 1);
        return;
      }
      if env.mtu > 0 && NeedsFragmentation(segs[0], env.mtu) {
        drops := drops.(tooBig := drops.tooBig + |segs|);
        SendICMP(env, segs[0]);
        return;
      }
      if b.value.t.paced {
        var i := 0;
        while i < |segs|
          invariant 0 <= i <= |segs| && Value() == PaceEach(env, old(Value()), b.value, segs[..i])
        {
          assert segs[..i + 1][..i] == segs[..i];
          PaceOne(env, b.value, segs[i]);
          i := i + 1;
        }
        assert segs[..i] == segs;
        return;
      }
      SendBurst(env, b.value, segs, nows);
    }

    /** routeOutbound; its one output buffer is sent before it is reused, so slot 0 stands in for it. */
    method RouteOne(env: Env<E>, pkt: Packet, now: int)
      modifies this
      ensures Value() == RouteOutbound(env, old(Value()), pkt, now)
    {
      hide Encap, Pace, Lookup, InnerDest, NeedsFragmentation, Reply;
      var dst := InnerDest(pkt);
      if dst.None? {
        drops := drops.(notIP := drops.notIP + 1);
        return;
      }
      var b := Lookup(reg.routes, dst.value);
      if b.None? {
        drops := drops.(noRoute := drops.noRoute + 1);
        return;
      }
      if env.mtu > 0 && NeedsFragmentation(pkt, env.mtu) {
        drops := drops.(tooBig := drops.tooBig + 1);
        SendICMP(env, pkt);
        return;
      }
      if b.value.t.paced {
        PaceOne(env, b.value, pkt);
        return;
      }
      BurstBuf(0);
      EncapIgnoresSent(env, Value(), b.value, pkt, now, sent);
      var out := EncapInto(env, b.value, pkt, now, 0);
      if out.Some? {
        sent := sent + [Sent(env.peerAddr(b.value.t), Deref(burst, out.value))];
      }
    }

    /** One turn of runVnet's loop, on what one TUN read left in its buffer. */
    method TakeRead(env: Env<E>, buf: Packet, nows: seq<int>)
      requires |nows| >= MAX_TSO_SEGMENTS && |buf| <= VNET_HDR_LEN + 65535
      modifies this
      ensures Value() == VnetRead(env, old(Value()), buf, nows)
    {
      hide SegmentTSO4Spec, SendSegments, RouteOutbound, Completed, ParseHdr;
      if |buf| < VNET_HDR_LEN {
        return;
      }
      var hdr, pkt := ParseHdr(buf), buf[VNET_HDR_LEN..];
      if hdr.gsoType == VNET_GSO_NONE {
        if hdr.flags % 2 == 1 {
          var a := new byte[|pkt|](i requires 0 <= i < |pkt| => pkt[i]);
          assert a[..] == pkt;
          CompletePartialChecksum(a, hdr.csumStart, hdr.csumOffset);
          pkt := a[..];
        }
        RouteOne(env, pkt, nows[0]);
      } else if hdr.gsoType == VNET_GSO_TCPV4 {
        var r := SegmentTSO4(pkt, hdr);
        if r.Segmented? && 0 < |r.segs| <= |nows| {
          SendSuperFrame(env, r.segs, nows);
        }
      }
    }

    method RunVnet(env: Env<E>, bufs: seq<Packet>, clocks: seq<seq<int>>)
      requires |clocks| >= |bufs| && forall i :: 0 <= i < |bufs| ==> |clocks[i]| >= MAX_TSO_SEGMENTS
      requires forall i :: 0 <= i < |bufs| ==> |bufs[i]| <= VNET_HDR_LEN + 65535
      modifies this
      ensures Value() == VnetRun(env, old(Value()), bufs, clocks)
    {
      hide VnetRead;
      for i := 0 to |bufs|
        invariant Value() == VnetRun(env, old(Value()), bufs[..i], clocks)
      {
        assert bufs[..i + 1][..i] == bufs[..i];
        TakeRead(env, bufs[i], clocks[i]);
      }
      assert bufs[..|bufs|] == bufs;
    }
  }
}
