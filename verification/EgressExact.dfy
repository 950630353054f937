/**
 What the outbound path puts on the wire (dataplane/pump.go, dataplane/pump_gso_linux.go): for each packet
 the datagram its tunnel's engine made of it, and for each TUN read the packets it stands for.
 */
module EgressExact {
  import opened Bytes
  import opened Offload
  import opened OffloadExact
  import opened Icmp
  import opened Routes
  import opened Registry
  import opened Inbound
  import opened InboundExact
  import opened Egress
  import S = Shaper

  // ---------- one packet ----------

  /** The packet's destination is routed to b and the packet fits. */
  predicate Goes<E>(env: Env<E>, p: Outbound<E>, pkt: Packet, b: Bound)
  {
    && InnerDest(pkt).Some? && Lookup(p.reg.routes, InnerDest(pkt).value) == Some(b)
    && !(env.mtu > 0 && NeedsFragmentation(pkt, env.mtu))
  }

  /** The shaper's say about a packet; without a shaper the target is 0. */
  function Aim<E>(env: Env<E>, t: S.Table, pkt: Packet, now: int): (r: S.Shaped<S.Table>)
  {
    if env.shaping then S.Target(env.cfg, t, S.Call(pkt, env.mtu, now)) else S.Shaped(t, 0)
  }

  /** What the engine makes of a packet: the target is passed on to every tunnel that can pad and to no other. */
  function Engine<E>(env: Env<E>, e: E, t: Tunnel, pkt: Packet, target: int): (r: (E, Option<Packet>))
  {
    env.encapsulate(e, t, pkt, if t.appends || t.pads then target else 0)
  }

  /** A block that has transmitted qs. */
  function Transmitted(x: Counters, qs: seq<Packet>): (r: Counters)
  {
    x.(txPackets := x.txPackets + |qs|, txBytes := x.txBytes + OctetCount(qs))
  }

  function OnTxBlock(r: Reg, c: nat, qs: seq<Packet>): (r': Reg)
  {
    if c in r.cells then r.(cells := r.cells[c := Transmitted(r.cells[c], qs)]) else r
  }

  lemma TransmittedOne(r: Reg, c: nat, qs: seq<Packet>, q: Packet)
    ensures CountTx(OnTxBlock(r, c, qs), c, |q|) == OnTxBlock(r, c, qs + [q])
    ensures OnTxBlock(r, c, []) == r
  {
    hide OctetCount;
    OctetCountGrows(qs, q);
    NoOctets();
  }

  lemma NoOctets()
    ensures OctetCount([]) == 0
  {
  }

  /** The target is never negative, so asking only for positive ones changes nothing. */
  lemma EngineIs<E>(env: Env<E>, e: E, t: Tunnel, shaper: S.Table, pkt: Packet, now: int)
    ensures var target := Aim(env, shaper, pkt, now).target;
      env.encapsulate(e, t, pkt, Floor(t, target)) == Engine(env, e, t, pkt, target)
  {
    hide S.Target;
    S.TargetFits(env.cfg, shaper, S.Call(pkt, env.mtu, now));
  }

  /** One encapsulation: the engine's datagram or its failure, and the books that go with either. */
  lemma EncapIs<E>(env: Env<E>, p: Outbound<E>, b: Bound, pkt: Packet, now: int)
    ensures var aim := Aim(env, p.shaper, pkt, now);
      var (e, out) := Engine(env, p.engines, b.t, pkt, aim.target);
      Encap(env, p, b, pkt, now) == Encapped(
        p.(shaper := aim.t, engines := e,
           reg := OnTxBlock(p.reg, b.c, if out.Some? then [pkt] else []),
           drops := if out.Some? then p.drops else p.drops.(encapFailed := p.drops.encapFailed + 1)),
        out)
  {
    hide S.Target, CountTx, OnTxBlock, Floor, Engine;
    EngineIs(env, p.engines, b.t, p.shaper, pkt, now);
    TransmittedOne(p.reg, b.c, [], pkt);
    assert [] + [pkt] == [pkt];
  }

  /**
   A routed packet that fits and whose tunnel is not paced: the wire gets the engine's datagram, addressed
   to the tunnel's peer, or nothing when the engine fails; sent or failed is counted, and nothing else moves.
   */
  lemma OutboundSends<E>(env: Env<E>, p: Outbound<E>, pkt: Packet, now: int, b: Bound)
    requires Goes(env, p, pkt, b) && !b.t.paced
    ensures var aim := Aim(env, p.shaper, pkt, now);
      var (e, out) := Engine(env, p.engines, b.t, pkt, aim.target);
      RouteOutbound(env, p, pkt, now) == p.(
        engines := e, shaper := aim.t,
        sent := p.sent + (if out.Some? then [Sent(env.peerAddr(b.t), out.value)] else []),
        reg := OnTxBlock(p.reg, b.c, if out.Some? then [pkt] else []),
        drops := if out.Some? then p.drops else p.drops.(encapFailed := p.drops.encapFailed + 1))
  {
    hide S.Target, Encap, Engine, OnTxBlock, Lookup, InnerDest, NeedsFragmentation, Reply;
    EncapIs(env, p, b, pkt, now);
    assert p.sent + [] == p.sent;
  }

  /** A paced tunnel gets the packet itself, at once; the wire gets nothing here. */
  lemma OutboundPaces<E>(env: Env<E>, p: Outbound<E>, pkt: Packet, now: int, b: Bound)
    requires Goes(env, p, pkt, b) && b.t.paced
    ensures var (e, ok) := env.enqueue(p.engines, b.t, pkt);
      RouteOutbound(env, p, pkt, now) == p.(
        engines := e,
        reg := OnTxBlock(p.reg, b.c, if ok then [pkt] else []),
        drops := if ok then p.drops else p.drops.(pacerFull := p.drops.pacerFull + 1))
  {
    hide CountTx, OnTxBlock, Lookup, InnerDest, NeedsFragmentation, Reply;
    TransmittedOne(p.reg, b.c, [], pkt);
    assert [] + [pkt] == [pkt];
  }

  /** A packet that does not go moves one drop counter, for the first reason that applies, and only a packet too big is answered. */
  lemma OutboundRefuses<E>(env: Env<E>, p: Outbound<E>, pkt: Packet, now: int)
    requires forall b :: !Goes(env, p, pkt, b)
    ensures var r, dst := RouteOutbound(env, p, pkt, now), InnerDest(pkt);
      if dst.None? then r == p.(drops := p.drops.(notIP := p.drops.notIP + 1))
      else if Lookup(p.reg.routes, dst.value).None? then r == p.(drops := p.drops.(noRoute := p.drops.noRoute + 1))
      else
        && env.mtu > 0
        && r == p.(drops := p.drops.(tooBig := p.drops.tooBig + 1),
                   replies := p.replies + match FragNeeded(pkt, env.mtu) case None => [] case Some(x) => [x])
  {
    hide Lookup, InnerDest, NeedsFragmentation, FragNeeded;
    var dst := InnerDest(pkt);
    if dst.Some? && Lookup(p.reg.routes, dst.value).Some? {
      assert !Goes(env, p, pkt, Lookup(p.reg.routes, dst.value).value);
    }
  }

  /** What one packet puts on the wire: the engine's datagram when it is routed to an unpaced tunnel, fits and is not refused. */
  function OnWire<E>(env: Env<E>, p: Outbound<E>, pkt: Packet, now: int): (r: seq<Sent>)
  {
    var dst := InnerDest(pkt);
    if dst.None? || Lookup(p.reg.routes, dst.value).None? || (env.mtu > 0 && NeedsFragmentation(pkt, env.mtu)) then []
    else
      var t := Lookup(p.reg.routes, dst.value).value.t;
      if t.paced then []
      else
        match Engine(env, p.engines, t, pkt, Aim(env, p.shaper, pkt, now).target).1
        case None => []
        case Some(d) => [Sent(env.peerAddr(t), d)]
  }

  /** What one packet is answered with: the ICMP reply when it is routed and does not fit. */
  function Answered<E>(env: Env<E>, p: Outbound<E>, pkt: Packet): (r: seq<Packet>)
  {
    var dst := InnerDest(pkt);
    if dst.None? || Lookup(p.reg.routes, dst.value).None? || env.mtu <= 0 || !NeedsFragmentation(pkt, env.mtu) then []
    else match FragNeeded(pkt, env.mtu) case None => [] case Some(x) => [x]
  }

  lemma RouteSends<E>(env: Env<E>, p: Outbound<E>, pkt: Packet, now: int)
    ensures RouteOutbound(env, p, pkt, now).sent == p.sent + OnWire(env, p, pkt, now)
    ensures RouteOutbound(env, p, pkt, now).replies == p.replies + Answered(env, p, pkt)
  {
    hide S.Target, Encap, Pace, Engine, Aim, OnTxBlock, Lookup, InnerDest, NeedsFragmentation, FragNeeded;
    var dst := InnerDest(pkt);
    if dst.Some? && Lookup(p.reg.routes, dst.value).Some? {
      var b := Lookup(p.reg.routes, dst.value).value;
      if Goes(env, p, pkt, b) {
        if b.t.paced { OutboundPaces(env, p, pkt, now, b); } else { OutboundSends(env, p, pkt, now, b); }
      }
    }
  }

  // ---------- one burst ----------

  /** Every engine state and shaper table a burst passes through, and what the engine returned for each segment. */
  datatype Trace<E> = Trace(engines: seq<E>, tables: seq<S.Table>, outs: seq<Option<Packet>>)

  predicate StepsFrom<E(==)>(env: Env<E>, x: Trace<E>, t: Tunnel, segs: seq<Packet>, nows: seq<int>)
    requires |nows| >= |segs|
  {
    && |x.engines| == |x.tables| == |segs| + 1 && |x.outs| == |segs|
    && forall i :: 0 <= i < |segs| ==>
         var aim := Aim(env, x.tables[i], segs[i], nows[i]);
         x.tables[i + 1] == aim.t && Engine(env, x.engines[i], t, segs[i], aim.target) == (x.engines[i + 1], x.outs[i])
  }

  /** The datagrams that were made, in order. */
  function Made(outs: seq<Option<Packet>>): (r: seq<Packet>)
  {
    if outs == [] then []
    else Made(outs[..|outs| - 1]) + (match outs[|outs| - 1] case None => [] case Some(d) => [d])
  }

  /** The segments they were made of. */
  function MadeOf(segs: seq<Packet>, outs: seq<Option<Packet>>): (r: seq<Packet>)
    requires |segs| == |outs|
  {
    if outs == [] then []
    else
      var n := |outs| - 1;
      MadeOf(segs[..n], outs[..n]) + if outs[n].Some? then [segs[n]] else []
  }

  lemma MadeGrows(outs: seq<Option<Packet>>, o: Option<Packet>)
    ensures Made(outs + [o]) == Made(outs) + match o case None => [] case Some(d) => [d]
  {
    assert (outs + [o])[..|outs|] == outs;
  }

  lemma MadeOfGrows(segs: seq<Packet>, s: Packet, outs: seq<Option<Packet>>, o: Option<Packet>)
    requires |segs| == |outs|
    ensures MadeOf(segs + [s], outs + [o]) == MadeOf(segs, outs) + if o.Some? then [s] else []
  {
    assert (outs + [o])[..|outs|] == outs && (segs + [s])[..|segs|] == segs;
  }

  lemma {:induction false} MadeOfSize(segs: seq<Packet>, outs: seq<Option<Packet>>)
    requires |segs| == |outs|
    ensures |MadeOf(segs, outs)| == |Made(outs)| <= |segs|
    decreases |segs|
  {
    if segs != [] { MadeOfSize(segs[..|segs| - 1], outs[..|segs| - 1]); }
  }

  /** The pump after a burst that went through x: what was made is counted, what was not is a drop. */
  function After<E>(p: Outbound<E>, x: Trace<E>, c: nat, segs: seq<Packet>): (r: Outbound<E>)
    requires |x.engines| == |x.tables| == |segs| + 1 && |x.outs| == |segs|
  {
    MadeOfSize(segs, x.outs);
    p.(engines := x.engines[|segs|], shaper := x.tables[|segs|],
       reg := OnTxBlock(p.reg, c, MadeOf(segs, x.outs)),
       drops := p.drops.(encapFailed := p.drops.encapFailed + (|segs| - |Made(x.outs)|)))
  }

  lemma {:induction false} BurstTrace<E>(env: Env<E>, p: Outbound<E>, b: Bound, segs: seq<Packet>, nows: seq<int>) returns (x: Trace<E>)
    requires |nows| >= |segs|
    ensures StepsFrom(env, x, b.t, segs, nows) && x.engines[0] == p.engines && x.tables[0] == p.shaper
    ensures EncapEach(env, p, b, segs, nows) == Burst(After(p, x, b.c, segs), Made(x.outs))
    decreases |segs|
  {
    hide Encap, Engine, Aim, OnTxBlock, Made, MadeOf;
    if segs == [] {
      x := Trace([p.engines], [p.shaper], []);
      NoSteps(env, p, b, nows, x);
    } else {
      var n := |segs| - 1;
      var y := BurstTrace(env, p, b, segs[..n], nows);
      var before := EncapEach(env, p, b, segs[..n], nows).p;
      var aim := Aim(env, before.shaper, segs[n], nows[n]);
      var made := Engine(env, before.engines, b.t, segs[n], aim.target);
      EncapIs(env, before, b, segs[n], nows[n]);
      x := Trace(y.engines + [made.0], y.tables + [aim.t], y.outs + [made.1]);
      assert segs == segs[..n] + [segs[n]];
      OneMoreStep(env, p, b, segs[..n], segs[n], nows, y, x);
      MadeGrows(y.outs, made.1);
      assert x.outs[n] == made.1 && x.engines[n + 1] == made.0 && x.tables[n + 1] == aim.t;
    }
  }

  lemma NoSteps<E>(env: Env<E>, p: Outbound<E>, b: Bound, nows: seq<int>, x: Trace<E>)
    requires x == Trace([p.engines], [p.shaper], [])
    ensures StepsFrom(env, x, b.t, [], nows) && After(p, x, b.c, []) == p && Made([]) == []
  {
    hide OnTxBlock;
    TransmittedOne(p.reg, b.c, [], []);
  }

  lemma OneMoreStep<E>(env: Env<E>, p: Outbound<E>, b: Bound, segs: seq<Packet>, s: Packet, nows: seq<int>, y: Trace<E>, x: Trace<E>)
    requires |nows| > |segs| && StepsFrom(env, y, b.t, segs, nows)
    requires var before := After(p, y, b.c, segs);
      var aim := Aim(env, before.shaper, s, nows[|segs|]);
      var made := Engine(env, before.engines, b.t, s, aim.target);
      x == Trace(y.engines + [made.0], y.tables + [aim.t], y.outs + [made.1])
    ensures StepsFrom(env, x, b.t, segs + [s], nows)
    ensures var before, out := After(p, y, b.c, segs), x.outs[|segs|];
      After(p, x, b.c, segs + [s]) == before.(
        engines := x.engines[|segs| + 1], shaper := x.tables[|segs| + 1],
        reg := OnTxBlock(before.reg, b.c, if out.Some? then [s] else []),
        drops := if out.Some? then before.drops else before.drops.(encapFailed := before.drops.encapFailed + 1))
  {
    hide Engine, Aim, OnTxBlock, Made, MadeOf;
    var out := x.outs[|segs|];
    MadeGrows(y.outs, out);
    MadeOfGrows(segs, s, y.outs, out);
    MadeOfSize(segs, y.outs);
    CountedTogether(p.reg, b.c, MadeOf(segs, y.outs), if out.Some? then [s] else []);
  }

  lemma CountedTogether(r: Reg, c: nat, a: seq<Packet>, b: seq<Packet>)
    requires |b| <= 1
    ensures OnTxBlock(OnTxBlock(r, c, a), c, b) == OnTxBlock(r, c, a + b)
  {
    hide OctetCount;
    NoOctets();
    if b != [] {
      assert b == [b[0]] && [] + [b[0]] == b;
      OctetCountGrows(a, b[0]);
      OctetCountGrows([], b[0]);
    } else {
      assert a + b == a;
    }
  }

  /**
   A super-frame's segments to an unpaced tunnel: the wire gets, in order and addressed to its peer, what
   the engine made of each, every encapsulation starting from the state the one before it left.
   */
  lemma SegmentsSend<E>(env: Env<E>, p: Outbound<E>, segs: seq<Packet>, nows: seq<int>, b: Bound) returns (x: Trace<E>)
    requires 0 < |segs| <= |nows| && Goes(env, p, segs[0], b) && !b.t.paced
    ensures StepsFrom(env, x, b.t, segs, nows) && x.engines[0] == p.engines && x.tables[0] == p.shaper
    ensures SendSegments(env, p, segs, nows) == After(p, x, b.c, segs).(sent := SendAll(p.sent, env.peerAddr(b.t), Made(x.outs)))
  {
    hide EncapEach, StepsFrom, SendAll, Made, Lookup, InnerDest, NeedsFragmentation, OnTxBlock, MadeOf;
    x := BurstTrace(env, p, b, segs, nows);
  }

  /** The queue states a paced super-frame passes through, and each segment the queue took. */
  datatype Queued<E> = Queued(engines: seq<E>, taken: seq<Option<Packet>>)

  predicate EnqueuesFrom<E(==)>(env: Env<E>, x: Queued<E>, t: Tunnel, segs: seq<Packet>)
  {
    && |x.engines| == |segs| + 1 && |x.taken| == |segs|
    && forall i :: 0 <= i < |segs| ==>
         var (e, ok) := env.enqueue(x.engines[i], t, segs[i]);
         x.engines[i + 1] == e && x.taken[i] == if ok then Some(segs[i]) else None
  }

  /** The pump after a queue took what it did: that is counted, and the rest is a drop. */
  function AfterQueue<E>(p: Outbound<E>, x: Queued<E>, c: nat, segs: seq<Packet>): (r: Outbound<E>)
    requires |x.engines| == |segs| + 1 && |x.taken| == |segs|
  {
    MadeOfSize(segs, x.taken);
    p.(engines := x.engines[|segs|], reg := OnTxBlock(p.reg, c, Made(x.taken)),
       drops := p.drops.(pacerFull := p.drops.pacerFull + (|segs| - |Made(x.taken)|)))
  }

  lemma PaceIs<E>(env: Env<E>, p: Outbound<E>, b: Bound, pkt: Packet)
    ensures var (e, ok) := env.enqueue(p.engines, b.t, pkt);
      Pace(env, p, b, pkt) == p.(engines := e,
        reg := OnTxBlock(p.reg, b.c, if ok then [pkt] else []),
        drops := if ok then p.drops else p.drops.(pacerFull := p.drops.pacerFull + 1))
  {
    hide CountTx, OnTxBlock;
    TransmittedOne(p.reg, b.c, [], pkt);
    assert [] + [pkt] == [pkt];
  }

  lemma {:induction false} PaceTrace<E>(env: Env<E>, p: Outbound<E>, b: Bound, segs: seq<Packet>) returns (x: Queued<E>)
    ensures EnqueuesFrom(env, x, b.t, segs) && x.engines[0] == p.engines
    ensures PaceEach(env, p, b, segs) == AfterQueue(p, x, b.c, segs)
    decreases |segs|
  {
    hide Pace, OnTxBlock, Made;
    if segs == [] {
      x := Queued([p.engines], []);
      TransmittedOne(p.reg, b.c, [], []);
      NothingMade();
    } else {
      var n := |segs| - 1;
      var y := PaceTrace(env, p, b, segs[..n]);
      var before := PaceEach(env, p, b, segs[..n]);
      PaceIs(env, before, b, segs[n]);
      var (e, ok) := env.enqueue(before.engines, b.t, segs[n]);
      x := Queued(y.engines + [e], y.taken + [if ok then Some(segs[n]) else None]);
      assert segs == segs[..n] + [segs[n]];
      OneMoreQueued(env, p, b, segs[..n], segs[n], y, x);
    }
  }

  lemma OneMoreQueued<E>(env: Env<E>, p: Outbound<E>, b: Bound, segs: seq<Packet>, s: Packet, y: Queued<E>, x: Queued<E>)
    requires EnqueuesFrom(env, y, b.t, segs)
    requires var (e, ok) := env.enqueue(AfterQueue(p, y, b.c, segs).engines, b.t, s);
      x == Queued(y.engines + [e], y.taken + [if ok then Some(s) else None])
    ensures EnqueuesFrom(env, x, b.t, segs + [s])
    ensures var before, ok := AfterQueue(p, y, b.c, segs), x.taken[|segs|].Some?;
      AfterQueue(p, x, b.c, segs + [s]) == before.(
        engines := x.engines[|segs| + 1],
        reg := OnTxBlock(before.reg, b.c, if ok then [s] else []),
        drops := if ok then before.drops else before.drops.(pacerFull := before.drops.pacerFull + 1))
  {
    hide OnTxBlock, Made;
    forall i | 0 <= i <= |segs|
      ensures env.enqueue(x.engines[i], b.t, (segs + [s])[i]).0 == x.engines[i + 1]
      ensures x.taken[i] == if env.enqueue(x.engines[i], b.t, (segs + [s])[i]).1 then Some((segs + [s])[i]) else None
    {
      if i < |segs| { assert x.engines[i] == y.engines[i] && x.engines[i + 1] == y.engines[i + 1] && x.taken[i] == y.taken[i]; }
    }
    var ok := x.taken[|segs|].Some?;
    MadeGrows(y.taken, x.taken[|segs|]);
    MadeOfSize(segs, y.taken);
    CountedTogether(p.reg, b.c, Made(y.taken), if ok then [s] else []);
  }

  lemma NothingMade()
    ensures Made([]) == []
  {
  }

  /** To a paced tunnel: every segment is offered to the queue in order, and the wire gets nothing here. */
  lemma SegmentsPace<E>(env: Env<E>, p: Outbound<E>, segs: seq<Packet>, nows: seq<int>, b: Bound) returns (x: Queued<E>)
    requires 0 < |segs| <= |nows| && Goes(env, p, segs[0], b) && b.t.paced
    ensures EnqueuesFrom(env, x, b.t, segs) && x.engines[0] == p.engines
    ensures SendSegments(env, p, segs, nows) == AfterQueue(p, x, b.c, segs)
  {
    hide PaceEach, EnqueuesFrom, Made, Lookup, InnerDest, NeedsFragmentation, OnTxBlock;
    x := PaceTrace(env, p, b, segs);
  }

  /** A super-frame whose first segment does not go: one drop for it all, but for one too big a drop for each segment and one answer. */
  lemma SegmentsRefuse<E>(env: Env<E>, p: Outbound<E>, segs: seq<Packet>, nows: seq<int>)
    requires 0 < |segs| <= |nows| && forall b :: !Goes(env, p, segs[0], b)
    ensures var r, dst := SendSegments(env, p, segs, nows), InnerDest(segs[0]);
      if dst.None? then r == p.(drops := p.drops.(notIP := p.drops.notIP + 1))
      else if Lookup(p.reg.routes, dst.value).None? then r == p.(drops := p.drops.(noRoute := p.drops.noRoute + 1))
      else
        && env.mtu > 0
        && r == p.(drops := p.drops.(tooBig := p.drops.tooBig + |segs|),
                   replies := p.replies + match FragNeeded(segs[0], env.mtu) case None => [] case Some(x) => [x])
  {
    hide Lookup, InnerDest, NeedsFragmentation, FragNeeded, EncapEach, PaceEach;
    var dst := InnerDest(segs[0]);
    if dst.Some? && Lookup(p.reg.routes, dst.value).Some? {
      assert !Goes(env, p, segs[0], Lookup(p.reg.routes, dst.value).value);
    }
  }

  // ---------- one TUN read ----------

  /** A little-endian field of the virtio-net header. */
  function Field(buf: Packet, at: nat): (n: nat)
    requires at + 2 <= |buf|
  {
    var lo: nat, hi: nat := buf[at], buf[at + 1];
    lo + 0x100 * hi
  }

  /** An ordinary packet read off a GSO device is routed as it is, or with its checksum completed when the header asks for that. */
  lemma PlainRead<E>(env: Env<E>, p: Outbound<E>, buf: Packet, nows: seq<int>) returns (q: Packet)
    requires |nows| >= MAX_TSO_SEGMENTS && |buf| >= 10 && buf[1] == 0
    ensures VnetRead(env, p, buf, nows) == RouteOutbound(env, p, q, nows[0])
    ensures if buf[0] % 2 == 0 then q == buf[10..] else CompletedFrom(q, buf[10..], Field(buf, 6), Field(buf, 8))
  {
    hide RouteOutbound, Completed, SegmentTSO4Spec, SendSegments, CompletedFrom;
    var pkt := buf[10..];
    q := if buf[0] % 2 == 1 then Completed(pkt, Field(buf, 6), Field(buf, 8)) else pkt;
    CompletedIs(pkt, Field(buf, 6), Field(buf, 8));
  }

  /** A TCPv4 super-frame goes out as its segments, and one that cannot be cut is dropped without a trace. */
  lemma FrameRead<E>(env: Env<E>, p: Outbound<E>, buf: Packet, nows: seq<int>)
    requires |nows| >= MAX_TSO_SEGMENTS && |buf| >= 10 && buf[1] == 1
    ensures var r, pkt, gso := VnetRead(env, p, buf, nows), buf[10..], Field(buf, 4);
      if HoldsTcpPayload(pkt) && 0 < gso && PayloadLen(pkt) <= 256 * gso then
        var cut := SegmentTSO4Spec(pkt, gso);
        cut.Segmented? && 0 < |cut.segs| <= 256 && r == SendSegments(env, p, cut.segs, nows)
      else r == p
  {
    hide RouteOutbound, Completed, SendSegments, HoldsTcpPayload, Cut, LayoutOf;
    var pkt, gso := buf[10..], Field(buf, 4);
    CutIff(pkt, gso);
    if SegmentTSO4Spec(pkt, gso).Segmented? { CutIsAlike(pkt, gso); }
  }

  /** Reads too short for the header, and types that were never negotiated, change nothing. */
  lemma OtherReads<E>(env: Env<E>, p: Outbound<E>, buf: Packet, nows: seq<int>)
    requires |nows| >= MAX_TSO_SEGMENTS && (|buf| < 10 || buf[1] > 1)
    ensures VnetRead(env, p, buf, nows) == p
  {
    hide RouteOutbound, SendSegments, SegmentTSO4Spec;
  }
}
