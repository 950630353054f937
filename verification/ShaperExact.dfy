/**
 Which packets are padded, said of the packets that came before (dataplane/shape.go): a flow is padded up
 to the mtu from the moment it is armed until it has emitted its budget.
 */
module ShaperExact {
  import opened Bytes
  import opened Shaper

  // ---------- flows ----------

  /** The four octets a transport header starts with, where the packet has ports to read. */
  function PortOctets(p: Packet): (r: Packet)
    requires KeyOf(p).Some?
    ensures |r| == 4
  {
    var v4 := p[0] / 16 == 4;
    var at, proto := if v4 then p[0] % 16 * 4 else 40, if v4 then p[9] else p[6];
    var first := !v4 || (p[6] % 32 == 0 && p[7] == 0);
    if first && proto in {6, 17, 132} && |p| >= at + 4 then p[at..at + 4] else [0, 0, 0, 0]
  }

  /** Which packets belong to a flow, and when two belong to the same one. */
  lemma SameFlowIff(a: Packet, b: Packet)
    ensures KeyOf(a).Some? <==>
      |a| >= 20 && ((a[0] / 16 == 4 && 20 <= a[0] % 16 * 4 <= |a|) || (a[0] / 16 == 6 && |a| >= 40))
    ensures KeyOf(a).Some? && KeyOf(b).Some? ==>
      (KeyOf(a) == KeyOf(b) <==>
        && a[0] / 16 == b[0] / 16 && PortOctets(a) == PortOctets(b)
        && if a[0] / 16 == 4 then a[9] == b[9] && a[12..20] == b[12..20] else a[6] == b[6] && a[8..40] == b[8..40])
  {
    if KeyOf(a).Some? && KeyOf(b).Some? {
      PortsAre(a);
      PortsAre(b);
      PortsInjective(a, b);
      AddressesAre(a, b);
    }
  }

  lemma PortsAre(p: Packet)
    requires KeyOf(p).Some?
    ensures var k, o := KeyOf(p).value, PortOctets(p); k.sport == Be16(o, 0) && k.dport == Be16(o, 2)
  {
    var v4 := p[0] / 16 == 4;
    var at := if v4 then p[0] % 16 * 4 else 40;
    if v4 { FirstFragment(p[6], p[7]); }
    if |p| >= at + 4 {
      var rest, o := p[at..], p[at..at + 4];
      assert rest[0] == o[0] && rest[1] == o[1] && rest[2] == o[2] && rest[3] == o[3];
    }
  }

  lemma FirstFragment(hi: byte, lo: byte)
    ensures (hi as int * 0x100 + lo) % 0x2000 == 0 <==> hi % 32 == 0 && lo == 0
  {
    var q, r := hi / 32, hi % 32;
    assert hi as int * 0x100 + lo == q * 0x2000 + (r * 0x100 + lo);
  }

  lemma PortsInjective(a: Packet, b: Packet)
    requires KeyOf(a).Some? && KeyOf(b).Some?
    ensures var x, y := PortOctets(a), PortOctets(b); x == y <==> Be16(x, 0) == Be16(y, 0) && Be16(x, 2) == Be16(y, 2)
  {
    var x, y := PortOctets(a), PortOctets(b);
    assert x == [x[0], x[1], x[2], x[3]] && y == [y[0], y[1], y[2], y[3]];
  }

  lemma AddressesAre(a: Packet, b: Packet)
    requires KeyOf(a).Some? && KeyOf(b).Some?
    ensures var x, y := KeyOf(a).value, KeyOf(b).value;
      x.src == y.src && x.dst == y.dst <==>
        a[0] / 16 == b[0] / 16 && if a[0] / 16 == 4 then a[12..20] == b[12..20] else a[8..40] == b[8..40]
  {
    var x, y := KeyOf(a).value, KeyOf(b).value;
    if a[0] / 16 == 4 && b[0] / 16 == 4 {
      assert a[12..20] == x.src + x.dst && b[12..20] == y.src + y.dst;
      assert x.src == a[12..20][..4] && y.src == b[12..20][..4] && x.dst == a[12..20][4..] && y.dst == b[12..20][4..];
    }
    if a[0] / 16 == 6 && b[0] / 16 == 6 {
      assert a[8..40] == x.src + x.dst && b[8..40] == y.src + y.dst;
      assert x.src == a[8..40][..16] && y.src == b[8..40][..16] && x.dst == a[8..40][16..] && y.dst == b[8..40][16..];
    }
  }

  // ---------- what a flow has emitted ----------

  /** x is a packet of flow k that the shaper looks at. */
  predicate Of(c: Config, x: Call, k: Key) { c.bytes > 0 && x.mtu > 0 && KeyOf(x.pkt) == Some(k) }

  /** When flow k was last seen. */
  function LastOf(c: Config, calls: seq<Call>, k: Key): (r: Option<int>)
  {
    if calls == [] then None
    else
      var n := |calls| - 1;
      if Of(c, calls[n], k) then Some(calls[n].now) else LastOf(c, calls[..n], k)
  }

  /** The flow is new or has been idle. */
  predicate Silent(c: Config, calls: seq<Call>, k: Key, now: int)
  {
    LastOf(c, calls, k).None? || now - LastOf(c, calls, k).value >= c.idle
  }

  /** And as the bounded table sees it, which may also have forgotten the flow. */
  predicate Armed(c: Config, calls: seq<Call>, k: Key, now: int)
  {
    k !in Targets(c, calls).0.flows || Silent(c, calls, k, now)
  }

  /** The octets flow k has put on the wire since it was last armed, each packet at the mtu or its own length. */
  function Emitted(c: Config, calls: seq<Call>, k: Key): (n: int)
  {
    if calls == [] then 0
    else
      var i := |calls| - 1;
      var x := calls[i];
      if !Of(c, x, k) then Emitted(c, calls[..i], k)
      else (if Armed(c, calls[..i], k, x.now) then 0 else Emitted(c, calls[..i], k)) + Max(|x.pkt|, x.mtu)
  }

  /** The same counted from the last silence alone. */
  function EmittedSince(c: Config, calls: seq<Call>, k: Key): (n: int)
  {
    if calls == [] then 0
    else
      var i := |calls| - 1;
      var x := calls[i];
      if !Of(c, x, k) then EmittedSince(c, calls[..i], k)
      else (if Silent(c, calls[..i], k, x.now) then 0 else EmittedSince(c, calls[..i], k)) + Max(|x.pkt|, x.mtu)
  }

  // ---------- the table knows ----------

  /** A stored flow shows when it was last seen and what is left of its budget. */
  ghost predicate Shows(c: Config, calls: seq<Call>, k: Key)
  {
    var flows := Targets(c, calls).0.flows;
    k in flows ==>
      && LastOf(c, calls, k) == Some(flows[k].lastSeen)
      && if Emitted(c, calls, k) < c.bytes then flows[k].remaining == c.bytes - Emitted(c, calls, k) else flows[k].remaining <= 0
  }

  lemma {:induction false} TableShows(c: Config, calls: seq<Call>, k: Key)
    ensures Shows(c, calls, k)
    decreases |calls|
  {
    hide KeyOf, Store;
    if calls != [] {
      var i := |calls| - 1;
      TableShows(c, calls[..i], k);
      var x, t := calls[i], Targets(c, calls[..i]).0;
      if !Inactive(c, x.pkt, x.mtu) && k in Targets(c, calls).0.flows {
        var own := KeyOf(x.pkt).value;
        StoreKeeps(c, t, own, Charged(c, t.flows, own, |x.pkt|, x.mtu, x.now), k);
      }
    }
  }

  /** What the next packet is padded to. */
  predicate Pads(c: Config, x: Call, k: Key, armed: bool, emitted: int)
  {
    Of(c, x, k) && |x.pkt| < x.mtu && (armed || emitted < c.bytes)
  }

  lemma NextPads(c: Config, calls: seq<Call>, x: Call, k: Key)
    requires KeyOf(x.pkt) == Some(k)
    ensures Target(c, Targets(c, calls).0, x).target ==
      if Pads(c, x, k, Armed(c, calls, k, x.now), Emitted(c, calls, k)) then x.mtu else 0
  {
    hide KeyOf, Store, Targets, Emitted, LastOf;
    TableShows(c, calls, k);
  }

  lemma {:induction false} TargetOf(c: Config, calls: seq<Call>, i: nat)
    requires i < |calls|
    ensures |Targets(c, calls).1| == |calls| && Targets(c, calls).1[i] == Target(c, Targets(c, calls[..i]).0, calls[i]).target
    decreases |calls|
  {
    hide Target;
    var n := |calls| - 1;
    if n > 0 { TargetOf(c, calls[..n], if i < n then i else 0); }
    if i < n { assert calls[..n][..i] == calls[..i]; }
  }

  /**
   In every run of the table, whatever the clock does and however often it overflows: a packet is padded, to
   the mtu, if and only if it is shorter and its flow is armed by it or has not yet emitted its budget.
   */
  lemma PadsIff(c: Config, calls: seq<Call>, i: nat)
    requires i < |calls|
    ensures |Targets(c, calls).1| == |calls|
    ensures var x, before := calls[i], calls[..i];
      Targets(c, calls).1[i] ==
        if KeyOf(x.pkt).Some? && var k := KeyOf(x.pkt).value; Pads(c, x, k, Armed(c, before, k, x.now), Emitted(c, before, k)) then x.mtu
        else 0
  {
    hide KeyOf, Store, Targets, Emitted, LastOf, Armed, Decision, Charged;
    TargetOf(c, calls, i);
    var x := calls[i];
    if KeyOf(x.pkt).Some? { NextPads(c, calls[..i], x, KeyOf(x.pkt).value); }
  }

  // ---------- what the table forgets ----------

  /** How many packets the shaper has looked at. */
  function Looked(c: Config, calls: seq<Call>): (n: nat)
  {
    if calls == [] then 0
    else
      var i := |calls| - 1;
      Looked(c, calls[..i]) + if Inactive(c, calls[i].pkt, calls[i].mtu) then 0 else 1
  }

  lemma {:induction false} SinceIs(c: Config, calls: seq<Call>)
    ensures Targets(c, calls).0.since == Looked(c, calls) % 1024
    decreases |calls|
  {
    hide KeyOf, Charged, Decision, Sweep;
    if calls != [] {
      SinceIs(c, calls[..|calls| - 1]);
      Remainder(Looked(c, calls[..|calls| - 1]));
    }
  }

  lemma Remainder(n: nat)
    ensures (n + 1) % 1024 == if n % 1024 == 1023 then 0 else n % 1024 + 1
  {
  }

  /**
   Which flows the table still knows after a packet x of flow own: own, and every flow it knew, unless own was new
   and the table full, when it forgets them all, or x is the 1024th since the last sweep and the flow is idle.
   */
  lemma KnownAfter(c: Config, calls: seq<Call>, x: Call, own: Key, k: Key)
    requires Usable(c) && Of(c, x, own)
    ensures var before := Targets(c, calls).0.flows;
      k in Targets(c, calls + [x]).0.flows <==>
        || k == own
        || (&& k in before && !(own !in before && |before| >= c.maxFlows)
            && !((Looked(c, calls) + 1) % 1024 == 0 && Silent(c, calls, k, x.now)))
  {
    hide KeyOf, Charged, Decision, Emitted, LastOf, Store, Targets, Looked;
    OneMoreCall(c, calls, x);
    TableShows(c, calls, k);
    SinceIs(c, calls);
    Remainder(Looked(c, calls));
    var t := Targets(c, calls).0;
    ChargedNow(c, t.flows, own, |x.pkt|, x.mtu, x.now);
    StoreKnows(c, t, own, Charged(c, t.flows, own, |x.pkt|, x.mtu, x.now), k);
  }

  lemma OneMoreCall(c: Config, calls: seq<Call>, x: Call)
    ensures Targets(c, calls + [x]).0 == Target(c, Targets(c, calls).0, x).t
  {
    hide Target;
    assert (calls + [x])[..|calls|] == calls;
  }

  lemma StoreKnows(c: Config, t: Table, own: Key, f: Flow, k: Key)
    requires Usable(c)
    ensures k in Store(c, t, own, f).flows <==>
      || k == own
      || (&& k in t.flows && !(own !in t.flows && |t.flows| >= c.maxFlows)
          && !(t.since + 1 >= 1024 && f.lastSeen - t.flows[k].lastSeen >= c.idle))
  {
  }

  lemma ChargedNow(c: Config, flows: Flows, k: Key, len: nat, mtu: int, now: int)
    ensures Charged(c, flows, k, len, mtu, now).lastSeen == now
  {
  }

  // ---------- without the table ----------

  lemma {:induction false} ForgettingHelps(c: Config, calls: seq<Call>, k: Key)
    ensures Emitted(c, calls, k) <= EmittedSince(c, calls, k)
    decreases |calls|
  {
    hide KeyOf, Targets, LastOf;
    if calls != [] {
      ForgettingHelps(c, calls[..|calls| - 1], k);
      EmittedPositive(c, calls[..|calls| - 1], k);
    }
  }

  lemma {:induction false} EmittedPositive(c: Config, calls: seq<Call>, k: Key)
    ensures 0 <= EmittedSince(c, calls, k)
    decreases |calls|
  {
    hide KeyOf, LastOf;
    if calls != [] { EmittedPositive(c, calls[..|calls| - 1], k); }
  }

  /** The reference remembers every flow it has seen. */
  lemma {:induction false} RefSeen(c: Config, calls: seq<Call>, k: Key)
    ensures var ref := RefTargets(c, calls).0;
      LastOf(c, calls, k) == if k in ref then Some(ref[k].lastSeen) else None
    decreases |calls|
  {
    hide KeyOf, Decision;
    if calls != [] { RefSeen(c, calls[..|calls| - 1], k); }
  }

  /** Without overflow a flow is armed by silence and by nothing else. */
  lemma ArmedBySilence(c: Config, calls: seq<Call>, k: Key, now: int)
    requires Usable(c) && Monotone(calls) && NeverOverflows(c, calls) && LastTime(calls, now) <= now
    ensures Armed(c, calls, k, now) <==> Silent(c, calls, k, now)
  {
    hide Targets, RefTargets, LastOf, NeverOverflows;
    RefSeen(c, calls, k);
    RunCaches(c, calls, if calls == [] then now else calls[0].now);
  }

  lemma {:induction false} EmittedIsSince(c: Config, calls: seq<Call>, k: Key)
    requires Usable(c) && Monotone(calls) && NeverOverflows(c, calls)
    ensures Emitted(c, calls, k) == EmittedSince(c, calls, k)
    decreases |calls|
  {
    hide KeyOf, Armed, Silent, Fits, Targets;
    if calls != [] {
      var n := |calls| - 1;
      PrefixFits(c, calls, n);
      EmittedIsSince(c, calls[..n], k);
      ArmedBySilence(c, calls[..n], k, calls[n].now);
    }
  }

  lemma PrefixFits(c: Config, calls: seq<Call>, n: nat)
    requires n <= |calls| && NeverOverflows(c, calls)
    ensures NeverOverflows(c, calls[..n])
  {
    hide Fits, Targets;
    forall i | 0 <= i < n ensures Fits(c, Targets(c, calls[..n][..i]).0, calls[..n][i]) {
      assert calls[..n][..i] == calls[..i];
    }
  }

  /**
   Said of the packets alone. In every run, a packet shorter than the mtu whose flow is new, was idle, or has
   emitted less than its budget since then is padded to the mtu; and when the clock does not go back and the
   table never overflows, no other packet is padded.
   */
  lemma PadsFromPackets(c: Config, calls: seq<Call>, i: nat)
    requires i < |calls| && KeyOf(calls[i].pkt).Some?
    ensures |Targets(c, calls).1| == |calls|
    ensures var x, before, k := calls[i], calls[..i], KeyOf(calls[i].pkt).value;
      var owed := Pads(c, x, k, Silent(c, before, k, x.now), EmittedSince(c, before, k));
      && (owed ==> Targets(c, calls).1[i] == x.mtu)
      && (Usable(c) && Monotone(calls) && NeverOverflows(c, calls) ==> Targets(c, calls).1[i] == if owed then x.mtu else 0)
  {
    hide KeyOf, Targets, Emitted, EmittedSince, Silent, NeverOverflows;
    var x, before, k := calls[i], calls[..i], KeyOf(calls[i].pkt).value;
    PadsIff(c, calls, i);
    ForgettingHelps(c, before, k);
    if Usable(c) && Monotone(calls) && NeverOverflows(c, calls) {
      PrefixFits(c, calls, i);
      EmittedIsSince(c, before, k);
      ArmedBySilence(c, before, k, x.now);
    }
  }

  // ---------- frames ----------

  /** An Ethernet frame is padded exactly when the IPv4 or IPv6 packet in it would be, by as much; other frames leave no trace. */
  lemma FrameIsPacket(c: Config, t: Table, frame: Packet, mtu: int, now: int)
    ensures var r := TargetFrame(c, t, frame, mtu, now);
      if |frame| >= 14 && (frame[12..14] == [0x08, 0x00] || frame[12..14] == [0x86, 0xdd]) then
        var inner := Target(c, t, Call(frame[14..], mtu - 14, now));
        r.t == inner.t && if inner.target > 0 then r.target - |frame| == inner.target - |frame[14..]| else r.target == 0
      else r == Shaped(t, 0)
  {
    hide Target;
    if |frame| >= 14 {
      assert frame[12..14] == [frame[12], frame[13]];
    }
  }
}
