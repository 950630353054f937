/**
 Downstream flow shaping (dataplane/shape.go): which packets are padded and to what size, the
 bounded flow table behind that decision, and the trim that makes padding inert.
 */
module Shaper {
  import opened Bytes

  const SWEEP_EVERY := 1024

  const DEFAULT_IDLE := 30_000_000_000   // 30 s in nanoseconds
  const DEFAULT_MAX_FLOWS := 4096

  datatype Config = Config(bytes: int, idle: int, maxFlows: int)

  function WithDefaults(c: Config): (r: Config)
    ensures r.idle > 0 && r.maxFlows > 0 && r.bytes == c.bytes
    ensures c.idle <= 0 && c.maxFlows <= 0 ==> r == Config(c.bytes, 30_000_000_000, 4096)
    ensures c.idle > 0 && c.maxFlows > 0 ==> r == c
  {
    c.(idle := if c.idle <= 0 then DEFAULT_IDLE else c.idle,
       maxFlows := if c.maxFlows <= 0 then DEFAULT_MAX_FLOWS else c.maxFlows)
  }

  predicate Usable(c: Config) { c.idle > 0 && c.maxFlows > 0 }

  // ---------- flow keys ----------

  datatype Key = Key(src: Packet, dst: Packet, sport: u16, dport: u16, proto: byte)

  /** Ports of TCP, UDP and SCTP; zero for anything else or a truncated header. */
  function PortsOf(proto: byte, rest: Packet): (r: (u16, u16))
  {
    if (proto == 6 || proto == 17 || proto == 132) && |rest| >= 4 then (Be16(rest, 0), Be16(rest, 2)) else (0, 0)
  }

  function KeyOf(p: Packet): (k: Option<Key>)
  {
    if |p| < 1 then None
    else if p[0] / 16 == 4 then
      var ihl := p[0] % 16 * 4;
      if |p| < 20 || ihl < 20 || ihl > |p| then None
      else
        var ports := if Be16(p, 6) % 0x2000 == 0 then PortsOf(p[9], p[ihl..]) else (0, 0);
        Some(Key(p[12..16], p[16..20], ports.0, ports.1, p[9]))
    else if p[0] / 16 == 6 then
      if |p| < 40 then None
      else
        var ports := PortsOf(p[6], p[40..]);
        Some(Key(p[8..24], p[24..40], ports.0, ports.1, p[6]))
    else None
  }

  // ---------- the decision ----------

  datatype Flow = Flow(remaining: int, lastSeen: int)

  type Flows = map<Key, Flow>

  /** The budget a packet of this flow finds: what is left, or all of it when the flow is new or has been silent. */
  function Budget(c: Config, flows: Flows, k: Key, now: int): (b: int)
  {
    if k in flows && now - flows[k].lastSeen < c.idle then flows[k].remaining else c.bytes
  }

  /** The flow's entry after a packet of len octets at the given mtu; an emitted packet costs what it emits. */
  function Charged(c: Config, flows: Flows, k: Key, len: nat, mtu: int, now: int): (f: Flow)
  {
    var b := Budget(c, flows, k, now);
    Flow(if b > 0 then b - Max(len, mtu) else b, now)
  }

  function Decision(c: Config, flows: Flows, k: Key, len: nat, mtu: int, now: int): (target: int)
  {
    if Budget(c, flows, k, now) > 0 && len < mtu then mtu else 0
  }

  /** Calls that are not shaped at all and leave no trace. */
  predicate Inactive(c: Config, p: Packet, mtu: int) { c.bytes <= 0 || mtu <= 0 || KeyOf(p).None? }

  // ---------- the bounded table ----------

  datatype Table = Table(flows: Flows, since: nat)

  function Sweep(c: Config, flows: Flows, now: int): (r: Flows)
  {
    map k | k in flows && now - flows[k].lastSeen < c.idle :: flows[k]
  }

  /** store: drop the whole table when a new flow would overfill it; sweep every SWEEP_EVERY stores. */
  function Store(c: Config, t: Table, k: Key, f: Flow): (r: Table)
  {
    var kept: Flows := if k !in t.flows && |t.flows| >= c.maxFlows then map[] else t.flows;
    var flows := kept[k := f];
    if t.since + 1 >= SWEEP_EVERY then Table(Sweep(c, flows, f.lastSeen), 0) else Table(flows, t.since + 1)
  }

  datatype Call = Call(pkt: Packet, mtu: int, now: int)

  datatype Shaped<T> = Shaped(t: T, target: int)

  /** Shaper.Target. */
  function Target(c: Config, t: Table, x: Call): (r: Shaped<Table>)
  {
    if Inactive(c, x.pkt, x.mtu) then Shaped(t, 0)
    else
      var k := KeyOf(x.pkt).value;
      Shaped(Store(c, t, k, Charged(c, t.flows, k, |x.pkt|, x.mtu, x.now)),
             Decision(c, t.flows, k, |x.pkt|, x.mtu, x.now))
  }

  /** The reference: a shaper that remembers every flow for ever. */
  function RefTarget(c: Config, flows: Flows, x: Call): (r: Shaped<Flows>)
  {
    if Inactive(c, x.pkt, x.mtu) then Shaped(flows, 0)
    else
      var k := KeyOf(x.pkt).value;
      Shaped(flows[k := Charged(c, flows, k, |x.pkt|, x.mtu, x.now)],
             Decision(c, flows, k, |x.pkt|, x.mtu, x.now))
  }

  /** Padding never exceeds the mtu and never shrinks or pads an already full packet. */
  lemma TargetFits(c: Config, t: Table, x: Call)
    ensures var target := Target(c, t, x).target;
      0 <= target <= Max(x.mtu, 0) && (target > 0 ==> target == x.mtu > |x.pkt|)
  {
  }

  /** TargetFrame: shape an Ethernet frame by the IP packet inside it. */
  function TargetFrame(c: Config, t: Table, frame: Packet, mtu: int, now: int): (r: Shaped<Table>)
  {
    if |frame| < 14 || (Be16(frame, 12) != 0x0800 && Be16(frame, 12) != 0x86dd) then Shaped(t, 0)
    else
      var r := Target(c, t, Call(frame[14..], mtu - 14, now));
      if r.target <= 0 then Shaped(r.t, 0) else Shaped(r.t, r.target + 14)
  }

  lemma TargetFrameFits(c: Config, t: Table, frame: Packet, mtu: int, now: int)
    ensures var target := TargetFrame(c, t, frame, mtu, now).target;
      target == 0 || (target == mtu && target > |frame|)
  {
  }

  // ---------- the table as a cache ----------

  /** Nothing in the table is missing that could still matter: a forgotten flow would re-arm anyway. */
  ghost predicate Caches(c: Config, flows: Flows, ref: Flows, now: int)
  {
    && (forall k :: k in flows ==> k in ref && flows[k] == ref[k])
    && (forall k :: k in ref ==> ref[k].lastSeen <= now)
    && (forall k :: k in ref && k !in flows ==> now - ref[k].lastSeen >= c.idle)
  }

  /** The call would not overfill the table. */
  predicate Fits(c: Config, t: Table, x: Call)
  {
    Inactive(c, x.pkt, x.mtu) || KeyOf(x.pkt).value in t.flows || |t.flows| < c.maxFlows
  }

  lemma SameBudget(c: Config, flows: Flows, ref: Flows, before: int, now: int, k: Key)
    requires Caches(c, flows, ref, before) && before <= now
    ensures Budget(c, flows, k, now) == Budget(c, ref, k, now)
  {
  }

  lemma TargetCaches(c: Config, t: Table, ref: Flows, before: int, x: Call)
    requires Usable(c) && Caches(c, t.flows, ref, before) && before <= x.now && Fits(c, t, x)
    ensures Target(c, t, x).target == RefTarget(c, ref, x).target
    ensures Caches(c, Target(c, t, x).t.flows, RefTarget(c, ref, x).t, x.now)
  {
    hide KeyOf;
    if !Inactive(c, x.pkt, x.mtu) {
      SameBudget(c, t.flows, ref, before, x.now, KeyOf(x.pkt).value);
    }
  }

  /** Every decision of a run, and the table it ends in. */
  function Targets(c: Config, calls: seq<Call>): (r: (Table, seq<int>))
  {
    if calls == [] then (Table(map[], 0), [])
    else
      var n := |calls| - 1;
      var (t, ds) := Targets(c, calls[..n]);
      var r := Target(c, t, calls[n]);
      (r.t, ds + [r.target])
  }

  function RefTargets(c: Config, calls: seq<Call>): (r: (Flows, seq<int>))
  {
    if calls == [] then (map[], [])
    else
      var n := |calls| - 1;
      var (t, ds) := RefTargets(c, calls[..n]);
      var r := RefTarget(c, t, calls[n]);
      (r.t, ds + [r.target])
  }

  predicate Monotone(calls: seq<Call>) { forall i, j :: 0 <= i < j < |calls| ==> calls[i].now <= calls[j].now }

  predicate NeverOverflows(c: Config, calls: seq<Call>)
  {
    forall i :: 0 <= i < |calls| ==> Fits(c, Targets(c, calls[..i]).0, calls[i])
  }

  function LastTime(calls: seq<Call>, start: int): (r: int) { if calls == [] then start else calls[|calls| - 1].now }

  lemma {:induction false} RunCaches(c: Config, calls: seq<Call>, start: int)
    requires Usable(c) && Monotone(calls) && NeverOverflows(c, calls)
    requires forall i :: 0 <= i < |calls| ==> start <= calls[i].now
    ensures Targets(c, calls).1 == RefTargets(c, calls).1
    ensures Caches(c, Targets(c, calls).0.flows, RefTargets(c, calls).0, LastTime(calls, start))
    decreases |calls|
  {
    hide Target, RefTarget, Caches, Fits;
    if calls == [] {
      EmptyCaches(c, start);
    } else {
      var n := |calls| - 1;
      assert NeverOverflows(c, calls[..n]) by {
        forall i | 0 <= i < n ensures Fits(c, Targets(c, calls[..n][..i]).0, calls[..n][i]) {
          assert calls[..n][..i] == calls[..i];
        }
      }
      RunCaches(c, calls[..n], start);
      assert Fits(c, Targets(c, calls[..n]).0, calls[n]);
      TargetCaches(c, Targets(c, calls[..n]).0, RefTargets(c, calls[..n]).0, LastTime(calls[..n], start), calls[n]);
    }
  }

  lemma EmptyCaches(c: Config, now: int)
    ensures Caches(c, map[], map[], now)
  {
  }

  /** With a clock that does not go back and no overflow, the sweeping table decides exactly as one that never forgets. */
  lemma SweepIsInvisible(c: Config, calls: seq<Call>)
    requires Usable(c) && Monotone(calls) && NeverOverflows(c, calls)
    ensures Targets(c, calls).1 == RefTargets(c, calls).1
  {
    RunCaches(c, calls, if calls == [] then 0 else calls[0].now);
  }

  /** Even when the table has overflowed, a flow never finds less than the reference's positive budget. */
  ghost predicate Dominates(c: Config, flows: Flows, ref: Flows)
  {
    && (forall k :: k in flows ==> k in ref && flows[k].lastSeen == ref[k].lastSeen
                                   && (ref[k].remaining > 0 ==> flows[k].remaining >= ref[k].remaining))
    && (forall k :: k in ref ==> ref[k].remaining <= c.bytes)
  }

  lemma TargetDominates(c: Config, t: Table, ref: Flows, x: Call)
    requires Dominates(c, t.flows, ref)
    ensures RefTarget(c, ref, x).target > 0 ==> Target(c, t, x).target == RefTarget(c, ref, x).target
    ensures Dominates(c, Target(c, t, x).t.flows, RefTarget(c, ref, x).t)
  {
    hide KeyOf;
  }

  /** In every run, whatever the clock and however often the table overflows, whatever the reference pads is padded. */
  lemma {:induction false} OverflowOnlyPadsMore(c: Config, calls: seq<Call>)
    ensures |Targets(c, calls).1| == |RefTargets(c, calls).1| == |calls|
    ensures forall i :: 0 <= i < |calls| && RefTargets(c, calls).1[i] > 0 ==> Targets(c, calls).1[i] == RefTargets(c, calls).1[i]
    ensures Dominates(c, Targets(c, calls).0.flows, RefTargets(c, calls).0)
    decreases |calls|
  {
    hide Target, RefTarget;
    if calls != [] {
      var n := |calls| - 1;
      OverflowOnlyPadsMore(c, calls[..n]);
      TargetDominates(c, Targets(c, calls[..n]).0, RefTargets(c, calls[..n]).0, calls[n]);
    }
  }

  lemma SweepShrinks(c: Config, flows: Flows, now: int)
    ensures |Sweep(c, flows, now)| <= |flows|
  {
    var r := Sweep(c, flows, now);
    assert r.Keys <= flows.Keys;
    SubsetSize(r.Keys, flows.Keys);
    assert |r| == |r.Keys| && |flows| == |flows.Keys|;
  }

  lemma {:induction false} SubsetSize<T>(a: set<T>, b: set<T>)
    requires a <= b
    ensures |a| <= |b|
    decreases |a|
  {
    if a != {} {
      var x :| x in a;
      SubsetSize(a - {x}, b - {x});
    }
  }

  /** In every run, overflowing or not, the table stays within MaxFlows. */
  lemma {:induction false} TableBounded(c: Config, calls: seq<Call>)
    requires Usable(c)
    ensures |Targets(c, calls).0.flows| <= c.maxFlows
    decreases |calls|
  {
    hide Sweep, Charged, Decision, Inactive;
    if calls != [] {
      var n := |calls| - 1;
      TableBounded(c, calls[..n]);
      var t := Targets(c, calls[..n]).0;
      if !Inactive(c, calls[n].pkt, calls[n].mtu) && KeyOf(calls[n].pkt).Some? {
        var k := KeyOf(calls[n].pkt).value;
        var f := Charged(c, t.flows, k, |calls[n].pkt|, calls[n].mtu, calls[n].now);
        StoreBounded(c, t, k, f);
      } else {
        InactiveKeeps(c, t, calls[n]);
      }
    }
  }

  lemma InactiveKeeps(c: Config, t: Table, x: Call)
    requires Inactive(c, x.pkt, x.mtu) || KeyOf(x.pkt).None?
    ensures Target(c, t, x).t == t
  {
  }

  lemma StoreBounded(c: Config, t: Table, k: Key, f: Flow)
    requires Usable(c) && |t.flows| <= c.maxFlows
    ensures |Store(c, t, k, f).flows| <= c.maxFlows
  {
    hide Sweep;
    var kept: Flows := if k !in t.flows && |t.flows| >= c.maxFlows then map[] else t.flows;
    SweepShrinks(c, kept[k := f], f.lastSeen);
    UpdateSize(kept, k, f);
  }

  lemma UpdateSize(m: Flows, k: Key, f: Flow)
    ensures |m[k := f]| == if k in m then |m| else |m| + 1
  {
    assert m[k := f].Keys == m.Keys + {k};
    assert |m[k := f]| == |m[k := f].Keys| && |m| == |m.Keys|;
  }

  // ---------- the budget ----------

  /** How many packets of flow k have been padded since the table last had no fresh entry for it. */
  function Padded(c: Config, calls: seq<Call>, k: Key): (n: nat)
  {
    if calls == [] then 0
    else
      var i := |calls| - 1;
      var x, flows := calls[i], Targets(c, calls[..i]).0.flows;
      if Inactive(c, x.pkt, x.mtu) || KeyOf(x.pkt).value != k then Padded(c, calls[..i], k)
      else
        (if k in flows && x.now - flows[k].lastSeen < c.idle then Padded(c, calls[..i], k) else 0)
        + (if Decision(c, flows, k, |x.pkt|, x.mtu, x.now) > 0 then 1 else 0)
  }

  /** The octets n padded packets put on the wire. */
  function Octets(n: nat, mtu: nat): (r: nat) { n * mtu }

  lemma OctetsStep(n: nat, mtu: nat)
    ensures Octets(n + 1, mtu) == Octets(n, mtu) + mtu && Octets(0, mtu) == 0
  {
  }

  /** Storing one flow leaves every other one as it was, or forgets it. */
  lemma StoreKeeps(c: Config, t: Table, k: Key, f: Flow, other: Key)
    requires other in Store(c, t, k, f).flows
    ensures if other == k then Store(c, t, k, f).flows[other] == f
            else other in t.flows && Store(c, t, k, f).flows[other] == t.flows[other]
  {
  }

  /** What has been padded since the entry was armed is paid for out of its budget, overflow or not. */
  lemma {:induction false} PaddedCharged(c: Config, calls: seq<Call>, k: Key, mtu: nat)
    requires c.bytes > 0 && mtu > 0 && forall i :: 0 <= i < |calls| ==> calls[i].mtu == mtu
    ensures var flows := Targets(c, calls).0.flows;
      k in flows ==> Octets(Padded(c, calls, k), mtu) <= c.bytes - flows[k].remaining
    ensures Octets(Padded(c, calls, k), mtu) < c.bytes + mtu
    decreases |calls|
  {
    hide KeyOf, Octets, Store;
    OctetsStep(0, mtu);
    if calls != [] {
      var i := |calls| - 1;
      var x, t := calls[i], Targets(c, calls[..i]).0;
      PaddedCharged(c, calls[..i], k, mtu);
      OctetsStep(Padded(c, calls[..i], k), mtu);
      assert x.mtu == mtu;
      if !Inactive(c, x.pkt, x.mtu) && k in Targets(c, calls).0.flows {
        var own := KeyOf(x.pkt).value;
        StoreKeeps(c, t, own, Charged(c, t.flows, own, |x.pkt|, x.mtu, x.now), k);
      }
    }
  }

  /** In every run, between re-arms a flow gets at most ceil(Bytes/mtu) padded packets, under Bytes + mtu octets of padded output. */
  lemma PaddingBounded(c: Config, calls: seq<Call>, k: Key, mtu: nat)
    requires c.bytes > 0 && mtu > 0 && forall i :: 0 <= i < |calls| ==> calls[i].mtu == mtu
    ensures Octets(Padded(c, calls, k), mtu) < c.bytes + mtu
    ensures Padded(c, calls, k) <= (c.bytes + mtu - 1) / mtu
  {
    hide Padded;
    PaddedCharged(c, calls, k, mtu);
    CeilBound(Padded(c, calls, k), c.bytes, mtu);
  }

  lemma CeilBound(n: nat, bytes: nat, mtu: nat)
    requires mtu > 0 && Octets(n, mtu) < bytes + mtu
    ensures n <= (bytes + mtu - 1) / mtu
  {
    var q := (bytes + mtu - 1) / mtu;
    assert bytes + mtu - 1 < q * mtu + mtu;
    assert (q + 1) * mtu == q * mtu + mtu;
    if n > q { Scale(q + 1, n, mtu); }
  }

  lemma Scale(a: nat, b: nat, c: nat)
    requires a <= b
    ensures a * c <= b * c
  {
    assert b * c == a * c + (b - a) * c;
  }

  // ---------- the trim ----------

  /** TrimToIP: cut the plaintext to the length its own header declares; None is nil. */
  function TrimToIP(plain: Packet): (r: Option<Packet>)
  {
    if |plain| == 0 then None
    else if plain[0] / 16 == 4 then
      if |plain| < 20 then None
      else
        var total := Be16(plain, 2);
        if total < 20 || total > |plain| then None else Some(plain[..total])
    else if plain[0] / 16 == 6 then
      if |plain| < 40 then None
      else
        var total := 40 + Be16(plain, 4);
        if total > |plain| then None else Some(plain[..total])
    else None
  }

  /** The packet's own header declares its own length. */
  predicate Truthful(p: Packet)
  {
    && |p| > 0
    && (|| (p[0] / 16 == 4 && |p| >= 20 && Be16(p, 2) == |p|)
        || (p[0] / 16 == 6 && |p| >= 40 && 40 + Be16(p, 4) == |p|))
  }

  /** Padding is inert exactly for packets whose header tells the truth, whatever the filler. */
  lemma TrimUndoesPadding(p: Packet, filler: Packet)
    requires |p| > 0
    ensures TrimToIP(p + filler) == Some(p) <==> Truthful(p)
  {
    var q := p + filler;
    if |p| >= 4 { assert Be16(q, 2) == Be16(p, 2); }
    if |p| >= 6 { assert Be16(q, 4) == Be16(p, 4); }
    assert q[..|p|] == p;
  }

  // ---------- the mutable shaper ----------

  class ShaperTable {
    const cfg: Config
    var flows: Flows
    var since: nat

    constructor (cfg: Config)
      ensures this.cfg == WithDefaults(cfg) && Usable(this.cfg) && Value() == Table(map[], 0)
    {
      this.cfg := WithDefaults(cfg);
      flows, since := map[], 0;
    }

    function Value(): (t: Table)
      reads this
    {
      Table(flows, since)
    }

    /** sweep: delete idle flows while ranging over the map. */
    method SweepIdle(now: int)
      modifies this`flows
      ensures flows == Sweep(cfg, old(flows), now)
    {
      var todo := flows.Keys;
      while todo != {}
        invariant todo <= old(flows).Keys
        invariant forall k :: k in flows <==> k in old(flows) && (k in todo || now - old(flows)[k].lastSeen < cfg.idle)
        invariant forall k :: k in flows ==> flows[k] == old(flows)[k]
        decreases todo
      {
        var k :| k in todo;
        if now - flows[k].lastSeen >= cfg.idle {
          flows := flows - {k};
        }
        todo := todo - {k};
      }
    }

    method StoreFlow(k: Key, f: Flow)
      modifies this
      ensures Value() == Store(cfg, old(Value()), k, f)
    {
      hide Sweep;
      if k !in flows && |flows| >= cfg.maxFlows {
        flows := map[];
      }
      flows := flows[k := f];
      since := since + 1;
      if since >= SWEEP_EVERY {
        since := 0;
        SweepIdle(f.lastSeen);
      }
    }

    method ComputeTarget(pkt: Packet, mtu: int, now: int) returns (target: int)
      modifies this
      ensures Shaped(Value(), target) == Target(cfg, old(Value()), Call(pkt, mtu, now))
    {
      hide Store, KeyOf;
      if cfg.bytes <= 0 || mtu <= 0 {
        return 0;
      }
      var key := KeyOf(pkt);
      if key.None? {
        return 0;
      }
      var st := if key.value in flows then flows[key.value] else Flow(cfg.bytes, now);
      if key.value in flows && now - st.lastSeen >= cfg.idle {
        st := st.(remaining := cfg.bytes);
      }
      st := st.(lastSeen := now);
      var shape := st.remaining > 0;
      if shape {
        st := st.(remaining := st.remaining - Max(|pkt|, mtu));
      }
      StoreFlow(key.value, st);
      if !shape || |pkt| >= mtu {
        return 0;
      }
      return mtu;
    }
  }
}
