/**
 Make-before-break rekeying (ikev2/client.go, rekeyChild): the successor is installed before
 the predecessor is retired, while other tunnels of the same pump come and go in between.
 */
module Rekey {
  import opened Bytes
  import opened Routes
  import opened Registry

  /** cur is session.tunnel under inbound key spi; prev is the predecessor between AddTunnel and RemoveTunnel. */
  datatype Session = Session(reg: Reg, cur: Tunnel, spi: u32, prev: Option<Retiring>)

  datatype Retiring = Retiring(t: Tunnel, spi: u32)

  datatype Event =
    | Install(successor: Tunnel, spi: u32)   // a successful exchange, up to and including AddTunnel
    | Failed                             // RekeyChild or BuildTunnel returned an error, or the session is closing
    | Retire                             // DeleteChildSA was sent; RemoveTunnel of the predecessor
    | Other(op: RegOp)                   // some other tunnel of the pump

  /** What the driver and its surroundings may do next; rekeyMu keeps one rekey at a time. */
  predicate Allowed(s: Session, e: Event)
  {
    match e
    case Install(t, spi) =>
      s.prev.None? && t != s.cur && t.routes == s.cur.routes && ValidTunnel(t) && spi !in s.reg.byKey
    case Failed => true
    case Retire => s.prev.Some? && ValidTunnel(s.prev.value.t)
    case Other(op) => ValidOp(op) && Bystander(s, op)
  }

  /** Another tunnel's registration: it claims none of the session's keys, tunnels or exact prefixes. */
  predicate Bystander(s: Session, op: RegOp)
    requires ValidOp(op)
  {
    && (op.OpDropKey? || (op.t != s.cur && (s.prev.Some? ==> op.t != s.prev.value.t)))
    && (op.OpDrop? || (op.key != s.spi && (s.prev.Some? ==> op.key != s.prev.value.spi)))
    && (op.OpAdd? ==> forall p :: p in s.cur.routes && p.Valid() ==> !Listed(op.t.routes, p))
  }

  function Next(s: Session, e: Event): (s': Session)
    requires Allowed(s, e)
  {
    match e
    case Install(t, spi) => Session(AddTunnel(s.reg, t, spi), t, spi, Some(Retiring(s.cur, s.spi)))
    case Failed => s
    case Retire => s.(reg := RemoveTunnel(s.reg, s.prev.value.t), prev := None)
    case Other(op) => s.(reg := ApplyOp(s.reg, op))
  }

  /** t holds every prefix it claims. */
  predicate Owns(r: Reg, t: Tunnel)
    requires ValidTunnel(t)
  {
    forall p :: p in t.routes ==> Entry(r.routes, p).Some? && Entry(r.routes, p).value.t == t
  }

  predicate Resolves(r: Reg, key: u32, t: Tunnel) { key in r.byKey && r.byKey[key].t == t }

  ghost predicate SessionInv(s: Session)
  {
    && RegInv(s.reg) && ValidTunnel(s.cur)
    && Owns(s.reg, s.cur) && Resolves(s.reg, s.spi, s.cur)
    && (s.prev.Some? ==>
          && s.prev.value.t != s.cur && s.prev.value.spi != s.spi
          && Resolves(s.reg, s.prev.value.spi, s.prev.value.t) && ValidTunnel(s.prev.value.t))
  }

  lemma InstallKeeps(s: Session, t: Tunnel, spi: u32)
    requires SessionInv(s) && Allowed(s, Install(t, spi))
    ensures SessionInv(Next(s, Install(t, spi)))
  {
    hide Entry, RegInv, WithCounters, Listed;
    AddTunnelKeeps(s.reg, t, spi);
    var r1 := WithCounters(s.reg, t);
    WithCountersKeeps(s.reg, t);
    forall p | p in t.routes ensures Entry(AddTunnel(s.reg, t, spi).routes, p) == Some(Bind(t, r1.stats[t])) {
      EntryAfterInsertAll(r1.routes, t.routes, Bind(t, r1.stats[t]), p);
      OwnPrefixListed(t.routes, p);
    }
  }

  lemma OwnPrefixListed(ps: seq<Prefix>, p: Prefix)
    requires p in ps && forall q :: q in ps ==> q.Valid()
    ensures Listed(ps, p)
  {
    var i :| 0 <= i < |ps| && ps[i] == p;
    assert ps[i].Masked() == p.Masked();
  }

  lemma RetireKeeps(s: Session)
    requires SessionInv(s) && Allowed(s, Retire)
    ensures SessionInv(Next(s, Retire))
  {
    hide Entry, RegInv, Listed, RemoveTunnel;
    RemoveTunnelKeeps(s.reg, s.prev.value.t);
    RemoveTunnelExact(s.reg, s.prev.value.t);
  }

  lemma OtherKeeps(s: Session, op: RegOp)
    requires SessionInv(s) && Allowed(s, Other(op))
    ensures SessionInv(Next(s, Other(op)))
  {
    hide Entry, RegInv, Listed, RemoveTunnel, WithCounters, InsertAll;
    ApplyOpKeeps(s.reg, op);
    match op
    case OpAdd(t, key) =>
      var r1 := WithCounters(s.reg, t);
      WithCountersKeeps(s.reg, t);
      forall p | p in s.cur.routes ensures Entry(AddTunnel(s.reg, t, key).routes, p) == Entry(s.reg.routes, p) {
        EntryAfterInsertAll(r1.routes, t.routes, Bind(t, r1.stats[t]), p);
      }
    case OpDrop(t) => RemoveTunnelExact(s.reg, t);
    case OpAddKey(key, t) => WithCountersKeeps(s.reg, t);
    case OpDropKey(key) =>
  }

  lemma NextKeeps(s: Session, e: Event)
    requires SessionInv(s) && Allowed(s, e)
    ensures SessionInv(Next(s, e)) && Next(s, e).cur.routes == s.cur.routes
  {
    hide SessionInv;
    match e
    case Install(t, spi) => InstallKeeps(s, t, spi);
    case Failed =>
    case Retire => RetireKeeps(s);
    case Other(op) => OtherKeeps(s, op);
  }

  /** s' is reached from s by the given events. */
  predicate Reaches(s: Session, run: seq<Event>, s': Session)
    decreases |run|
  {
    if run == [] then s' == s
    else Allowed(s, run[0]) && Reaches(Next(s, run[0]), run[1..], s')
  }

  lemma {:induction false} RunKeeps(s: Session, run: seq<Event>, s': Session)
    requires SessionInv(s) && Reaches(s, run, s')
    ensures SessionInv(s') && s'.cur.routes == s.cur.routes
    decreases |run|
  {
    hide SessionInv, Allowed, Next;
    if run != [] {
      NextKeeps(s, run[0]);
      RunKeeps(Next(s, run[0]), run[1..], s');
    }
  }

  /** An entry at a prefix containing a makes the lookup of a succeed. */
  lemma CoveredLookup<V>(t: RouteTable<V>, p: Prefix, a: Addr)
    requires p.Valid() && a.Valid() && p.Contains(a) && Entry(t, p).Some?
    ensures Lookup(t, a).Some?
  {
    hide Shl, Shr, Get, Bit;
    var path := Path(a, a.Width());
    WalkIsBest(Root(t, a), path, None);
    PathsIffTops(a, p.addr, p.bits);
    assert path[..p.bits] == Path(a, p.bits) == Path(p.addr, p.bits);
  }

  /**
   No packet is ever without an SA: in every view published over any number of rekeys, every
   destination the tunnel's prefixes cover is routed, the current inbound key resolves to the
   current tunnel, the predecessor's key resolves to the predecessor until it is retired, and
   the current tunnel holds all the prefixes.
   */
  lemma NeverUnrouted(s: Session, run: seq<Event>, s': Session, p: Prefix, a: Addr)
    requires SessionInv(s) && Reaches(s, run, s')
    requires p in s.cur.routes && p.Valid() && a.Valid() && p.Contains(a)
    ensures Lookup(s'.reg.routes, a).Some?
    ensures ValidTunnel(s'.cur) && Owns(s'.reg, s'.cur) && Resolves(s'.reg, s'.spi, s'.cur)
    ensures s'.prev.Some? ==> Resolves(s'.reg, s'.prev.value.spi, s'.prev.value.t)
  {
    hide Lookup, Entry, Reaches;
    RunKeeps(s, run, s');
    CoveredLookup(s'.reg.routes, p, a);
  }

  /** Nothing of t is left: no key, no prefix and no counter block. */
  ghost predicate Gone(r: Reg, t: Tunnel)
  {
    && (forall k :: k in r.byKey ==> r.byKey[k].t != t)
    && (forall q: Prefix :: q.Valid() && Entry(r.routes, q).Some? ==> Entry(r.routes, q).value.t != t)
    && t !in r.stats
  }

  lemma RetireRemoves(s: Session)
    requires SessionInv(s) && Allowed(s, Retire)
    ensures Gone(Next(s, Retire).reg, s.prev.value.t)
  {
    hide Entry, RegInv, Listed, RemoveTunnel;
    RemoveTunnelExact(s.reg, s.prev.value.t);
  }

  /** Failures and other tunnels only. */
  predicate Meanwhile(run: seq<Event>) { forall e :: e in run ==> e.Failed? || e.Other? }

  lemma {:induction false} MeanwhileKeeps(s: Session, run: seq<Event>, s': Session)
    requires Reaches(s, run, s') && Meanwhile(run)
    ensures s'.cur == s.cur && s'.spi == s.spi && s'.prev == s.prev
    decreases |run|
  {
    hide Allowed, ApplyOp;
    if run != [] {
      assert run[0] in run;
      MeanwhileKeeps(Next(s, run[0]), run[1..], s');
    }
  }

  /**
   A whole rekey, whatever happens to other tunnels between its two halves: the successor answers to its own key
   throughout and ends up with every prefix, the predecessor's key keeps working until it is retired, and then
   nothing of the predecessor is left.
   */
  lemma RekeyReplaces(s: Session, t: Tunnel, spi: u32, mid: seq<Event>, s': Session)
    requires SessionInv(s) && Allowed(s, Install(t, spi)) && Meanwhile(mid) && Reaches(Next(s, Install(t, spi)), mid, s')
    ensures SessionInv(s') && Resolves(s'.reg, spi, t) && Resolves(s'.reg, s.spi, s.cur) && Allowed(s', Retire)
    ensures var end := Next(s', Retire);
      end.cur == t && end.spi == spi && end.prev.None? && Owns(end.reg, t) && Resolves(end.reg, spi, t) && Gone(end.reg, s.cur)
  {
    hide Entry, RegInv, AddTunnel, RemoveTunnel, Reaches, Gone;
    InstallKeeps(s, t, spi);
    MeanwhileKeeps(Next(s, Install(t, spi)), mid, s');
    RunKeeps(Next(s, Install(t, spi)), mid, s');
    RetireKeeps(s');
    RetireRemoves(s');
  }

  /** The first AddTunnel of a session establishes the invariant the rekeys keep. */
  lemma FirstInstall(reg: Reg, t: Tunnel, spi: u32)
    requires RegInv(reg) && ValidTunnel(t)
    ensures SessionInv(Session(AddTunnel(reg, t, spi), t, spi, None))
  {
    hide Entry, RegInv, WithCounters, Listed;
    AddTunnelKeeps(reg, t, spi);
    WithCountersKeeps(reg, t);
    var r1 := WithCounters(reg, t);
    forall p | p in t.routes ensures Entry(AddTunnel(reg, t, spi).routes, p) == Some(Bind(t, r1.stats[t])) {
      EntryAfterInsertAll(r1.routes, t.routes, Bind(t, r1.stats[t]), p);
      OwnPrefixListed(t.routes, p);
    }
  }
}
