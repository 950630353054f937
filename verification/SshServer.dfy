/**
 Address ownership on the SSH tunnel server (ssh/server.go): a client's address is learned from
 its first acceptable packet, and routes replies back to it until its channel closes.
 */
module SshServer {
  import opened Bytes

  type Id = nat

  /** The tunnel subnet lo..hi with its gateway, as AddrPool lays it out. */
  datatype Net = Net(lo: u32, hi: u32, gateway: u32) {
    predicate Valid() { lo + 3 <= hi && gateway == lo + 1 }

    predicate Contains(a: u32) { lo <= a <= hi }
  }

  /** ipv4Src and ipv4Dst. */
  function AddrIn(p: Packet, off: nat): (a: Option<u32>)
    requires off + 4 <= 20
  {
    if |p| < 20 || p[0] / 16 != 4 then None else Some(Be32(p, off))
  }

  // ---------- one packet of one channel ----------

  datatype Bound = Bound(clients: map<u32, Id>, ip: u32, ok: bool)

  /** bind: give the client the address unless another live connection holds it. */
  function Bind(clients: map<u32, Id>, id: Id, ip: u32, src: u32): (r: Bound)
  {
    if src in clients && clients[src] != id then Bound(clients, ip, false) else Bound(clients[src := id], src, true)
  }

  /** The body of serveTunnel's loop; ip 0 means no address learned yet, ok that the packet went to the TUN. */
  function Serve(net: Net, clients: map<u32, Id>, id: Id, ip: u32, src: Option<u32>): (r: Bound)
  {
    if src.None? then Bound(clients, ip, false)
    else if ip == 0 then
      if !net.Contains(src.value) || src.value == net.gateway then Bound(clients, ip, false)
      else
        var b := Bind(clients, id, ip, src.value);
        b.(ok := b.ok && src.value == b.ip)
    else Bound(clients, ip, src.value == ip)
  }

  /** sshClient.close's effect on the table. */
  function Unbind(clients: map<u32, Id>, id: Id, ip: u32): (r: map<u32, Id>)
  {
    if ip != 0 && ip in clients && clients[ip] == id then clients - {ip} else clients
  }

  // ---------- whole runs ----------

  /** A packet written to the TUN: who sent it and the source address it carries. */
  datatype Written = Written(id: Id, src: u32)

  /** ips remembers every channel's learned address, live marks the channels still open. */
  datatype Server = Server(clients: map<u32, Id>, ips: map<Id, u32>, live: set<Id>, out: seq<Written>)

  const FRESH := Server(map[], map[], {}, [])

  datatype Event =
    | Open(id: Id)                         // a new tunnel channel, never an identity used before
    | Receive(id: Id, src: Option<u32>)    // one packet off that channel
    | Close(id: Id)

  predicate Enabled(s: Server, e: Event)
  {
    match e
    case Open(id) => id !in s.ips
    case Receive(id, _) => id in s.live && id in s.ips
    case Close(id) => id in s.live && id in s.ips
  }

  function Next(net: Net, s: Server, e: Event): (r: Server)
    requires Enabled(s, e)
  {
    match e
    case Open(id) => s.(ips := s.ips[id := 0], live := s.live + {id})
    case Receive(id, src) =>
      var b := Serve(net, s.clients, id, s.ips[id], src);
      Server(b.clients, s.ips[id := b.ip], s.live, if b.ok then s.out + [Written(id, src.value)] else s.out)
    case Close(id) => s.(clients := Unbind(s.clients, id, s.ips[id]), live := s.live - {id})
  }

  function Run(net: Net, events: seq<Event>): (r: Option<Server>)
  {
    if events == [] then Some(FRESH)
    else
      match Run(net, events[..|events| - 1])
      case None => None
      case Some(s) => if Enabled(s, events[|events| - 1]) then Some(Next(net, s, events[|events| - 1])) else None
  }

  /** A learned address is a pool host other than the gateway. */
  predicate Learned(net: Net, a: u32) { net.Contains(a) && a != net.gateway && a != 0 }

  /**
   Live clients hold distinct pool addresses, the table routes each address to its holder, and every
   write carried its writer's address. 0.0.0.0, which also means unlearned, stands apart: only a
   subnet that contains it can have it in the table or in a written packet.
   */
  ghost predicate Owned(net: Net, s: Server)
  {
    && s.live <= s.ips.Keys
    && (forall id :: id in s.ips && s.ips[id] != 0 ==> Learned(net, s.ips[id]))
    && (forall id :: id in s.live && s.ips[id] != 0 ==> s.ips[id] in s.clients && s.clients[s.ips[id]] == id)
    && (forall a :: a in s.clients && a != 0 ==> s.clients[a] in s.live && s.ips[s.clients[a]] == a)
    && (0 in s.clients ==> net.Contains(0))
    && (forall i :: 0 <= i < |s.out| ==>
          s.out[i].id in s.ips && if s.out[i].src == 0 then net.Contains(0) else s.ips[s.out[i].id] == s.out[i].src)
  }

  lemma NextOwned(net: Net, s: Server, e: Event)
    requires Owned(net, s) && Enabled(s, e)
    ensures Owned(net, Next(net, s, e))
    ensures forall id :: id in s.ips && s.ips[id] != 0 ==> Next(net, s, e).ips[id] == s.ips[id]
  {
    hide Serve, Unbind;
    match e
    case Open(id) =>
    case Receive(id, src) => ReceiveOwned(net, s, id, src);
    case Close(id) => CloseOwned(net, s, id);
  }

  lemma ReceiveOwned(net: Net, s: Server, id: Id, src: Option<u32>)
    requires Owned(net, s) && id in s.live && id in s.ips
    ensures Owned(net, Next(net, s, Receive(id, src)))
    ensures s.ips[id] != 0 ==> Serve(net, s.clients, id, s.ips[id], src).ip == s.ips[id]
  {
    if src.Some? && s.ips[id] == 0 {
      BindOwned(net, s, id, src.value);
    }
  }

  /** The packet that teaches an address. */
  lemma BindOwned(net: Net, s: Server, id: Id, src: u32)
    requires Owned(net, s) && id in s.live && id in s.ips && s.ips[id] == 0
    ensures Owned(net, Next(net, s, Receive(id, Some(src))))
  {
    var b := Serve(net, s.clients, id, 0, Some(src));
    if b.ok {
      TaughtOwned(net, s, id, src);
    } else {
      assert b.clients == s.clients && b.ip == 0;
      assert s.ips[id := 0] == s.ips;
    }
  }

  lemma TaughtOwned(net: Net, s: Server, id: Id, src: u32)
    requires Owned(net, s) && id in s.live && id in s.ips && s.ips[id] == 0
    requires net.Contains(src) && src != net.gateway && (src in s.clients ==> s.clients[src] == id)
    ensures Owned(net, Server(s.clients[src := id], s.ips[id := src], s.live, s.out + [Written(id, src)]))
  {
  }

  lemma CloseOwned(net: Net, s: Server, id: Id)
    requires Owned(net, s) && id in s.live && id in s.ips
    ensures Owned(net, Next(net, s, Close(id)))
  {
  }

  lemma {:induction false} RunOwned(net: Net, events: seq<Event>)
    requires Run(net, events).Some?
    ensures Owned(net, Run(net, events).value)
    decreases |events|
  {
    hide Owned, Next, Enabled;
    if events == [] {
      FreshOwned(net);
    } else {
      RunOwned(net, events[..|events| - 1]);
      NextOwned(net, Run(net, events[..|events| - 1]).value, events[|events| - 1]);
    }
  }

  lemma FreshOwned(net: Net)
    ensures Owned(net, FRESH)
  {
  }

  /**
   In every run two live clients never share an address, a live client that has one is routed to,
   and every table entry names the live client that holds it, but for the entry of 0.0.0.0.
   */
  lemma AddressesAreDistinct(net: Net, events: seq<Event>, x: Id, y: Id, dst: u32)
    requires Run(net, events).Some?
    ensures var s := Run(net, events).value;
      && (x in s.live && y in s.live && x in s.ips && y in s.ips && s.ips[x] == s.ips[y] != 0 ==> x == y)
      && (x in s.live && x in s.ips && s.ips[x] == dst != 0 ==> dst in s.clients && s.clients[dst] == x)
      && (dst in s.clients ==> HeldLive(s, dst) || (dst == 0 && net.Contains(0)))
  {
    hide Run;
    RunOwned(net, events);
  }

  /** The table sends dst to a live client that holds it. */
  predicate HeldLive(s: Server, dst: u32)
    requires dst in s.clients
  {
    var id := s.clients[dst];
    id in s.live && id in s.ips && s.ips[id] == dst
  }

  predicate TableLive(s: Server) { forall a :: a in s.clients ==> HeldLive(s, a) }

  /** No table entry outlives its client, in any run, exactly when the subnet leaves out 0.0.0.0. */
  lemma TableLiveIffZeroOutside(net: Net)
    requires net.Valid()
    ensures (forall events :: Run(net, events).Some? ==> TableLive(Run(net, events).value)) <==> !net.Contains(0)
  {
    hide Run, Owned;
    if !net.Contains(0) {
      forall events | Run(net, events).Some? ensures TableLive(Run(net, events).value) {
        RunOwned(net, events);
        OwnedIsLive(net, Run(net, events).value);
      }
    } else {
      ZeroOutlives(net);
    }
  }

  lemma OwnedIsLive(net: Net, s: Server)
    requires Owned(net, s) && !net.Contains(0)
    ensures TableLive(s)
  {
  }

  /** With 0.0.0.0 inside, its entry stays behind when the client that sent as it is gone. */
  lemma ZeroOutlives(net: Net)
    requires net.Valid() && net.Contains(0)
    ensures var events := [Open(1), Receive(1, Some(0)), Close(1)];
      && Run(net, events).Some? && 0 in Run(net, events).value.clients && Run(net, events).value.clients[0] == 1
      && Run(net, events).value.live == {} && !TableLive(Run(net, events).value)
  {
    var e0, e1, e2 := Open(1), Receive(1, Some(0)), Close(1);
    assert [e0, e1, e2][..2] == [e0, e1] && [e0, e1][..1] == [e0] && [e0][..0] == [];
    var s1 := Next(net, FRESH, e0);
    assert Run(net, [e0]) == Some(s1);
    var s2 := Next(net, s1, e1);
    assert Run(net, [e0, e1]) == Some(s2) && s2.clients == map[0 := 1] && s2.ips[1] == 0;
    var s3 := Next(net, s2, e2);
    assert Run(net, [e0, e1, e2]) == Some(s3) && s3.clients == map[0 := 1] && s3.live == {};
  }

  /** id may send as src: the address is its own, or it has none yet and src is a pool host that no live client holds. */
  ghost predicate MaySendAs(net: Net, s: Server, id: Id, src: u32)
    requires id in s.ips
  {
    && src != 0
    && (|| s.ips[id] == src
        || (s.ips[id] == 0 && net.Contains(src) && src != net.gateway
            && forall y :: y in s.live && y in s.ips ==> s.ips[y] != src))
  }

  /**
   In every run a packet from a live client is written, and its source becomes the client's address, if and only
   if the client may send as it; any other packet changes nothing. 0.0.0.0 in a subnet that contains it stands apart.
   */
  lemma WrittenIff(net: Net, events: seq<Event>, id: Id, src: Option<u32>)
    requires Run(net, events).Some? && id in Run(net, events).value.live && id in Run(net, events).value.ips
    requires src == Some(0) ==> !net.Contains(0)
    ensures var s := Run(net, events).value;
      Next(net, s, Receive(id, src)) ==
        if src.Some? && MaySendAs(net, s, id, src.value) then
          s.(clients := s.clients[src.value := id], ips := s.ips[id := src.value], out := s.out + [Written(id, src.value)])
        else s
  {
    hide Run;
    RunOwned(net, events);
    var s := Run(net, events).value;
    assert s.ips[id := s.ips[id]] == s.ips;
    if s.ips[id] != 0 {
      assert s.clients[s.ips[id] := id] == s.clients;
    }
  }

  /** Every packet a channel has had written carries one and the same source address. */
  predicate OneAddressEach(s: Server)
  {
    forall i, j :: 0 <= i < |s.out| && 0 <= j < |s.out| && s.out[i].id == s.out[j].id ==> s.out[i].src == s.out[j].src
  }

  /** A client's address stays fixed in every run exactly when the subnet leaves out 0.0.0.0, the value that means unlearned. */
  lemma FixedIffZeroOutside(net: Net)
    requires net.Valid()
    ensures (forall events :: Run(net, events).Some? ==> OneAddressEach(Run(net, events).value)) <==> !net.Contains(0)
  {
    hide Run, Owned;
    if !net.Contains(0) {
      forall events | Run(net, events).Some? ensures OneAddressEach(Run(net, events).value) {
        RunOwned(net, events);
        OwnedIsOneAddress(net, Run(net, events).value);
      }
    } else {
      ZeroRebinds(net);
    }
  }

  lemma OwnedIsOneAddress(net: Net, s: Server)
    requires Owned(net, s) && !net.Contains(0)
    ensures OneAddressEach(s)
  {
  }

  /** With 0.0.0.0 inside, a client that first sends as 0.0.0.0 may then take a second address. */
  lemma ZeroRebinds(net: Net)
    requires net.Valid() && net.Contains(0)
    ensures var events := [Open(1), Receive(1, Some(0)), Receive(1, Some(2))];
      Run(net, events).Some? && !OneAddressEach(Run(net, events).value)
  {
    var e0, e1, e2 := Open(1), Receive(1, Some(0)), Receive(1, Some(2));
    assert [e0, e1, e2][..2] == [e0, e1] && [e0, e1][..1] == [e0] && [e0][..0] == [];
    var s1 := Next(net, FRESH, e0);
    assert Run(net, [e0]) == Some(s1);
    var s2 := Next(net, s1, e1);
    assert Run(net, [e0, e1]) == Some(s2) && s2.out == [Written(1, 0)];
    var s3 := Next(net, s2, e2);
    assert Run(net, [e0, e1, e2]) == Some(s3) && s3.out == [Written(1, 0), Written(1, 2)];
    assert s3.out[0].id == s3.out[1].id && s3.out[0].src != s3.out[1].src;
  }

  // ---------- the mutable server ----------

  class SshClient {
    const id: Id
    var ip: u32

    constructor (id: Id)
      ensures this.id == id && ip == 0
    {
      this.id := id;
      ip := 0;
    }
  }

  /** The server's table and TUN; log is the run they are the outcome of. */
  class TunnelServer {
    const net: Net
    var clients: map<u32, Id>
    var tun: seq<Written>
    ghost var log: Server

    ghost predicate Valid()
      reads this
    {
      clients == log.clients && tun == log.out && Owned(net, log)
    }

    /** cl is an open channel of this server. */
    ghost predicate Serves(cl: SshClient)
      reads this, cl
    {
      cl.id in log.live && cl.id in log.ips && log.ips[cl.id] == cl.ip
    }

    constructor (net: Net)
      ensures this.net == net && log == FRESH && Valid()
    {
      this.net := net;
      clients, tun, log := map[], [], FRESH;
    }

    method OpenClient(id: Id) returns (cl: SshClient)
      requires Valid() && id !in log.ips
      modifies this`log
      ensures Valid() && fresh(cl) && cl.id == id && Serves(cl) && log == Next(net, old(log), Open(id))
    {
      NextOwned(net, log, Open(id));
      cl := new SshClient(id);
      log := Next(net, log, Open(id));
    }

    method BindClient(cl: SshClient, src: u32) returns (ok: bool)
      modifies this`clients, cl
      ensures Bound(clients, cl.ip, ok) == Bind(old(clients), cl.id, old(cl.ip), src)
    {
      if src in clients && clients[src] != cl.id {
        return false;
      }
      cl.ip := src;
      clients := clients[src := cl.id];
      return true;
    }

    /** One turn of serveTunnel's loop: the next step of the run, which keeps every address with its owner. */
    method ServePacket(cl: SshClient, pkt: Packet)
      requires Valid() && Serves(cl)
      modifies this, cl
      ensures Valid() && Serves(cl) && log == Next(net, old(log), Receive(cl.id, AddrIn(pkt, 12)))
    {
      hide AddrIn, Owned;
      var src := AddrIn(pkt, 12);
      NextOwned(net, log, Receive(cl.id, src));
      log := Next(net, log, Receive(cl.id, src));
      if src.None? {
        return;
      }
      if cl.ip == 0 {
        if !net.Contains(src.value) || src.value == net.gateway {
          return;
        }
        var ok := BindClient(cl, src.value);
        if !ok {
          return;
        }
      }
      if src.value != cl.ip {
        return;
      }
      tun := tun + [Written(cl.id, src.value)];
    }

    /** sshClient.close: the channel's address is free for others again, and nobody else's is touched. */
    method CloseClient(cl: SshClient)
      requires Valid() && Serves(cl)
      modifies this
      ensures Valid() && log == Next(net, old(log), Close(cl.id))
      ensures cl.ip != 0 ==> cl.ip !in clients
      ensures forall a :: a in old(clients) && old(clients)[a] != cl.id ==> a in clients && clients[a] == old(clients)[a]
    {
      NextOwned(net, log, Close(cl.id));
      log := Next(net, log, Close(cl.id));
      if cl.ip != 0 {
        if cl.ip in clients && clients[cl.ip] == cl.id {
          clients := clients - {cl.ip};
        }
      }
    }

    /**
     tunLoop's routing decision: the one live client that holds the packet's destination, or nobody
     when none does; for 0.0.0.0 whoever last sent as it, which only a subnet that contains it allows.
     */
    method RouteReply(pkt: Packet) returns (to: Option<Id>)
      requires Valid()
      ensures var dst := AddrIn(pkt, 16);
        && (dst.None? ==> to.None?)
        && (dst.Some? && dst.value != 0 ==> forall id :: id in log.live && id in log.ips ==> (to == Some(id) <==> log.ips[id] == dst.value))
        && (to.Some? && dst.Some? && dst.value != 0 ==> to.value in log.live && to.value in log.ips)
        && (dst == Some(0) ==> (to.Some? <==> 0 in log.clients) && (to.Some? ==> to.value == log.clients[0] && net.Contains(0)))
    {
      hide AddrIn;
      var dst := AddrIn(pkt, 16);
      if dst.None? || dst.value !in clients {
        return None;
      }
      return Some(clients[dst.value]);
    }
  }
}
