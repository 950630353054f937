/**
 Whole runs of the pump (dataplane/pump.go, dataplane/counters.go): registrations, inbound datagrams
 and outbound packets interleaved at will, each path working from the snapshot it last loaded.
 */
module PumpRuns {
  import opened Bytes
  import opened Routes
  import opened Registry
  import opened Inbound
  import opened InboundExact
  import opened Egress
  import opened EgressExact
  import S = Shaper

  /** The pump, the snapshots its two packet paths hold, and everything handed to the TUN and the wire. */
  datatype World<!E> = World(
    reg: Reg, drops: Drops, peers: map<Tunnel, Endpoint>, lastInbound: nat,
    view: map<u32, Bound>, delivered: seq<Delivery>,
    snap: RouteTable<Bound>, shaper: S.Table, engines: E, sent: seq<Sent>, replies: seq<Packet>)

  datatype Event<!E> =
    | Register(op: RegOp)                       // any registration change, on another goroutine
    | Load                                      // the inbound path picks up the published snapshot
    | Receive(d: Datagram, now: nat)
    | LoadOut                                   // the outbound path picks up the published snapshot
    | Send(env: Env<E>, pkt: Packet, at: int)

  function InPump<E>(w: World<E>): (p: Pump) { Pump(w.reg, w.drops, w.peers, w.lastInbound) }

  /** The outbound path sees the counters of the moment and the routes of its snapshot. */
  function OutPump<E>(w: World<E>): (p: Outbound<E>)
  {
    Outbound(w.reg.(routes := w.snap), w.drops, w.shaper, w.engines, w.sent, w.replies)
  }

  predicate Enabled<E>(e: Event<E>) { e.Register? ==> ValidOp(e.op) }

  function Received<E>(w: World<E>, d: Datagram, now: nat): (r: World<E>)
    requires WellBoundView(w.view)
  {
    var h := Handle(InPump(w), w.view, d, now);
    w.(reg := h.p.reg, drops := h.p.drops, peers := h.p.peers, lastInbound := h.p.lastInbound, delivered := w.delivered + h.out)
  }

  function Routed<E>(w: World<E>, env: Env<E>, pkt: Packet, at: int): (r: World<E>)
  {
    var o := RouteOutbound(env, OutPump(w), pkt, at);
    w.(reg := o.reg.(routes := w.reg.routes), drops := o.drops, shaper := o.shaper, engines := o.engines,
       sent := o.sent, replies := o.replies)
  }

  function Next<E>(w: World<E>, e: Event<E>): (r: World<E>)
    requires WellBoundView(w.view) && Enabled(e)
  {
    match e
    case Register(op) => w.(reg := ApplyOp(w.reg, op))
    case Load => w.(view := w.reg.byKey)
    case Receive(d, now) => Received(w, d, now)
    case LoadOut => w.(snap := w.reg.routes)
    case Send(env, pkt, at) => Routed(w, env, pkt, at)
  }

  ghost predicate WorldInv<E>(w: World<E>) { RegInv(w.reg) && WellBoundView(w.view) && AllHonest(w.delivered) }

  /** Routes do not enter into the totals. */
  lemma RoutesDoNotCount(r: Reg, routes: RouteTable<Bound>)
    requires BlocksDistinct(r)
    ensures BlocksDistinct(r.(routes := routes)) && Total(r.(routes := routes)) == Total(r)
    ensures forall c :: Live(r.(routes := routes), c) == Live(r, c)
  {
    hide LiveSum, Plus;
  }

  /** The law of one event, in both directions at once. */
  ghost function UnitsIn<E>(w: World<E>, e: Event<E>): (n: nat) { if e.Receive? then Units(w.view, e.d) else 0 }

  ghost function LostIn<E>(w: World<E>, e: Event<E>): (n: nat)
    requires WellBoundView(w.view)
  {
    if e.Receive? then Lost(w.reg, w.view, e.d) else 0
  }

  function UnitsOut<E>(e: Event<E>): (n: nat) { if e.Send? then 1 else 0 }

  ghost function LostOut<E>(w: World<E>, e: Event<E>): (n: nat)
  {
    if e.Send? then TxLost(e.env, OutPump(w), e.pkt, e.at) else 0
  }

  /** Packets in the pump-wide total plus the drops of each direction. */
  ghost function RxSide<E>(w: World<E>): (n: nat)
    requires BlocksDistinct(w.reg)
  {
    Total(w.reg).rxPackets + RxDrops(w.drops)
  }

  ghost function TxSide<E>(w: World<E>): (n: nat)
    requires BlocksDistinct(w.reg)
  {
    Total(w.reg).txPackets + TxDrops(w.drops)
  }

  ghost predicate Law<E>(w: World<E>, e: Event<E>, w': World<E>)
    requires WellBoundView(w.view)
  {
    && BlocksDistinct(w.reg) && BlocksDistinct(w'.reg) && AtLeast(Total(w'.reg), Total(w.reg))
    && RxSide(w') + LostIn(w, e) == RxSide(w) + UnitsIn(w, e)
    && TxSide(w') + LostOut(w, e) == TxSide(w) + UnitsOut(e)
  }

  lemma ReceivedKeeps<E>(w: World<E>, d: Datagram, now: nat)
    requires WorldInv(w)
    ensures WorldInv(Received(w, d, now)) && Law(w, Receive(d, now), Received(w, d, now))
  {
    hide RegInv, Handle, Honest, OnlyCells, Total, Lost, Units, BlocksDistinct;
    var h := Handle(InPump(w), w.view, d, now);
    HandleHonest(InPump(w), w.view, d, now);
    HandleOnlyCounts(InPump(w), w.view, d, now);
    OnlyCellsKeeps(h.p.reg, w.reg);
    BlocksOfInv(w.reg);
    HandleAccounts(InPump(w), w.view, d, now);
    HandleTouchesNoTx(InPump(w), w.view, d, now);
  }

  lemma RoutedKeeps<E>(w: World<E>, env: Env<E>, pkt: Packet, at: int)
    requires WorldInv(w)
    ensures WorldInv(Routed(w, env, pkt, at)) && Law(w, Send(env, pkt, at), Routed(w, env, pkt, at))
  {
    hide RegInv, RouteOutbound, Honest, Total, TxLost, BlocksDistinct, Live, OnlyCells;
    BlocksOfInv(w.reg);
    RoutesDoNotCount(w.reg, w.snap);
    var p := OutPump(w);
    OutboundConserves(env, p, pkt, at);
    var r := RouteOutbound(env, p, pkt, at).reg;
    RoutesDoNotCount(r, w.reg.routes);
    BackOnRoutes(w.reg, w.snap, r);
    OnlyCellsKeeps(r.(routes := w.reg.routes), w.reg);
  }

  lemma BackOnRoutes(r: Reg, snap: RouteTable<Bound>, after: Reg)
    requires OnlyCells(after, r.(routes := snap))
    ensures OnlyCells(after.(routes := r.routes), r)
  {
  }

  lemma NextKeeps<E>(w: World<E>, e: Event<E>)
    requires WorldInv(w) && Enabled(e)
    ensures WorldInv(Next(w, e)) && Law(w, e, Next(w, e))
  {
    hide RegInv, Received, Routed, ApplyOp, Honest, Total, BlocksDistinct;
    BlocksOfInv(w.reg);
    match e
    case Register(op) =>
      ApplyOpKeepsTotal(w.reg, op);
      BlocksOfInv(ApplyOp(w.reg, op));
    case Load => RegisteredIsWellBound(w.reg);
    case Receive(d, now) => ReceivedKeeps(w, d, now);
    case LoadOut =>
    case Send(env, pkt, at) => RoutedKeeps(w, env, pkt, at);
  }

  // ---------- over runs ----------

  ghost predicate Reaches<E(!new)>(w: World<E>, run: seq<Event<E>>, w': World<E>)
    requires WellBoundView(w.view)
    decreases |run|
  {
    if run == [] then w' == w
    else
      Enabled(run[0]) && WellBoundView(Next(w, run[0]).view) && Reaches(Next(w, run[0]), run[1..], w')
  }

  /** Sums over a run of what its events bring and lose. */
  datatype Tally = Tally(unitsIn: nat, lostIn: nat, unitsOut: nat, lostOut: nat)

  ghost function TallyOf<E(!new)>(w: World<E>, run: seq<Event<E>>): (t: Tally)
    requires WellBoundView(w.view)
    decreases |run|
  {
    if run == [] || !Enabled(run[0]) || !WellBoundView(Next(w, run[0]).view) then Tally(0, 0, 0, 0)
    else
      var t := TallyOf(Next(w, run[0]), run[1..]);
      Tally(t.unitsIn + UnitsIn(w, run[0]), t.lostIn + LostIn(w, run[0]),
            t.unitsOut + UnitsOut(run[0]), t.lostOut + LostOut(w, run[0]))
  }

  /**
   Over every interleaving: each direction's packets are accounted for except exactly those counted
   on a retired block, so the books balance if and only if there is none; no total ever falls; and
   every delivery passed its tunnel's source check.
   */
  lemma {:induction false} RunConserves<E(!new)>(w: World<E>, run: seq<Event<E>>, w': World<E>)
    requires WorldInv(w) && Reaches(w, run, w')
    ensures WorldInv(w') && BlocksDistinct(w.reg) && BlocksDistinct(w'.reg) && AtLeast(Total(w'.reg), Total(w.reg))
    ensures var t := TallyOf(w, run);
      && RxSide(w') + t.lostIn == RxSide(w) + t.unitsIn
      && TxSide(w') + t.lostOut == TxSide(w) + t.unitsOut
      && (RxSide(w') == RxSide(w) + t.unitsIn <==> t.lostIn == 0)
      && (TxSide(w') == TxSide(w) + t.unitsOut <==> t.lostOut == 0)
    decreases |run|
  {
    hide RegInv, Honest, Next, Total, BlocksDistinct, UnitsIn, LostIn, UnitsOut, LostOut, RxSide, TxSide;
    BlocksOfInv(w.reg);
    if run != [] {
      NextKeeps(w, run[0]);
      RunConserves(Next(w, run[0]), run[1..], w');
    }
  }

  /** Every delivery of a run came from a tunnel that may send it. */
  lemma RunsAreHonest<E(!new)>(w: World<E>, run: seq<Event<E>>, w': World<E>)
    requires WorldInv(w) && Reaches(w, run, w')
    ensures AllHonest(w'.delivered)
  {
    hide RegInv, Honest, Total, BlocksDistinct, Reaches, TallyOf;
    RunConserves(w, run, w');
  }

  function PeerOf<E>(w: World<E>, t: Tunnel): (r: Option<Endpoint>) { if t in w.peers then Some(w.peers[t]) else None }

  /** No datagram of the run is opened by t's keys. */
  ghost predicate NoneOpens<E(!new)>(w: World<E>, run: seq<Event<E>>, t: Tunnel)
    requires WellBoundView(w.view)
    decreases |run|
  {
    run == [] ||
    (&& Enabled(run[0]) && (run[0].Receive? ==> !(Opened(w.view, run[0].d) && w.view[run[0].d.key.value].t == t))
     && WellBoundView(Next(w, run[0]).view) && NoneOpens(Next(w, run[0]), run[1..], t))
  }

  /** Over any run, t's return address stays until t's keys open a datagram. */
  lemma {:induction false} RunKeepsPeer<E(!new)>(w: World<E>, run: seq<Event<E>>, w': World<E>, t: Tunnel)
    requires WorldInv(w) && Reaches(w, run, w') && NoneOpens(w, run, t)
    ensures PeerOf(w', t) == PeerOf(w, t)
    decreases |run|
  {
    hide RegInv, Honest, Handle, ApplyOp, RouteOutbound, Law;
    if run != [] {
      NextKeeps(w, run[0]);
      if run[0].Receive? { OnlyOpenedMoves(InPump(w), w.view, run[0].d, run[0].now); }
      RunKeepsPeer(Next(w, run[0]), run[1..], w', t);
    }
  }

  /** The arrival time of the last datagram of the run that some tunnel's keys open; at when there is none. */
  ghost function LastOpened<E(!new)>(w: World<E>, run: seq<Event<E>>, at: nat): (r: nat)
    requires WellBoundView(w.view)
    decreases |run|
  {
    if run == [] || !Enabled(run[0]) || !WellBoundView(Next(w, run[0]).view) then at
    else LastOpened(Next(w, run[0]), run[1..], if run[0].Receive? && Opened(w.view, run[0].d) then run[0].now else at)
  }

  /** Over any run the liveness clock shows exactly the last datagram that opened, and stands still without one. */
  lemma {:induction false} RunClock<E(!new)>(w: World<E>, run: seq<Event<E>>, w': World<E>)
    requires WorldInv(w) && Reaches(w, run, w')
    ensures w'.lastInbound == LastOpened(w, run, w.lastInbound)
    decreases |run|
  {
    hide RegInv, Honest, Handle, ApplyOp, RouteOutbound, Law;
    if run != [] {
      NextKeeps(w, run[0]);
      if run[0].Receive? { OnlyOpenedMoves(InPump(w), w.view, run[0].d, run[0].now); }
      RunClock(Next(w, run[0]), run[1..], w');
    }
  }

  /** What the datagrams of the run are owed, each by the snapshot it met, in arrival order. */
  ghost function OwedOver<E(!new)>(w: World<E>, run: seq<Event<E>>): (r: seq<Delivery>)
    requires WellBoundView(w.view)
    decreases |run|
  {
    if run == [] || !Enabled(run[0]) || !WellBoundView(Next(w, run[0]).view) then []
    else (if run[0].Receive? then Owed(w.view, run[0].d) else []) + OwedOver(Next(w, run[0]), run[1..])
  }

  /** Over any run the TUN gets exactly that. */
  lemma {:induction false} RunDelivers<E(!new)>(w: World<E>, run: seq<Event<E>>, w': World<E>)
    requires WorldInv(w) && Reaches(w, run, w')
    ensures w'.delivered == w.delivered + OwedOver(w, run)
    decreases |run|
  {
    hide RegInv, Honest, Handle, ApplyOp, RouteOutbound, Law, Owed;
    if run != [] {
      NextKeeps(w, run[0]);
      if run[0].Receive? { HandleDelivers(InPump(w), w.view, run[0].d, run[0].now); }
      RunDelivers(Next(w, run[0]), run[1..], w');
    }
  }

  /** What an event puts on the wire. */
  ghost function WireOf<E>(w: World<E>, e: Event<E>): (r: seq<Sent>)
  {
    match e case Send(env, pkt, at) => OnWire(env, OutPump(w), pkt, at) case _ => []
  }

  /** And what it answers on the TUN. */
  ghost function AnswerOf<E>(w: World<E>, e: Event<E>): (r: seq<Packet>)
  {
    match e case Send(env, pkt, at) => Answered(env, OutPump(w), pkt) case _ => []
  }

  lemma NextSends<E>(w: World<E>, e: Event<E>)
    requires WellBoundView(w.view) && Enabled(e)
    ensures Next(w, e).sent == w.sent + WireOf(w, e) && Next(w, e).replies == w.replies + AnswerOf(w, e)
  {
    hide Handle, ApplyOp, RouteOutbound, OnWire, Answered;
    if e.Send? { RouteSends(e.env, OutPump(w), e.pkt, e.at); }
  }

  /** What the outbound packets of the run put on the wire, each by the routes it met, in order. */
  ghost function WireOver<E(!new)>(w: World<E>, run: seq<Event<E>>): (r: seq<Sent>)
    requires WellBoundView(w.view)
    decreases |run|
  {
    if run == [] || !Enabled(run[0]) || !WellBoundView(Next(w, run[0]).view) then []
    else WireOf(w, run[0]) + WireOver(Next(w, run[0]), run[1..])
  }

  ghost function AnswersOver<E(!new)>(w: World<E>, run: seq<Event<E>>): (r: seq<Packet>)
    requires WellBoundView(w.view)
    decreases |run|
  {
    if run == [] || !Enabled(run[0]) || !WellBoundView(Next(w, run[0]).view) then []
    else AnswerOf(w, run[0]) + AnswersOver(Next(w, run[0]), run[1..])
  }

  /** Over any run the wire gets exactly that, and the TUN an answer for each packet that was too big. */
  lemma {:induction false} RunSends<E(!new)>(w: World<E>, run: seq<Event<E>>, w': World<E>)
    requires WellBoundView(w.view) && Reaches(w, run, w')
    ensures w'.sent == w.sent + WireOver(w, run) && w'.replies == w.replies + AnswersOver(w, run)
    decreases |run|
  {
    hide Next, WireOf, AnswerOf;
    if run != [] {
      NextSends(w, run[0]);
      RunSends(Next(w, run[0]), run[1..], w');
    }
  }

  // ---------- prompt loads ----------

  /** Both paths reload after every registration, before the next packet. */
  predicate Prompt<E>(run: seq<Event<E>>)
  {
    || run == []
    || ((run[0].Receive? || run[0].Send?) && Prompt(run[1..]))
    || (run[0].Register? && |run| >= 3 && run[1].Load? && run[2].LoadOut? && Prompt(run[3..]))
  }

  predicate Fresh<E>(w: World<E>) { w.view == w.reg.byKey && w.snap == w.reg.routes }

  /** A packet that meets fresh snapshots leaves them fresh and loses nothing. */
  lemma PacketStaysFresh<E>(w: World<E>, e: Event<E>)
    requires WorldInv(w) && Fresh(w) && (e.Receive? || e.Send?)
    ensures Fresh(Next(w, e)) && LostIn(w, e) == 0 && LostOut(w, e) == 0
  {
    hide RegInv, Honest, Handle, RouteOutbound, Lost, TxLost, OnlyCells;
    match e
    case Receive(d, now) =>
      FreshLosesNothing(w.reg, d);
      HandleOnlyCounts(InPump(w), w.view, d, now);
      CellsKeepTables(Handle(InPump(w), w.view, d, now).p.reg, w.reg);
    case Send(env, pkt, at) =>
      assert OutPump(w).reg == w.reg;
      FreshSendLosesNothing(env, OutPump(w), pkt, at);
      BlocksOfInv(w.reg);
      OutboundConserves(env, OutPump(w), pkt, at);
      CellsKeepTables(RouteOutbound(env, OutPump(w), pkt, at).reg, w.reg);
  }

  lemma CellsKeepTables(a: Reg, b: Reg)
    requires OnlyCells(a, b)
    ensures a.byKey == b.byKey && a.routes == b.routes
  {
  }

  /** A registration and the two loads that follow it. */
  lemma RegistrationStaysFresh<E>(w: World<E>, op: RegOp)
    requires WorldInv(w) && ValidOp(op)
    ensures var w1 := Next(w, Register(op));
      && WorldInv(w1) && WorldInv(Next(w1, Load))
      && WorldInv(Next(Next(w1, Load), LoadOut)) && Fresh(Next(Next(w1, Load), LoadOut))
  {
    hide RegInv, Honest, ApplyOp, Law;
    NextKeeps(w, Register(op));
    var w1 := Next(w, Register(op));
    NextKeeps(w1, Load);
    NextKeeps(Next(w1, Load), LoadOut);
  }

  lemma TallyStep<E(!new)>(w: World<E>, run: seq<Event<E>>, w': World<E>)
    requires WellBoundView(w.view) && run != [] && Reaches(w, run, w')
    ensures var t, rest := TallyOf(w, run), TallyOf(Next(w, run[0]), run[1..]);
      t.lostIn == rest.lostIn + LostIn(w, run[0]) && t.lostOut == rest.lostOut + LostOut(w, run[0])
  {
    hide Next, LostIn, LostOut, UnitsIn, UnitsOut;
  }

  lemma {:induction false} PromptLosesNothing<E(!new)>(w: World<E>, run: seq<Event<E>>, w': World<E>)
    requires WorldInv(w) && Fresh(w) && Prompt(run) && Reaches(w, run, w')
    ensures TallyOf(w, run).lostIn == 0 && TallyOf(w, run).lostOut == 0
    decreases |run|
  {
    hide RegInv, Honest, Next, Lost, TxLost, TallyOf, AllHonest, Fresh;
    if run == [] {
      NoTally(w);
    } else {
      TallyStep(w, run, w');
      var w1 := Next(w, run[0]);
      if run[0].Register? {
        RegistrationStaysFresh(w, run[0].op);
        assert run[1..][0] == Load && run[2..][0] == LoadOut && run[1..][1..] == run[2..] && run[2..][1..] == run[3..];
        TallyStep(w1, run[1..], w');
        var w2 := Next(w1, Load);
        TallyStep(w2, run[2..], w');
        PromptLosesNothing(Next(w2, LoadOut), run[3..], w');
      } else {
        PacketStaysFresh(w, run[0]);
        NextKeeps(w, run[0]);
        PromptLosesNothing(w1, run[1..], w');
      }
    }
  }

  lemma NoTally<E(!new)>(w: World<E>)
    requires WellBoundView(w.view)
    ensures TallyOf(w, []).lostIn == 0 && TallyOf(w, []).lostOut == 0
  {
  }

  /** When every registration is published before the next packet, nothing is ever lost: the books balance in both directions. */
  lemma PromptBalances<E(!new)>(w: World<E>, run: seq<Event<E>>, w': World<E>)
    requires WorldInv(w) && Fresh(w) && Prompt(run) && Reaches(w, run, w')
    ensures WorldInv(w') && BlocksDistinct(w.reg) && BlocksDistinct(w'.reg)
    ensures var t := TallyOf(w, run); RxSide(w') == RxSide(w) + t.unitsIn && TxSide(w') == TxSide(w) + t.unitsOut
  {
    hide WorldInv, TallyOf, Reaches, Prompt, RxSide, TxSide, BlocksDistinct, Total;
    PromptLosesNothing(w, run, w');
    RunConserves(w, run, w');
  }

  // ---------- single-packet tunnels ----------

  predicate Single(view: map<u32, Bound>) { forall k :: k in view ==> !view[k].t.aggregates }

  predicate SingleOp(op: RegOp) { op.OpDropKey? || !op.t.aggregates }

  function Receives<E>(run: seq<Event<E>>): (n: nat)
  {
    if run == [] then 0 else (if run[0].Receive? then 1 else 0) + Receives(run[1..])
  }

  lemma SingleStays<E>(w: World<E>, e: Event<E>)
    requires WorldInv(w) && Enabled(e) && Single(w.view) && Single(w.reg.byKey) && (e.Register? ==> SingleOp(e.op))
    ensures Single(Next(w, e).view) && Single(Next(w, e).reg.byKey)
  {
    hide RegInv, Handle, RouteOutbound, InsertAll, RemoveAllOwned, OnlyCells, Honest;
    match e
    case Receive(d, now) =>
      HandleOnlyCounts(InPump(w), w.view, d, now);
      CellsKeepKeys(Handle(InPump(w), w.view, d, now).p.reg, w.reg);
    case Send(env, pkt, at) =>
      SendKeepsKeys(w, env, pkt, at);
    case Register(op) =>
    case Load =>
    case LoadOut =>
  }

  lemma CellsKeepKeys(a: Reg, b: Reg)
    requires OnlyCells(a, b)
    ensures a.byKey == b.byKey
  {
  }

  lemma SendKeepsKeys<E>(w: World<E>, env: Env<E>, pkt: Packet, at: int)
    requires RegInv(w.reg)
    ensures Routed(w, env, pkt, at).reg.byKey == w.reg.byKey
  {
    hide RegInv, RouteOutbound, Total, TxLost, BlocksDistinct, Live, OnlyCells;
    BlocksOfInv(w.reg);
    RoutesDoNotCount(w.reg, w.snap);
    OutboundConserves(env, OutPump(w), pkt, at);
    CellsKeepKeys(RouteOutbound(env, OutPump(w), pkt, at).reg, OutPump(w).reg);
  }

  /** Where no tunnel aggregates, what is received is simply the datagrams. */
  lemma {:induction false} SinglesAreDatagrams<E(!new)>(w: World<E>, run: seq<Event<E>>, w': World<E>)
    requires WorldInv(w) && Reaches(w, run, w') && Single(w.view) && Single(w.reg.byKey)
    requires forall e :: e in run && e.Register? ==> SingleOp(e.op)
    ensures TallyOf(w, run).unitsIn == Receives(run)
    decreases |run|
  {
    hide RegInv, Honest, Next, LostIn, LostOut, UnitsOut, Law;
    if run != [] {
      NextKeeps(w, run[0]);
      SingleStays(w, run[0]);
      SinglesAreDatagrams(Next(w, run[0]), run[1..], w');
    }
  }

  // ---------- the run that loses one ----------

  lemma TallyOfTwo<E(!new)>(w: World<E>, a: Event<E>, b: Event<E>)
    requires WorldInv(w) && Enabled(a) && Enabled(b)
    ensures WellBoundView(Next(w, a).view)
    ensures var w1 := Next(w, a);
      TallyOf(w, [a, b]) == Tally(UnitsIn(w, a) + UnitsIn(w1, b), LostIn(w, a) + LostIn(w1, b),
                                  UnitsOut(a) + UnitsOut(b), LostOut(w, a) + LostOut(w1, b))
  {
    hide RegInv, Next, UnitsIn, LostIn, UnitsOut, LostOut, Law, Honest;
    NextKeeps(w, a);
    NextKeeps(Next(w, a), b);
    assert [a, b][1..] == [b] && [b][1..] == [];
    assert TallyOf(Next(Next(w, a), b), []) == Tally(0, 0, 0, 0);
    assert TallyOf(Next(w, a), [b]) == Tally(UnitsIn(Next(w, a), b), LostIn(Next(w, a), b), UnitsOut(b), LostOut(Next(w, a), b));
  }

  /** The inbound path has just loaded the view; t is removed; a datagram under t's key is then counted on its retired block. */
  lemma StaleReceiveLoses<E(!new)>(w: World<E>, key: u32, d: Datagram, now: nat)
    requires WorldInv(w) && w.view == w.reg.byKey && key in w.view && d.key == Some(key)
    requires !w.view[key].t.aggregates && !w.view[key].t.checksSource && d.single.Some? && d.single.value != []
    ensures ValidTunnel(w.view[key].t)
    ensures TallyOf(w, [Register(OpDrop(w.view[key].t)), Receive(d, now)]) == Tally(1, 1, 0, 0)
  {
    hide RoutesRegistered, BlocksDistinct, RemoveTunnel, Handle, Live, Honest, TallyOf, Received;
    var t := w.view[key].t;
    assert Registered(w.reg, w.view[key]);
    BlocksOfInv(w.reg);
    RemovedIsRetired(w.reg, t);
    TallyOfTwo(w, Register(OpDrop(t)), Receive(d, now));
  }

  /** The same on the way out: routed by a snapshot from before the removal. */
  lemma StaleSendLoses<E(!new)>(w: World<E>, t: Tunnel, env: Env<E>, pkt: Packet, at: int)
    requires WorldInv(w) && t in w.reg.stats && ValidTunnel(t) && InnerDest(pkt).Some? && !TooBig(env, pkt)
    requires Lookup(w.snap, InnerDest(pkt).value) == Some(Bind(t, w.reg.stats[t]))
    requires Accepted(env, OutPump(w), Bind(t, w.reg.stats[t]), pkt, at)
    ensures TallyOf(w, [Register(OpDrop(t)), Send(env, pkt, at)]) == Tally(0, 0, 1, 1)
  {
    hide RegInv, BlocksDistinct, RouteOutbound, Honest, InnerDest, TooBig, Lookup, RemoveTunnel, TallyOf, Live, Accepted;
    BlocksOfInv(w.reg);
    RemovedIsRetired(w.reg, t);
    TallyOfTwo(w, Register(OpDrop(t)), Send(env, pkt, at));
    var w1 := Next(w, Register(OpDrop(t)));
    SameVerdict(env, OutPump(w), OutPump(w1), Bind(t, w.reg.stats[t]), pkt, at);
    LiveByStats(OutPump(w1).reg, w1.reg, w.reg.stats[t]);
  }

  lemma LiveByStats(a: Reg, b: Reg, c: nat)
    requires a.stats == b.stats
    ensures Live(a, c) == Live(b, c)
  {
  }

  /** The engines' answer does not depend on the registrations. */
  lemma SameVerdict<E>(env: Env<E>, p: Outbound<E>, q: Outbound<E>, b: Bound, pkt: Packet, now: int)
    requires p.engines == q.engines && p.shaper == q.shaper
    ensures Accepted(env, p, b, pkt, now) == Accepted(env, q, b, pkt, now)
  {
  }

  // ---------- Stats under two locks ----------

  /** Stats reads the retired total, then, a run later, the live blocks. */
  ghost function TwoLockRead(before: Reg, after: Reg): (s: Counters)
    requires BlocksDistinct(after)
  {
    Plus(before.retired, LiveSum(after.stats, after.cells))
  }

  lemma {:induction false} RetiredGrows<E(!new)>(w: World<E>, run: seq<Event<E>>, w': World<E>)
    requires WorldInv(w) && Reaches(w, run, w')
    ensures AtLeast(w'.reg.retired, w.reg.retired)
    decreases |run|
  {
    hide RegInv, Honest, Law;
    if run != [] {
      NextKeeps(w, run[0]);
      StepRetires(w, run[0]);
      RetiredGrows(Next(w, run[0]), run[1..], w');
    }
  }

  lemma StepRetires<E>(w: World<E>, e: Event<E>)
    requires WorldInv(w) && Enabled(e)
    ensures AtLeast(Next(w, e).reg.retired, w.reg.retired)
  {
    hide RegInv, Honest, Handle, RouteOutbound, InsertAll, RemoveAllOwned, KeysWithout, OnlyCells, Total, TxLost, BlocksDistinct, Live;
    BlocksOfInv(w.reg);
    if e.Receive? {
      HandleOnlyCounts(InPump(w), w.view, e.d, e.now);
      CellsKeepRetired(Handle(InPump(w), w.view, e.d, e.now).p.reg, w.reg);
    } else if e.Send? {
      RoutesDoNotCount(w.reg, w.snap);
      OutboundConserves(e.env, OutPump(w), e.pkt, e.at);
      CellsKeepRetired(RouteOutbound(e.env, OutPump(w), e.pkt, e.at).reg, OutPump(w).reg);
    }
  }

  lemma CellsKeepRetired(a: Reg, b: Reg)
    requires OnlyCells(a, b)
    ensures a.retired == b.retired
  {
  }

  /**
   What Stats can miss: over any run between its two locks, the packets it reports fall short of the
   total by exactly those retired in between, and so are exact if and only if none were.
   */
  lemma StatsMisses<E(!new)>(w: World<E>, run: seq<Event<E>>, w': World<E>)
    requires WorldInv(w) && Reaches(w, run, w')
    ensures BlocksDistinct(w'.reg)
    ensures var s, t := TwoLockRead(w.reg, w'.reg), Total(w'.reg);
      && t.rxPackets - s.rxPackets == w'.reg.retired.rxPackets - w.reg.retired.rxPackets >= 0
      && t.txPackets - s.txPackets == w'.reg.retired.txPackets - w.reg.retired.txPackets >= 0
      && (s.rxPackets == t.rxPackets <==> w'.reg.retired.rxPackets == w.reg.retired.rxPackets)
  {
    hide RegInv, Honest, LiveSum, BlocksDistinct, Reaches, TallyOf;
    RunConserves(w, run, w');
    RetiredGrows(w, run, w');
  }

  /** For one: removing a tunnel between the locks hides everything it had received. */
  lemma RemovalHides<E(!new)>(w: World<E>, t: Tunnel)
    requires WorldInv(w) && t in w.reg.stats && ValidTunnel(t)
    ensures var w' := Next(w, Register(OpDrop(t)));
      && BlocksDistinct(w.reg) && BlocksDistinct(w'.reg)
      && TwoLockRead(w.reg, w'.reg).rxPackets + w.reg.cells[w.reg.stats[t]].rxPackets == Total(w.reg).rxPackets
  {
    hide RegInv, Honest, KeysWithout, RemoveAllOwned, LiveSum;
    BlocksOfInv(w.reg);
    LiveSumSplit(w.reg.stats, w.reg.cells, t);
  }
}
