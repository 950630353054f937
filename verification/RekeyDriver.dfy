/** rekeyChild as it drives the pump (ikev2/client.go). */
module RekeyDriver {
  import opened Bytes
  import opened Registry
  import opened PumpTables
  import opened Rekey

  /** The outcome of the exchange and of building the tunnel: a successor with its inbound SPI, or an error. */
  datatype Exchange = Failure | Success(successor: Tunnel, spi: u32)

  class SessionDriver {
    const pump: Tables
    var tunnel: Tunnel
    var childInSPI: u32
    var closing: bool

    constructor (pump: Tables, tunnel: Tunnel, spi: u32)
      requires pump.Valid()
      ensures this.pump == pump && this.tunnel == tunnel && childInSPI == spi && !closing
    {
      this.pump, this.tunnel, childInSPI, closing := pump, tunnel, spi, false;
    }

    ghost function Value(): (s: Session)
      requires pump.Valid()
      reads this, pump, pump.published.root4, pump.published.root6
      reads RouteHeap.ReprOf(pump.published.root4), RouteHeap.ReprOf(pump.published.root6)
    {
      Session(pump.Value(), tunnel, childInSPI, None)
    }

    /** Install the successor, switch the session to it, retire the predecessor; do nothing when the exchange failed. */
    method RekeyChild(x: Exchange)
      requires pump.Valid() && SessionInv(Value())
      requires x.Success? ==> Allowed(Value(), Install(x.successor, x.spi))
      modifies this, pump
      ensures pump.Valid() && SessionInv(Value())
      ensures closing == old(closing)
      ensures if old(closing) || x.Failure? then Value() == old(Value())
              else Reaches(old(Value()), [Install(x.successor, x.spi), Retire], Value())
    {
      hide AddTunnel, RemoveTunnel, SessionInv;
      if closing || x.Failure? {
        return;
      }
      ghost var s0 := Value();
      var oldTunnel := tunnel;
      ValidOfInv(s0);
      pump.Add(x.successor, x.spi);
      tunnel := x.successor;
      childInSPI := x.spi;
      ghost var s1 := Next(s0, Install(x.successor, x.spi));
      NextKeeps(s0, Install(x.successor, x.spi));
      pump.Drop(oldTunnel);
      NextKeeps(s1, Retire);
      TwoSteps(s0, Install(x.successor, x.spi), Retire, Value());
    }
  }

  lemma ValidOfInv(s: Session)
    requires SessionInv(s)
    ensures ValidTunnel(s.cur)
  {
  }

  lemma TwoSteps(s: Session, a: Event, b: Event, s': Session)
    requires Allowed(s, a) && Allowed(Next(s, a), b) && s' == Next(Next(s, a), b)
    ensures Reaches(s, [a, b], s')
  {
    assert [a, b][1..] == [b] && [b][1..] == [];
  }
}
