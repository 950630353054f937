/**
 What coalescing does to the packets of a batch (dataplane/gro_linux.go): exactly when every flow
 gets all of them, and what reaches the TUN when one does not.
 */
module GroLoss {
  import opened Bytes
  import opened Gro
  import opened GroBatch
  import opened GroStore
  import opened GroFlow

  // ---------- transparency ----------

  /** Of the writes that end the batch only the headerless one can reach the flow. */
  lemma LossStream(s: State, held: seq<seq<Packet>>, settled: seq<Packet>, offered: seq<Packet>, j: nat, d: Packet)
    requires Inv(s, held, settled, offered) && j < |s.tbl| && |s.tbl[j].buf| >= 40
    ensures var key, ws := Some(GroupKey(s.tbl[j])), s.out + (FlushAll(s.tbl[..j]) + [Plain(d)] + FlushAll(s.tbl[j + 1..]));
      Stream(key, ExpandAll(ws)) == Stream(key, ExpandAll(s.out)) + (if FlowKey(d) == key then [d] else [])
  {
    hide StandsFor, Stream, ExpandAll, FlushAll, GroupHolds, FlushWrites, Flushable, HeldOf, FlowKey, Balanced;
    var key := GroupKey(s.tbl[j]);
    var a, b := s.tbl[..j], s.tbl[j + 1..];
    LossExpands(s.out, FlushAll(a), d, FlushAll(b));
    OthersSilent(a, held[..j], offered, key);
    OthersSilent(b, held[j + 1..], offered, key);
    var ea, eb := ExpandAll(FlushAll(a)), ExpandAll(FlushAll(b));
    StreamConcat(Some(key), ExpandAll(s.out), ea + [d] + eb);
    StreamConcat(Some(key), ea + [d], eb);
    OfferOne(Some(key), ea, d);
  }

  lemma LossExpands(out: seq<Write>, a: seq<Write>, d: Packet, b: seq<Write>)
    ensures ExpandAll(out + (a + [Plain(d)] + b)) == ExpandAll(out) + (ExpandAll(a) + [d] + ExpandAll(b))
  {
    hide ExpandAll, StandsFor;
    PlainExpands(d, []);
    ExpandAllConcat(out, a + [Plain(d)] + b);
    ExpandAllConcat(a + [Plain(d)], b);
    ExpandAllConcat(a, [Plain(d)]);
  }

  /** The first packet to meet an emptied group is lost to its flow, whether the append panics or not. */
  lemma OntoEmptiedLoses(slots: seq<Slot>, pkts: seq<Packet>, p: Packet)
    requires SlotsOk(slots) && Process(pkts).clean && Tidy(Process(pkts).s.tbl) && OntoEmptied(Process(pkts).s.tbl, p)
    ensures !Matches(Stream(FlowKey(p), ExpandAll(Emitted(slots, pkts + [p]))), Stream(FlowKey(p), pkts + [p]), pkts + [p])
  {
    hide Process, StandsFor, Stream, ExpandAll, FlushAll, GroupHolds, Flushable, CanAppend, HeldOf, Emitted, Panics, Headerless, SlotOk;
    var s := Process(pkts).s;
    var held, settled := ProcessKeeps(pkts);
    StartHolds(p);
    var key := Some(p[12..24]);
    var j := LossEmits(slots, pkts, p);
    EmptiedHoldsNothing(s.tbl[j], held[j]);
    HeldIsGroup(s.tbl, held, j);
    OfferOne(key, pkts, p);
    StreamMatches(key, ExpandAll(s.out), settled, pkts);
    var n := |Stream(key, settled)|;
    if !Panics(p) {
      var d := Headerless(p);
      LossStream(s, held, settled, pkts, j, d);
      if FlowKey(d) == key {
        assert Stream(key, pkts + [p])[n] == p;
        LengthTells(d, p, pkts + [p]);
      }
    }
  }

  /** The batch ended here would reach every flow whole. */
  ghost predicate DeliversAll(slots: seq<Slot>, pkts: seq<Packet>)
    requires SlotsOk(slots)
  {
    forall key :: Matches(Stream(key, ExpandAll(Emitted(slots, pkts))), Stream(key, pkts), pkts)
  }

  /**
   GRO is transparent at every point of a batch, whatever the table was used for before, exactly
   when no flow of the batch resumes a train that one of its own pass-through packets has flushed.
   */
  lemma TransparentIffClean(slots: seq<Slot>, pkts: seq<Packet>)
    requires SlotsOk(slots)
    ensures EveryFlowClean(pkts) <==> forall n :: 0 <= n <= |pkts| ==> DeliversAll(slots, pkts[..n])
  {
    hide Process, DeliversAll, SlotOk, EveryFlowClean;
    CleanIffFlowsClean(pkts);
    if Process(pkts).clean {
      forall n | 0 <= n <= |pkts| ensures DeliversAll(slots, pkts[..n]) {
        CleanPrefix(pkts, n);
        CleanDeliversAll(slots, pkts[..n]);
      }
    } else {
      var n := FirstLoss(pkts);
      assert pkts[..n] + [pkts[n]] == pkts[..n + 1];
      LossDeliversNot(slots, pkts[..n], pkts[n]);
    }
  }

  lemma CleanDeliversAll(slots: seq<Slot>, pkts: seq<Packet>)
    requires SlotsOk(slots) && Process(pkts).clean
    ensures DeliversAll(slots, pkts)
  {
    hide Process, Written, Emitted, Stream, Matches, SlotOk;
    CleanEmits(slots, pkts);
    forall key: Option<Packet> ensures Matches(Stream(key, ExpandAll(Emitted(slots, pkts))), Stream(key, pkts), pkts) {
      CleanBatchDelivers(pkts, key);
    }
  }

  lemma LossDeliversNot(slots: seq<Slot>, pkts: seq<Packet>, p: Packet)
    requires SlotsOk(slots) && Process(pkts).clean && Tidy(Process(pkts).s.tbl) && OntoEmptied(Process(pkts).s.tbl, p)
    ensures !DeliversAll(slots, pkts + [p])
  {
    hide Process, Emitted, Stream, Matches, OntoEmptied, SlotOk;
    OntoEmptiedLoses(slots, pkts, p);
  }

  // ---------- where every written packet comes from ----------

  /** d stands for some packet of the batch. */
  predicate Standing(d: Packet, offered: seq<Packet>)
  {
    exists k :: 0 <= k < |offered| && StandsFor(d, offered[k], offered)
  }

  predicate AllStanding(ds: seq<Packet>, offered: seq<Packet>)
  {
    forall i :: 0 <= i < |ds| ==> Standing(ds[i], offered)
  }

  lemma MatchesStanding(ds: seq<Packet>, ps: seq<Packet>, offered: seq<Packet>)
    requires Matches(ds, ps, offered) && forall i :: 0 <= i < |ps| ==> ps[i] in offered
    ensures AllStanding(ds, offered)
  {
    hide StandsFor;
    forall i | 0 <= i < |ds| ensures Standing(ds[i], offered) {
      assert ps[i] in offered;
      var k :| 0 <= k < |offered| && offered[k] == ps[i];
    }
  }

  lemma {:induction false} StreamIndex(ps: seq<Packet>, i: nat) returns (x: nat)
    requires i < |ps|
    ensures x < |Stream(FlowKey(ps[i]), ps)| && Stream(FlowKey(ps[i]), ps)[x] == ps[i]
    decreases |ps|
  {
    hide FlowKey;
    var n := |ps| - 1;
    if i < n {
      x := StreamIndex(ps[..n], i);
    } else {
      x := |Stream(FlowKey(ps[i]), ps[..n])|;
    }
  }

  /** Everything settled was offered. */
  lemma SettledOffered(s: State, held: seq<seq<Packet>>, settled: seq<Packet>, offered: seq<Packet>, i: nat)
    requires Inv(s, held, settled, offered) && i < |settled|
    ensures settled[i] in offered
  {
    hide GroupHolds, Flushable, StandsFor, HeldOf, Stream, FlowKey, ExpandAll;
    var key := FlowKey(settled[i]);
    var x := StreamIndex(settled, i);
    assert Stream(key, offered)[x] == settled[i];
    var j := StreamMember(key, offered, x);
  }

  lemma {:induction false} TrainsOffered(held: seq<seq<Packet>>, offered: seq<Packet>, i: nat)
    requires FromBatch(held, offered) && i < |Trains(held)|
    ensures Trains(held)[i] in offered
    decreases |held|
  {
    var n := |held| - 1;
    if i < |Trains(held[..n])| { TrainsOffered(held[..n], offered, i); }
  }

  lemma FlushStanding(tbl: seq<Group>, held: seq<seq<Packet>>, offered: seq<Packet>)
    requires TableHolds(tbl, held) && FromBatch(held, offered)
    ensures AllStanding(ExpandAll(FlushAll(tbl)), offered)
  {
    hide GroupHolds, Flushable, StandsFor, ExpandAll, FlushAll, Trains, FromBatch;
    FlushAllDelivers(tbl, held, offered);
    forall i | 0 <= i < |Trains(held)| ensures Trains(held)[i] in offered { TrainsOffered(held, offered, i); }
    MatchesStanding(ExpandAll(FlushAll(tbl)), Trains(held), offered);
  }

  lemma OutStanding(s: State, held: seq<seq<Packet>>, settled: seq<Packet>, offered: seq<Packet>)
    requires Inv(s, held, settled, offered)
    ensures AllStanding(ExpandAll(s.out), offered)
  {
    hide GroupHolds, Flushable, StandsFor, ExpandAll, Balanced, FromBatch;
    forall i | 0 <= i < |settled| ensures settled[i] in offered { SettledOffered(s, held, settled, offered, i); }
    MatchesStanding(ExpandAll(s.out), settled, offered);
  }

  /** Out of a clean batch the stack gets nothing but its packets. */
  lemma CleanStanding(slots: seq<Slot>, pkts: seq<Packet>)
    requires SlotsOk(slots) && Process(pkts).clean
    ensures AllStanding(ExpandAll(Emitted(slots, pkts)), pkts)
  {
    hide Process, Emitted, FlushAll, ExpandAll, Standing, SlotOk, TableHolds, Matches, Balanced, FromBatch;
    var s := Process(pkts).s;
    var held, settled := ProcessKeeps(pkts);
    CleanEmits(slots, pkts);
    ExpandAllConcat(s.out, FlushAll(s.tbl));
    OutStanding(s, held, settled, pkts);
    FlushStanding(s.tbl, held, pkts);
  }

  /** Where in what the stack gets the bare payload of p lies: behind what was out and what earlier groups hold. */
  function BareAt(pkts: seq<Packet>, p: Packet): (k: nat)
    requires |p| >= 40
  {
    var s := Process(pkts).s;
    if !Tidy(s.tbl) then 0
    else |ExpandAll(s.out)| + |ExpandAll(FlushAll(s.tbl[..Find(s.tbl, p[12..24], 0)]))|
  }

  /**
   Out of a batch that ends with the first packet to meet an emptied group, the stack gets its
   packets and, unless the append panics, exactly one thing more: the bare payload.
   */
  lemma LossStanding(slots: seq<Slot>, pkts: seq<Packet>, p: Packet)
    requires SlotsOk(slots) && Process(pkts).clean && Tidy(Process(pkts).s.tbl) && OntoEmptied(Process(pkts).s.tbl, p)
    ensures |p| > 40
    ensures var got, k := ExpandAll(Emitted(slots, pkts + [p])), BareAt(pkts, p);
      if Panics(p) then AllStanding(got, pkts)
      else
        && k < |got| && got[k] == Headerless(p)
        && forall e :: 0 <= e < |got| && e != k ==> Standing(got[e], pkts)
  {
    hide Process, Emitted, FlushAll, ExpandAll, Standing, SlotOk, TableHolds, Matches, Balanced, FromBatch, Panics, Headerless,
         Tidy, OntoEmptied;
    var s := Process(pkts).s;
    var held, settled := ProcessKeeps(pkts);
    var j := LossEmits(slots, pkts, p);
    OutStanding(s, held, settled, pkts);
    if !Panics(p) {
      SameSize(s, held, settled, pkts);
      PartHolds(s.tbl, held, pkts, j);
      FlushStanding(s.tbl[..j], held[..j], pkts);
      FlushStanding(s.tbl[j + 1..], held[j + 1..], pkts);
      LossExpands(s.out, FlushAll(s.tbl[..j]), Headerless(p), FlushAll(s.tbl[j + 1..]));
    }
  }

  lemma SameSize(s: State, held: seq<seq<Packet>>, settled: seq<Packet>, offered: seq<Packet>)
    requires Inv(s, held, settled, offered)
    ensures TableHolds(s.tbl, held) && FromBatch(held, offered) && |s.tbl| == |held|
  {
  }
}
