/**
 The coalescing table over one inbound batch (dataplane/gro_linux.go): every packet
 offered to add, pass-through writes in arrival order, and the final flush.
 */
module GroBatch {
  import opened Bytes
  import opened Offload
  import opened Gro

  /** The open groups, and everything written to the TUN so far. */
  datatype State = State(tbl: seq<Group>, out: seq<Write>)

  /** Every stored group keeps a whole header, so sameFlow and canAppend may read it. */
  predicate Tidy(tbl: seq<Group>) { forall g :: g in tbl ==> |g.buf| >= 40 && Flushable(g) }

  /** The first group of the flow, from index i on; |tbl| when there is none. */
  function Find(tbl: seq<Group>, key: Packet, i: nat): (j: nat)
    requires Tidy(tbl) && i <= |tbl|
    ensures i <= j <= |tbl|
    ensures j < |tbl| ==> GroupKey(tbl[j]) == key
    ensures forall x :: i <= x < j ==> GroupKey(tbl[x]) != key
    decreases |tbl| - i
  {
    if i == |tbl| || GroupKey(tbl[i]) == key then i else Find(tbl, key, i + 1)
  }

  /** The first live group of the flow: what flushSameFlow looks for. */
  function FindLive(tbl: seq<Group>, key: Packet, i: nat): (j: nat)
    requires Tidy(tbl) && i <= |tbl|
    ensures i <= j <= |tbl|
    ensures j < |tbl| ==> tbl[j].segs > 0 && GroupKey(tbl[j]) == key
    ensures forall x :: i <= x < j ==> tbl[x].segs == 0 || GroupKey(tbl[x]) != key
    decreases |tbl| - i
  {
    if i == |tbl| || (tbl[i].segs > 0 && GroupKey(tbl[i]) == key) then i else FindLive(tbl, key, i + 1)
  }

  function FlushAt(s: State, j: nat): (r: State)
    requires j < |s.tbl| && Flushable(s.tbl[j])
  {
    State(s.tbl[j := Flushed(s.tbl[j])], s.out + FlushWrites(s.tbl[j]))
  }

  /** The branch that loses a header: the flow's group was emptied, yet the merge rules accept the packet. */
  predicate OntoEmptied(tbl: seq<Group>, p: Packet)
    requires Tidy(tbl)
  {
    Eligible(p) &&
    (EligibleLength(p);
     var j := Find(tbl, p[12..24], 0);
     j < |tbl| && tbl[j].segs == 0 && CanAppend(tbl[j], p))
  }

  /** One packet of the batch: add, and the write-through when add declines it. */
  function Step(s: State, p: Packet): (r: State)
    requires Tidy(s.tbl) && !OntoEmptied(s.tbl, p)
  {
    if !Eligible(p) then
      var s1 :=
        if FlowKey(p).None? then s
        else
          var j := FindLive(s.tbl, FlowKey(p).value, 0);
          if j == |s.tbl| then s else FlushAt(s, j);
      s1.(out := s1.out + [Plain(p)])
    else
      EligibleLength(p);
      var j := Find(s.tbl, p[12..24], 0);
      if j == |s.tbl| then s.(tbl := s.tbl + [Start(p)])
      else if CanAppend(s.tbl[j], p) then assert s.tbl[j] in s.tbl; s.(tbl := s.tbl[j := Append(s.tbl[j], p)])
      else
        var s1 := FlushAt(s, j);
        s1.(tbl := s1.tbl[j := Start(p)])
  }

  // ---------- what the stack sees ----------

  /** The packets a TUN write stands for: a super-frame is cut at its advertised segment size. */
  function Expand(w: Write): (r: seq<Packet>)
  {
    match w
    case Plain(p) => [p]
    case Gso(h, f) =>
      match LayoutOf(f, h.gsoSize)
      case Frame(ihl, thl) => Cut(f, ihl, thl, h.gsoSize)
      case Malformed(_) => []
  }

  function ExpandAll(ws: seq<Write>): (r: seq<Packet>)
  {
    if ws == [] then [] else ExpandAll(ws[..|ws| - 1]) + Expand(ws[|ws| - 1])
  }

  lemma {:induction false} ExpandAllConcat(a: seq<Write>, b: seq<Write>)
    ensures ExpandAll(a + b) == ExpandAll(a) + ExpandAll(b)
    decreases |b|
  {
    hide Expand;
    if b == [] {
      assert a + b == a;
    } else {
      var n := |b| - 1;
      assert (a + b)[..|a + b| - 1] == a + b[..n];
      ExpandAllConcat(a, b[..n]);
    }
  }

  /** The packets of one flow, in order. None collects whatever has no TCP 4-tuple. */
  function Stream(key: Option<Packet>, ps: seq<Packet>): (r: seq<Packet>)
  {
    if ps == [] then []
    else
      var n := |ps| - 1;
      Stream(key, ps[..n]) + (if FlowKey(ps[n]) == key then [ps[n]] else [])
  }

  lemma {:induction false} StreamConcat(key: Option<Packet>, a: seq<Packet>, b: seq<Packet>)
    ensures Stream(key, a + b) == Stream(key, a) + Stream(key, b)
    decreases |b|
  {
    if b == [] {
      assert a + b == a;
    } else {
      var n := |b| - 1;
      assert (a + b)[..|a + b| - 1] == a + b[..n];
      StreamConcat(key, a, b[..n]);
    }
  }

  lemma {:induction false} StreamOfOneFlow(key: Option<Packet>, k: Option<Packet>, ps: seq<Packet>)
    requires forall i :: 0 <= i < |ps| ==> FlowKey(ps[i]) == k
    ensures Stream(key, ps) == if key == k then ps else []
    decreases |ps|
  {
    if ps != [] {
      var n := |ps| - 1;
      StreamOfOneFlow(key, k, ps[..n]);
      assert ps[..n] + [ps[n]] == ps;
    }
  }

  /** A packet of the batch that could have headed the train p was merged into. */
  predicate Heads(h: Packet, p: Packet) { Eligible(h) && Eligible(p) && FlowKey(h) == FlowKey(p) }

  predicate RewrittenAs(d: Packet, p: Packet, h: Packet)
  {
    Heads(h, p) && |h| >= 40 && |p| >= 40 && d == Rewritten(p, h)
  }

  /** d stands for p: p itself, or p rewritten against an eligible packet of its flow in the same batch. */
  predicate StandsFor(d: Packet, p: Packet, offered: seq<Packet>)
  {
    d == p || exists i :: 0 <= i < |offered| && RewrittenAs(d, p, offered[i])
  }

  predicate Matches(ds: seq<Packet>, ps: seq<Packet>, offered: seq<Packet>)
  {
    |ds| == |ps| && forall i :: 0 <= i < |ds| ==> StandsFor(ds[i], ps[i], offered)
  }

  lemma StandsForKeepsFlow(d: Packet, p: Packet, offered: seq<Packet>)
    requires StandsFor(d, p, offered)
    ensures FlowKey(d) == FlowKey(p) && |d| == |p|
  {
    hide Rewritten, Eligible;
    if d != p {
      var i :| 0 <= i < |offered| && RewrittenAs(d, p, offered[i]);
      assert d[12..24] == p[12..24];
    }
  }

  lemma MatchesGrows(ds: seq<Packet>, ps: seq<Packet>, offered: seq<Packet>, p: Packet)
    requires Matches(ds, ps, offered)
    ensures Matches(ds, ps, offered + [p])
  {
    hide RewrittenAs;
    var more := offered + [p];
    forall i | 0 <= i < |ds| ensures StandsFor(ds[i], ps[i], more) {
      assert StandsFor(ds[i], ps[i], offered);
      if ds[i] != ps[i] {
        var x :| 0 <= x < |offered| && RewrittenAs(ds[i], ps[i], offered[x]);
        assert more[x] == offered[x];
      }
    }
  }

  lemma {:induction false} StreamMatches(key: Option<Packet>, ds: seq<Packet>, ps: seq<Packet>, offered: seq<Packet>)
    requires Matches(ds, ps, offered)
    ensures Matches(Stream(key, ds), Stream(key, ps), offered)
    decreases |ds|
  {
    hide StandsFor, FlowKey;
    if ds != [] {
      var n := |ds| - 1;
      StreamMatches(key, ds[..n], ps[..n], offered);
      assert StandsFor(ds[n], ps[n], offered);
      StandsForKeepsFlow(ds[n], ps[n], offered);
    }
  }

  // ---------- the invariant ----------

  predicate Emptied(g: Group) { g.segs == 0 && g.length == 0 && |g.buf| >= 40 }

  /** held is the train a live group was built from; empty for an emptied group. */
  predicate GroupHolds(g: Group, held: seq<Packet>)
  {
    if held == [] then Emptied(g) else Build(held) == Some(g)
  }

  /** Each group holds its train, and live or emptied no two groups share a flow key. */
  predicate TableHolds(tbl: seq<Group>, held: seq<seq<Packet>>)
  {
    && |tbl| == |held|
    && (forall j :: 0 <= j < |tbl| ==> GroupHolds(tbl[j], held[j]))
    && Tidy(tbl)
    && (forall i, j :: 0 <= i < j < |tbl| ==> GroupKey(tbl[i]) != GroupKey(tbl[j]))
  }

  /** What the table still holds of one flow. */
  function HeldOf(key: Option<Packet>, tbl: seq<Group>, held: seq<seq<Packet>>): (r: seq<Packet>)
    requires TableHolds(tbl, held)
  {
    if key.None? then []
    else
      var j := Find(tbl, key.value, 0);
      if j == |tbl| then [] else held[j]
  }

  /**
   settled lists, in write order, the offered packets the writes so far stand for; per flow,
   what was offered is what has settled followed by what is held.
   */
  ghost predicate Inv(s: State, held: seq<seq<Packet>>, settled: seq<Packet>, offered: seq<Packet>)
  {
    && TableHolds(s.tbl, held)
    && Matches(ExpandAll(s.out), settled, offered)
    && Balanced(s.tbl, held, settled, offered)
    && FromBatch(held, offered)
  }

  ghost predicate Balanced(tbl: seq<Group>, held: seq<seq<Packet>>, settled: seq<Packet>, offered: seq<Packet>)
    requires TableHolds(tbl, held)
  {
    forall key :: Stream(key, offered) == Stream(key, settled) + HeldOf(key, tbl, held)
  }

  predicate FromBatch(held: seq<seq<Packet>>, offered: seq<Packet>)
  {
    forall j :: 0 <= j < |held| ==> forall i :: 0 <= i < |held[j]| ==> held[j][i] in offered
  }

  lemma HeldIsGroup(tbl: seq<Group>, held: seq<seq<Packet>>, j: nat)
    requires TableHolds(tbl, held) && j < |tbl|
    ensures Find(tbl, GroupKey(tbl[j]), 0) == j
    ensures HeldOf(Some(GroupKey(tbl[j])), tbl, held) == held[j]
  {
  }

  /** Every packet of a train carries the group's flow key. */
  lemma HeldFlow(g: Group, held: seq<Packet>, i: nat)
    requires GroupHolds(g, held) && i < |held|
    ensures |g.buf| >= 40 && Eligible(held[i]) && FlowKey(held[i]) == Some(GroupKey(g))
  {
    hide GroupShape, MemberShape, TcpChecksumOK, Coalescible, PayloadAt, Build;
    BuildShape(held);
    BuildMember(held, i);
    EligibleHeader(held[i]);
    KeyOfShape(held[0], held[|held| - 1], |held|, Offset(|held| - 1, |held[0]| - 40), g);
    KeyOfMember(held[0], held[i], Offset(i, |held[0]| - 40), i, i + 1 == |held|);
  }

  lemma KeyOfShape(h: Packet, last: Packet, n: nat, full: nat, g: Group)
    requires |h| >= 40 && |last| >= 40 && |g.buf| >= 40 && n > 0 && GroupShape(h, last, n, full, g)
    ensures GroupKey(g) == h[12..24]
  {
  }

  lemma KeyOfMember(h: Packet, p: Packet, off: nat, i: nat, isLast: bool)
    requires |h| >= 40 && |p| >= 40 && MemberShape(h, p, off, i, isLast)
    ensures p[12..24] == h[12..24]
  {
  }

  /** Flushing a live group delivers exactly its train. */
  lemma FlushDelivers(g: Group, held: seq<Packet>, offered: seq<Packet>)
    requires GroupHolds(g, held) && Flushable(g)
    requires forall i :: 0 <= i < |held| ==> held[i] in offered
    ensures Matches(ExpandAll(FlushWrites(g)), held, offered)
  {
    hide LayoutOf, FlushFrame, Rewritten, Eligible, Cut, FlushHdr;
    var ws := FlushWrites(g);
    if |held| == 1 {
      StartIsWhole(held[0]);
      assert ExpandAll(ws) == [held[0]];
    } else if |held| > 1 {
      FlushExpands(g, held);
      assert ws[..0] == [];
      assert ExpandAll(ws) == Expand(ws[0]);
      forall i | 0 <= i < |held| ensures StandsFor(Expand(ws[0])[i], held[i], offered) {
        GroThenCut(held, i);
        HeldFlow(g, held, 0);
        HeldFlow(g, held, i);
        var x :| 0 <= x < |offered| && offered[x] == held[0];
        assert RewrittenAs(Expand(ws[0])[i], held[i], offered[x]);
      }
    }
  }

  lemma StartIsWhole(p: Packet)
    requires Build([p]).Some?
    ensures Build([p]).value.buf[..Build([p]).value.length] == p
  {
  }

  lemma FlushExpands(g: Group, held: seq<Packet>)
    requires Build(held) == Some(g) && |held| > 1 && Flushable(g)
    ensures FlushWrites(g) == [Gso(FlushHdr(g), FlushFrame(g))]
    ensures LayoutOf(FlushFrame(g), g.gsoSize) == Frame(20, 20)
    ensures Expand(Gso(FlushHdr(g), FlushFrame(g))) == Cut(FlushFrame(g), 20, 20, g.gsoSize)
    ensures |Expand(Gso(FlushHdr(g), FlushFrame(g)))| == |held|
  {
    hide LayoutOf, FlushFrame, Segment, Cut;
    FlushLayout(held);
    Low16Length(g.gsoSize);
  }

  /** Swapping one group for another of the same flow touches no other flow. */
  lemma ReplaceGroup(tbl: seq<Group>, held: seq<seq<Packet>>, j: nat, g: Group, train: seq<Packet>)
    requires TableHolds(tbl, held) && j < |tbl|
    requires GroupHolds(g, train) && |g.buf| >= 40 && Flushable(g) && GroupKey(g) == GroupKey(tbl[j])
    ensures TableHolds(tbl[j := g], held[j := train])
    ensures forall key :: HeldOf(key, tbl[j := g], held[j := train])
                       == if key == Some(GroupKey(g)) then train else HeldOf(key, tbl, held)
  {
    hide GroupHolds, Flushable;
    var t, h := tbl[j := g], held[j := train];
    assert forall i :: 0 <= i < |t| ==> GroupKey(t[i]) == GroupKey(tbl[i]);
    HeldIsGroup(t, h, j);
    forall key: Option<Packet>
      ensures HeldOf(key, t, h) == if key == Some(GroupKey(g)) then train else HeldOf(key, tbl, held)
    {
      if key.Some? && key != Some(GroupKey(g)) {
        FindSame(tbl, t, key.value, 0);
      }
    }
  }

  lemma {:induction false} FindSame(a: seq<Group>, b: seq<Group>, key: Packet, i: nat)
    requires Tidy(a) && Tidy(b) && |a| == |b| && i <= |a|
    requires forall x :: 0 <= x < |a| ==> GroupKey(a[x]) == GroupKey(b[x])
    ensures Find(a, key, i) == Find(b, key, i)
    decreases |a| - i
  {
    if i < |a| && GroupKey(a[i]) != key { FindSame(a, b, key, i + 1); }
  }

  lemma FlushedKeepsKey(g: Group, held: seq<Packet>)
    requires GroupHolds(g, held) && |g.buf| >= 40 && Flushable(g)
    ensures |Flushed(g).buf| >= 40 && GroupHolds(Flushed(g), []) && GroupKey(Flushed(g)) == GroupKey(g)
  {
    hide Build, FlushFrame;
    if g.segs > 1 {
      FlushHeader(g);
      assert Flushed(g).buf == FlushFrame(g);
    }
  }

  lemma FlushKeeps(s: State, held: seq<seq<Packet>>, settled: seq<Packet>, offered: seq<Packet>, j: nat)
    requires Inv(s, held, settled, offered) && j < |s.tbl|
    ensures Inv(FlushAt(s, j), held[j := []], settled + held[j], offered)
    ensures |FlushAt(s, j).tbl[j].buf| >= 40 && GroupKey(FlushAt(s, j).tbl[j]) == GroupKey(s.tbl[j])
  {
    hide GroupHolds, Flushable, Flushed, FlushWrites, StandsFor, Balanced, HeldOf, ExpandAll;
    var g := s.tbl[j];
    FlushedKeepsKey(g, held[j]);
    FlushedFlushable(g);
    ReplaceGroup(s.tbl, held, j, Flushed(g), []);
    FlushDelivers(g, held[j], offered);
    ExpandAllConcat(s.out, FlushWrites(g));
    SettleTrain(s.tbl, held, settled, offered, j, Flushed(g));
  }

  /** Moving a train from held to settled moves the same packets in every flow. */
  lemma SettleTrain(tbl: seq<Group>, held: seq<seq<Packet>>, settled: seq<Packet>, offered: seq<Packet>,
                    j: nat, g: Group)
    requires TableHolds(tbl, held) && j < |tbl| && Balanced(tbl, held, settled, offered)
    requires GroupHolds(g, []) && |g.buf| >= 40 && Flushable(g) && GroupKey(g) == GroupKey(tbl[j])
    ensures TableHolds(tbl[j := g], held[j := []])
    ensures Balanced(tbl[j := g], held[j := []], settled + held[j], offered)
  {
    hide GroupHolds, Flushable, HeldOf, Stream;
    ReplaceGroup(tbl, held, j, g, []);
    HeldIsGroup(tbl, held, j);
    forall key: Option<Packet>
      ensures Stream(key, offered) == Stream(key, settled + held[j]) + HeldOf(key, tbl[j := g], held[j := []])
    {
      StreamConcat(key, settled, held[j]);
      StreamOfGroup(key, tbl[j], held[j]);
    }
  }

  lemma FlushedFlushable(g: Group)
    requires Flushable(g)
    ensures Flushable(Flushed(g))
  {
  }

  lemma StreamOfGroup(key: Option<Packet>, g: Group, train: seq<Packet>)
    requires GroupHolds(g, train) && |g.buf| >= 40
    ensures Stream(key, train) == if key == Some(GroupKey(g)) then train else []
  {
    hide GroupHolds, FlowKey;
    forall i | 0 <= i < |train| ensures FlowKey(train[i]) == Some(GroupKey(g)) { HeldFlow(g, train, i); }
    StreamOfOneFlow(key, Some(GroupKey(g)), train);
  }

  lemma OfferOne(key: Option<Packet>, ps: seq<Packet>, p: Packet)
    ensures Stream(key, ps + [p]) == Stream(key, ps) + (if FlowKey(p) == key then [p] else [])
  {
    assert (ps + [p])[..|ps|] == ps;
  }

  lemma BatchGrows(held: seq<seq<Packet>>, offered: seq<Packet>, p: Packet)
    requires FromBatch(held, offered)
    ensures FromBatch(held, offered + [p])
  {
  }

  /** A pass-through write whose flow holds nothing is in order. */
  lemma ThroughKeeps(s: State, held: seq<seq<Packet>>, settled: seq<Packet>, offered: seq<Packet>, p: Packet)
    requires Inv(s, held, settled, offered) && HeldOf(FlowKey(p), s.tbl, held) == []
    ensures Inv(s.(out := s.out + [Plain(p)]), held, settled + [p], offered + [p])
  {
    hide GroupHolds, Flushable, StandsFor, HeldOf, Stream, FlowKey, FromBatch, ExpandAll;
    MatchesGrows(ExpandAll(s.out), settled, offered, p);
    ExpandAllConcat(s.out, [Plain(p)]);
    PlainExpands(p, offered + [p]);
    BatchGrows(held, offered, p);
    forall key: Option<Packet>
      ensures Stream(key, offered + [p]) == Stream(key, settled + [p]) + HeldOf(key, s.tbl, held)
    {
      OfferOne(key, offered, p);
      OfferOne(key, settled, p);
    }
  }

  lemma PlainExpands(p: Packet, offered: seq<Packet>)
    ensures ExpandAll([Plain(p)]) == [p] && StandsFor(p, p, offered)
  {
    assert [Plain(p)][..0] == [];
  }

  /** Taking p into the flow's own group holds it behind everything already held. */
  lemma HoldKeeps(s: State, held: seq<seq<Packet>>, settled: seq<Packet>, offered: seq<Packet>, j: nat, g: Group, p: Packet)
    requires Inv(s, held, settled, offered) && j < |s.tbl|
    requires GroupHolds(g, held[j] + [p]) && |g.buf| >= 40 && Flushable(g)
    requires GroupKey(g) == GroupKey(s.tbl[j]) && FlowKey(p) == Some(GroupKey(g))
    ensures Inv(s.(tbl := s.tbl[j := g]), held[j := held[j] + [p]], settled, offered + [p])
  {
    hide GroupHolds, Flushable, StandsFor, HeldOf, Stream, FlowKey, ExpandAll;
    MatchesGrows(ExpandAll(s.out), settled, offered, p);
    ReplaceGroup(s.tbl, held, j, g, held[j] + [p]);
    HeldIsGroup(s.tbl, held, j);
    forall key: Option<Packet>
      ensures Stream(key, offered + [p]) == Stream(key, settled) + HeldOf(key, s.tbl[j := g], held[j := held[j] + [p]])
    {
      OfferOne(key, offered, p);
    }
  }

  /** A flow with no group yet gets one. */
  lemma OpenKeeps(s: State, held: seq<seq<Packet>>, settled: seq<Packet>, offered: seq<Packet>, g: Group, p: Packet)
    requires Inv(s, held, settled, offered)
    requires GroupHolds(g, [p]) && |g.buf| >= 40 && Flushable(g) && FlowKey(p) == Some(GroupKey(g))
    requires Find(s.tbl, GroupKey(g), 0) == |s.tbl|
    ensures Inv(s.(tbl := s.tbl + [g]), held + [[p]], settled, offered + [p])
  {
    hide GroupHolds, Flushable, StandsFor, Stream, FlowKey, ExpandAll;
    MatchesGrows(ExpandAll(s.out), settled, offered, p);
    var t, h := s.tbl + [g], held + [[p]];
    assert TableHolds(t, h);
    forall key: Option<Packet>
      ensures Stream(key, offered + [p]) == Stream(key, settled) + HeldOf(key, t, h)
    {
      OfferOne(key, offered, p);
      if key.Some? { FindExtended(s.tbl, g, key.value, 0); }
    }
  }

  lemma {:induction false} FindExtended(tbl: seq<Group>, g: Group, key: Packet, i: nat)
    requires Tidy(tbl) && Tidy(tbl + [g]) && i <= |tbl|
    ensures Find(tbl + [g], key, i) == if Find(tbl, key, i) == |tbl| && GroupKey(g) != key then |tbl| + 1 else Find(tbl, key, i)
    decreases |tbl| - i
  {
    if i < |tbl| && GroupKey(tbl[i]) != key { FindExtended(tbl, g, key, i + 1); }
  }

  lemma StartHolds(p: Packet)
    requires Eligible(p)
    ensures |p| > 40 && GroupHolds(Start(p), [p]) && Flushable(Start(p)) && |Start(p).buf| >= 40
    ensures GroupKey(Start(p)) == p[12..24] && FlowKey(p) == Some(p[12..24])
  {
  }

  lemma BuildAtLeast(held: seq<Packet>)
    requires Build(held).Some?
    ensures 40 < Build(held).value.length == |Build(held).value.buf|
  {
  }

  lemma AppendKeepsKey(g: Group, p: Packet)
    requires 40 <= g.length == |g.buf| && |p| >= 40
    ensures |Append(g, p).buf| >= 40 && GroupKey(Append(g, p)) == GroupKey(g)
  {
    assert Append(g, p).buf[12..24] == g.buf[12..24];
  }

  lemma AppendHolds(g: Group, held: seq<Packet>, p: Packet)
    requires GroupHolds(g, held) && held != [] && |g.buf| >= 40 && Mergeable(g, p)
    ensures var r := Append(g, p); GroupHolds(r, held + [p]) && Flushable(r) && |r.buf| >= 40 && GroupKey(r) == GroupKey(g)
  {
    hide Coalescible, TcpChecksumOK, CanAppend, OrFinPsh, Fin, Psh, Low16, Low32;
    EligibleLength(p);
    assert (held + [p])[..|held|] == held;
    BuildAtLeast(held);
    AppendKeepsKey(g, p);
  }

  /** One packet of the batch keeps the invariant, unless it is appended to an emptied group. */
  lemma StepKeeps(s: State, held: seq<seq<Packet>>, settled: seq<Packet>, offered: seq<Packet>, p: Packet)
    returns (held': seq<seq<Packet>>, settled': seq<Packet>)
    requires Inv(s, held, settled, offered) && !OntoEmptied(s.tbl, p)
    ensures Inv(Step(s, p), held', settled', offered + [p])
  {
    hide GroupHolds, Inv, Eligible, CanAppend, Start, Append, Mergeable, FlushAt, HeldOf;
    TableOfInv(s, held, settled, offered);
    held', settled' := held, settled;
    if !Eligible(p) {
      var s1 := s;
      if FlowKey(p).Some? {
        var j := FindLive(s.tbl, FlowKey(p).value, 0);
        if j < |s.tbl| {
          s1 := FlushAt(s, j);
          FlushKeeps(s, held, settled, offered, j);
          held', settled' := held[j := []], settled + held[j];
          TableOfInv(s1, held', settled', offered);
          HeldIsGroup(s1.tbl, held', j);
        } else {
          NothingLive(s.tbl, held, FlowKey(p).value);
        }
      } else {
        NoFlowHoldsNothing(s.tbl, held);
      }
      ThroughKeeps(s1, held', settled', offered, p);
      settled' := settled' + [p];
    } else {
      StartHolds(p);
      var j := Find(s.tbl, p[12..24], 0);
      if j == |s.tbl| {
        OpenKeeps(s, held, settled, offered, Start(p), p);
        held' := held + [[p]];
      } else if CanAppend(s.tbl[j], p) {
        LiveHasTrain(s.tbl[j], held[j]);
        AppendMerges(s.tbl[j], p);
        AppendHolds(s.tbl[j], held[j], p);
        HoldKeeps(s, held, settled, offered, j, Append(s.tbl[j], p), p);
        held' := held[j := held[j] + [p]];
      } else {
        var s1 := FlushAt(s, j);
        FlushKeeps(s, held, settled, offered, j);
        held', settled' := held[j := []], settled + held[j];
        TableOfInv(s1, held', settled', offered);
        assert held'[j] + [p] == [p];
        HoldKeeps(s1, held', settled', offered, j, Start(p), p);
        held' := held'[j := [p]];
      }
    }
  }

  lemma TableOfInv(s: State, held: seq<seq<Packet>>, settled: seq<Packet>, offered: seq<Packet>)
    requires Inv(s, held, settled, offered)
    ensures TableHolds(s.tbl, held)
  {
  }

  lemma NothingLive(tbl: seq<Group>, held: seq<seq<Packet>>, key: Packet)
    requires TableHolds(tbl, held) && FindLive(tbl, key, 0) == |tbl|
    ensures HeldOf(Some(key), tbl, held) == []
  {
    var j := Find(tbl, key, 0);
    if j < |tbl| {
      assert GroupHolds(tbl[j], held[j]);
    }
  }

  lemma NoFlowHoldsNothing(tbl: seq<Group>, held: seq<seq<Packet>>)
    requires TableHolds(tbl, held)
    ensures HeldOf(None, tbl, held) == []
  {
  }

  lemma LiveHasTrain(g: Group, held: seq<Packet>)
    requires GroupHolds(g, held)
    ensures g.segs > 0 ==> held != []
  {
  }

  lemma AppendMerges(g: Group, p: Packet)
    requires |g.buf| >= 40 && Eligible(p) && |p| >= 40 && GroupKey(g) == p[12..24] && CanAppend(g, p)
    ensures Mergeable(g, p)
  {
  }

  // ---------- whole batches ----------

  /**
   The state after a batch, while every stored group keeps a header. clean turns false at the first
   packet that meets an emptied group; what the code does from there on is in GroStore.
   */
  datatype Progress = Progress(s: State, clean: bool)

  function Process(pkts: seq<Packet>): (r: Progress)
  {
    if pkts == [] then Progress(State([], []), true)
    else
      var n := |pkts| - 1;
      var before := Process(pkts[..n]);
      if !before.clean || !Tidy(before.s.tbl) || OntoEmptied(before.s.tbl, pkts[n]) then before.(clean := false)
      else Progress(Step(before.s, pkts[n]), true)
  }

  /** The flush of every group, in table order, that ends the batch. */
  function FlushAll(tbl: seq<Group>): (ws: seq<Write>)
  {
    if tbl == [] then []
    else
      var n := |tbl| - 1;
      FlushAll(tbl[..n]) + (if Flushable(tbl[n]) then FlushWrites(tbl[n]) else [])
  }

  /** Everything the batch writes to the TUN. */
  function Written(pkts: seq<Packet>): (ws: seq<Write>)
  {
    Process(pkts).s.out + FlushAll(Process(pkts).s.tbl)
  }

  lemma {:induction false} ProcessKeeps(pkts: seq<Packet>)
    returns (held: seq<seq<Packet>>, settled: seq<Packet>)
    requires Process(pkts).clean
    ensures Inv(Process(pkts).s, held, settled, pkts)
    decreases |pkts|
  {
    hide Step, OntoEmptied;
    if pkts == [] {
      held, settled := [], [];
    } else {
      var n := |pkts| - 1;
      var h, t := ProcessKeeps(pkts[..n]);
      held, settled := StepKeeps(Process(pkts[..n]).s, h, t, pkts[..n], pkts[n]);
      assert pkts[..n] + [pkts[n]] == pkts;
    }
  }

  /** All trains, in table order. */
  function Trains(held: seq<seq<Packet>>): (r: seq<Packet>)
  {
    if held == [] then [] else Trains(held[..|held| - 1]) + held[|held| - 1]
  }

  lemma {:induction false} FlushAllDelivers(tbl: seq<Group>, held: seq<seq<Packet>>, offered: seq<Packet>)
    requires TableHolds(tbl, held) && FromBatch(held, offered)
    ensures Matches(ExpandAll(FlushAll(tbl)), Trains(held), offered)
    decreases |tbl|
  {
    hide GroupHolds, Flushable, StandsFor, ExpandAll, FlushWrites;
    if tbl == [] {
      EmptyExpands(offered);
    } else {
      var n := |tbl| - 1;
      FlushAllDelivers(tbl[..n], held[..n], offered);
      FlushDelivers(tbl[n], held[n], offered);
      ExpandAllConcat(FlushAll(tbl[..n]), FlushWrites(tbl[n]));
    }
  }

  lemma {:induction false} TrainsAreHeld(tbl: seq<Group>, held: seq<seq<Packet>>, key: Option<Packet>)
    requires TableHolds(tbl, held)
    ensures Stream(key, Trains(held)) == HeldOf(key, tbl, held)
    decreases |tbl|
  {
    hide GroupHolds, Flushable, Stream, GroupKey, Find;
    if tbl == [] {
      NoStream(key);
      EmptyFind(tbl, held, key);
    } else {
      var n := |tbl| - 1;
      var t, h := tbl[..n], held[..n];
      TrainsAreHeld(t, h, key);
      StreamConcat(key, Trains(h), held[n]);
      StreamOfGroup(key, tbl[n], held[n]);
      ExtendHeld(t, h, tbl[n], held[n], key);
      assert t + [tbl[n]] == tbl && h + [held[n]] == held;
    }
  }

  lemma EmptyFind(tbl: seq<Group>, held: seq<seq<Packet>>, key: Option<Packet>)
    requires TableHolds(tbl, held) && tbl == []
    ensures HeldOf(key, tbl, held) == []
  {
  }

  lemma ExtendHeld(t: seq<Group>, h: seq<seq<Packet>>, g: Group, train: seq<Packet>, key: Option<Packet>)
    requires TableHolds(t, h) && TableHolds(t + [g], h + [train])
    ensures HeldOf(key, t + [g], h + [train]) == HeldOf(key, t, h) + (if key == Some(GroupKey(g)) then train else [])
  {
    hide GroupHolds, Flushable;
    if key.Some? {
      FindExtended(t, g, key.value, 0);
      assert (t + [g])[|t|] == g;
    }
  }

  lemma NoStream(key: Option<Packet>)
    ensures Stream(key, []) == []
  {
  }

  lemma EmptyExpands(offered: seq<Packet>)
    ensures Matches(ExpandAll([]), [], offered)
  {
  }

  /**
   A clean batch is invisible to every flow: expanding what was written yields, for each 4-tuple
   and for the packets that have none, exactly the offered packets in arrival order.
   */
  lemma CleanBatchDelivers(pkts: seq<Packet>, key: Option<Packet>)
    requires Process(pkts).clean
    ensures Matches(Stream(key, ExpandAll(Written(pkts))), Stream(key, pkts), pkts)
  {
    hide Process, StandsFor, ExpandAll, Stream, FlushAll, GroupHolds, Flushable, HeldOf, Trains;
    var s := Process(pkts).s;
    var held, settled := ProcessKeeps(pkts);
    FlushAllDelivers(s.tbl, held, pkts);
    ExpandAllConcat(s.out, FlushAll(s.tbl));
    var ds, ps := ExpandAll(s.out) + ExpandAll(FlushAll(s.tbl)), settled + Trains(held);
    assert Matches(ds, ps, pkts);
    StreamMatches(key, ds, ps, pkts);
    StreamConcat(key, settled, Trains(held));
    TrainsAreHeld(s.tbl, held, key);
  }

  /** Whenever two eligible packets of one flow could share a train, the merge rules cover every bit of both. */
  predicate Covered(pkts: seq<Packet>)
  {
    forall i, j :: 0 <= i < |pkts| && 0 <= j < |pkts| && Heads(pkts[i], pkts[j]) ==>
      |pkts[i]| >= 40 && |pkts[j]| >= 40 && RulesCoverAll(pkts[j], pkts[i])
  }

  /** Then what the stack sees is the offered packets themselves, up to the encoding of a zero checksum. */
  lemma CoveredBatchIsExact(pkts: seq<Packet>, key: Option<Packet>, x: nat)
    requires Process(pkts).clean && Covered(pkts) && x < |Stream(key, pkts)|
    ensures |Stream(key, ExpandAll(Written(pkts)))| == |Stream(key, pkts)|
    ensures var d, p := Stream(key, ExpandAll(Written(pkts)))[x], Stream(key, pkts)[x]; d == p || NearlySame(d, p)
  {
    hide Process, Written, ExpandAll, Stream, RulesCoverAll, NearlySame, Rewritten;
    CleanBatchDelivers(pkts, key);
    var d, p := Stream(key, ExpandAll(Written(pkts)))[x], Stream(key, pkts)[x];
    assert StandsFor(d, p, pkts);
    if d != p {
      var i :| 0 <= i < |pkts| && RewrittenAs(d, p, pkts[i]);
      var j := StreamMember(key, pkts, x);
      RoundTripExact(p, pkts[i]);
    }
  }

  lemma {:induction false} StreamMember(key: Option<Packet>, ps: seq<Packet>, x: nat) returns (j: nat)
    requires x < |Stream(key, ps)|
    ensures j < |ps| && ps[j] == Stream(key, ps)[x]
    decreases |ps|
  {
    var n := |ps| - 1;
    if x < |Stream(key, ps[..n])| {
      j := StreamMember(key, ps[..n], x);
    } else {
      j := n;
    }
  }

  lemma PartHolds(tbl: seq<Group>, held: seq<seq<Packet>>, offered: seq<Packet>, j: nat)
    requires TableHolds(tbl, held) && FromBatch(held, offered) && j < |tbl|
    ensures TableHolds(tbl[..j], held[..j]) && FromBatch(held[..j], offered)
    ensures TableHolds(tbl[j + 1..], held[j + 1..]) && FromBatch(held[j + 1..], offered)
  {
    hide GroupHolds, Flushable;
  }

  /** Flushing groups of other flows puts nothing into this one. */
  lemma OthersSilent(tbl: seq<Group>, held: seq<seq<Packet>>, offered: seq<Packet>, key: Packet)
    requires TableHolds(tbl, held) && FromBatch(held, offered)
    requires forall i :: 0 <= i < |tbl| ==> GroupKey(tbl[i]) != key
    ensures Stream(Some(key), ExpandAll(FlushAll(tbl))) == []
  {
    hide StandsFor, Stream, ExpandAll, FlushAll, GroupHolds, Flushable, Trains;
    FlushAllDelivers(tbl, held, offered);
    StreamMatches(Some(key), ExpandAll(FlushAll(tbl)), Trains(held), offered);
    TrainsAreHeld(tbl, held, Some(key));
  }

  lemma LengthTells(d: Packet, p: Packet, offered: seq<Packet>)
    requires |d| < |p|
    ensures !StandsFor(d, p, offered)
  {
    if StandsFor(d, p, offered) { StandsForKeepsFlow(d, p, offered); }
  }

  lemma EmptiedHoldsNothing(g: Group, held: seq<Packet>)
    requires GroupHolds(g, held) && g.segs == 0
    ensures held == [] && Emptied(g)
  {
  }

  lemma {:induction false} FirstLoss(pkts: seq<Packet>) returns (n: nat)
    requires !Process(pkts).clean
    ensures n < |pkts| && Process(pkts[..n]).clean && Tidy(Process(pkts[..n]).s.tbl)
    ensures OntoEmptied(Process(pkts[..n]).s.tbl, pkts[n])
    decreases |pkts|
  {
    hide Step, OntoEmptied, TableHolds;
    n := |pkts| - 1;
    if !Process(pkts[..n]).clean {
      var all := n;
      n := FirstLoss(pkts[..all]);
      assert pkts[..all][..n] == pkts[..n];
    } else {
      var held, settled := ProcessKeeps(pkts[..n]);
      TidyOfInv(Process(pkts[..n]).s, held, settled, pkts[..n]);
    }
  }

  lemma TidyOfInv(s: State, held: seq<seq<Packet>>, settled: seq<Packet>, offered: seq<Packet>)
    requires Inv(s, held, settled, offered)
    ensures Tidy(s.tbl)
  {
  }

  lemma CleanIsTidy(pkts: seq<Packet>)
    requires Process(pkts).clean
    ensures Tidy(Process(pkts).s.tbl)
  {
    hide Process, Inv;
    var held, settled := ProcessKeeps(pkts);
    TidyOfInv(Process(pkts).s, held, settled, pkts);
  }

  lemma {:induction false} CleanPrefix(pkts: seq<Packet>, n: nat)
    requires Process(pkts).clean && n <= |pkts|
    ensures Process(pkts[..n]).clean
    decreases |pkts|
  {
    hide Step, OntoEmptied, Tidy;
    if n == |pkts| {
      assert pkts[..n] == pkts;
    } else {
      CleanPrefix(pkts[..|pkts| - 1], n);
      assert pkts[..|pkts| - 1][..n] == pkts[..n];
    }
  }
}
