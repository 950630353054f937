/**
 What each flow of a clean batch gets, packet by packet (dataplane/gro_linux.go): which packets were
 merged, under which head, and so exactly when coalescing hands the flow its own packets back.
 */
module GroExact {
  import opened Bytes
  import opened Gro
  import opened GroBatch
  import opened GroFlow

  /** What becomes of a packet: written as it came, or merged into a train and cut again under that train's head. */
  datatype Fate = AsIs(p: Packet) | Under(p: Packet, h: Packet)

  /** What the stack gets for it. */
  function Result(f: Fate): (d: Packet)
  {
    match f
    case AsIs(p) => p
    case Under(p, h) => if |p| >= 40 && |h| >= 40 then Rewritten(p, h) else p
  }

  function Results(fs: seq<Fate>): (r: seq<Packet>)
    ensures |r| == |fs|
  {
    seq(|fs|, i requires 0 <= i < |fs| => Result(fs[i]))
  }

  function Arrived(fs: seq<Fate>): (r: seq<Packet>)
    ensures |r| == |fs|
  {
    seq(|fs|, i requires 0 <= i < |fs| => fs[i].p)
  }

  /** A train of one goes out as it came; a longer one is cut again under its head. */
  function TrainFates(train: seq<Packet>): (r: seq<Fate>)
    ensures |r| == |train|
  {
    seq(|train|, i requires 0 <= i < |train| => if |train| == 1 then AsIs(train[i]) else Under(train[i], train[0]))
  }

  /** The fates that p settles in a flow left in state f. */
  function NextFates(f: FlowState, p: Packet): (r: seq<Fate>)
  {
    match f
    case Fresh => if Eligible(p) then [] else [AsIs(p)]
    case Held(train) =>
      if !Eligible(p) then TrainFates(train) + [AsIs(p)]
      else if Build(train + [p]).Some? then []
      else TrainFates(train)
    case Gone(_) => if Eligible(p) then [] else [AsIs(p)]
  }

  /** The fates settled while a flow's packets arrive. */
  function Settled(ps: seq<Packet>): (r: seq<Fate>)
  {
    if ps == [] then []
    else
      var n := |ps| - 1;
      Settled(ps[..n]) + NextFates(FlowAfter(ps[..n]), ps[n])
  }

  /** And with the flush that ends the batch. */
  function Fates(ps: seq<Packet>): (r: seq<Fate>)
  {
    var f := FlowAfter(ps);
    Settled(ps) + if f.Held? then TrainFates(f.train) else []
  }

  function HeldBy(f: FlowState): (r: seq<Packet>) { if f.Held? then f.train else [] }

  lemma ArrivedConcat(a: seq<Fate>, b: seq<Fate>)
    ensures Arrived(a + b) == Arrived(a) + Arrived(b) && Results(a + b) == Results(a) + Results(b)
  {
  }

  lemma TrainArrives(train: seq<Packet>)
    ensures Arrived(TrainFates(train)) == train
  {
  }

  /** Each packet joins what is held, and what it settles was held before it. */
  lemma NextArrives(f: FlowState, p: Packet)
    ensures Arrived(NextFates(f, p)) + HeldBy(NextFlow(f, p)) == HeldBy(f) + [p]
  {
    hide Eligible, Build, TrainFates;
    if f.Held? {
      TrainArrives(f.train);
      ArrivedConcat(TrainFates(f.train), [AsIs(p)]);
    }
    assert Arrived([AsIs(p)]) == [p] && Arrived([]) == [];
  }

  lemma Regroup(a: seq<Packet>, b: seq<Packet>, c: seq<Packet>)
    ensures a + b + c == a + (b + c)
  {
  }

  /** Every packet of a flow has one fate, in arrival order. */
  lemma {:induction false} SettledArrives(ps: seq<Packet>)
    ensures Arrived(Settled(ps)) + HeldBy(FlowAfter(ps)) == ps
    decreases |ps|
  {
    hide NextFates, NextFlow, Arrived, HeldBy;
    if ps == [] {
      NothingArrives();
    } else {
      var n := |ps| - 1;
      var f, p := FlowAfter(ps[..n]), ps[n];
      SettledArrives(ps[..n]);
      ArrivedConcat(Settled(ps[..n]), NextFates(f, p));
      NextArrives(f, p);
      Regroup(Arrived(Settled(ps[..n])), Arrived(NextFates(f, p)), HeldBy(NextFlow(f, p)));
      Regroup(Arrived(Settled(ps[..n])), HeldBy(f), [p]);
      assert ps == ps[..n] + [p];
    }
  }

  lemma NothingArrives()
    ensures Arrived(Settled([])) + HeldBy(FlowAfter([])) == []
  {
  }

  lemma FatesArrive(ps: seq<Packet>)
    ensures Arrived(Fates(ps)) == ps
  {
    hide Settled, FlowAfter;
    SettledArrives(ps);
    var f := FlowAfter(ps);
    if f.Held? {
      TrainArrives(f.train);
      ArrivedConcat(Settled(ps), TrainFates(f.train));
    }
  }

  // ---------- what a flush puts into each flow ----------

  lemma FlushIsFates(g: Group, train: seq<Packet>)
    requires Build(train) == Some(g) && Flushable(g)
    ensures ExpandAll(FlushWrites(g)) == Results(TrainFates(train))
  {
    hide Build, FlushWrites, Flushable, ExpandAll, Results, TrainFates;
    BuildCountsAll(train);
    if |train| == 1 { LoneIsFates(g, train); } else { CutIsFates(g, train); }
  }

  lemma LoneIsFates(g: Group, train: seq<Packet>)
    requires Build(train) == Some(g) && Flushable(g) && |train| == 1
    ensures ExpandAll(FlushWrites(g)) == Results(TrainFates(train))
  {
    hide Build, FlushFrame, FlushHdr, Expand, ExpandAll, StandsFor, Results;
    BuildCountsAll(train);
    var p := train[0];
    assert train == [p];
    StartIsWhole(p);
    PlainExpands(p, []);
    LoneFate(p);
  }

  lemma LoneFate(p: Packet)
    ensures Results(TrainFates([p])) == [p]
  {
  }

  lemma CutIsFates(g: Group, train: seq<Packet>)
    requires Build(train) == Some(g) && Flushable(g) && |train| > 1
    ensures ExpandAll(FlushWrites(g)) == Results(TrainFates(train))
  {
    hide *;
    FlushExpands(g, train);
    var w := Gso(FlushHdr(g), FlushFrame(g));
    OneExpands(w);
    forall i | 0 <= i < |train| ensures Expand(w)[i] == Results(TrainFates(train))[i] {
      GroThenCut(train, i);
      CutFate(train, i);
    }
  }

  lemma CutFate(train: seq<Packet>, i: nat)
    requires |train| > 1 && i < |train| && |train[i]| >= 40 && |train[0]| >= 40
    ensures Results(TrainFates(train))[i] == Rewritten(train[i], train[0])
  {
    hide Rewritten;
  }

  lemma OneExpands(w: Write)
    ensures ExpandAll([w]) == Expand(w)
  {
    hide Expand;
    assert [w][..0] == [];
    assert ExpandAll([w]) == [] + Expand(w);
  }

  lemma BuildCountsAll(train: seq<Packet>)
    requires Build(train).Some?
    ensures train != [] && Build(train).value.segs == |train|
  {
  }

  /** Flushing a group puts its train's fates into its own flow and nothing into any other. */
  lemma FlushStream(g: Group, train: seq<Packet>, key: Packet)
    requires Build(train) == Some(g) && Flushable(g) && |g.buf| >= 40
    ensures Stream(Some(key), ExpandAll(FlushWrites(g))) == if GroupKey(g) == key then Results(TrainFates(train)) else []
  {
    hide Build, FlushWrites, ExpandAll, StandsFor, FlowKey, Stream, Flushable, Results;
    BuildCountsAll(train);
    FlushIsFates(g, train);
    FlushDelivers(g, train, train);
    var ds := ExpandAll(FlushWrites(g));
    forall i | 0 <= i < |ds| ensures FlowKey(ds[i]) == Some(GroupKey(g)) {
      assert StandsFor(ds[i], train[i], train);
      StandsForKeepsFlow(ds[i], train[i], train);
      HeldFlow(g, train, i);
    }
    StreamOfOneFlow(Some(key), Some(GroupKey(g)), ds);
  }

  lemma EmptyFlush(g: Group, key: Option<Packet>)
    requires Flushable(g) && g.segs == 0
    ensures Stream(key, ExpandAll(FlushWrites(g))) == []
  {
  }

  /** What the group of a flow in state f puts into flow key when it is flushed. */
  lemma GroupStream(tbl: seq<Group>, own: Packet, f: FlowState, j: nat, key: Packet)
    requires Tidy(tbl) && GroupIs(tbl, own, f) && j == Find(tbl, own, 0) < |tbl|
    ensures Flushable(tbl[j])
    ensures Stream(Some(key), ExpandAll(FlushWrites(tbl[j]))) == if key == own && f.Held? then Results(TrainFates(f.train)) else []
  {
    hide Build, FlushWrites, ExpandAll, Stream, Results, Flushable;
    assert tbl[j] in tbl;
    if f.Held? {
      FlushStream(tbl[j], f.train, key);
    } else {
      GoneIsEmpty(f.train);
      EmptyFlush(tbl[j], Some(key));
    }
  }

  lemma AddPlain(key: Packet, out: seq<Write>, p: Packet)
    ensures Stream(Some(key), ExpandAll(out + [Plain(p)])) == Stream(Some(key), ExpandAll(out)) + if FlowKey(p) == Some(key) then [p] else []
  {
    hide ExpandAll, Stream, FlowKey, StandsFor;
    ExpandAllConcat(out, [Plain(p)]);
    PlainExpands(p, []);
    OfferOne(Some(key), ExpandAll(out), p);
  }

  lemma AddFlush(key: Packet, out: seq<Write>, ws: seq<Write>)
    ensures Stream(Some(key), ExpandAll(out + ws)) == Stream(Some(key), ExpandAll(out)) + Stream(Some(key), ExpandAll(ws))
  {
    hide ExpandAll, Stream;
    ExpandAllConcat(out, ws);
    StreamConcat(Some(key), ExpandAll(out), ExpandAll(ws));
  }

  // ---------- one step ----------

  lemma ThroughOut(s: State, held: seq<seq<Packet>>, offered: seq<Packet>, p: Packet, key: Packet)
    requires TableHolds(s.tbl, held) && FlowsMatch(s.tbl, offered) && !Eligible(p)
    ensures Stream(Some(key), ExpandAll(Step(s, p).out)) == Stream(Some(key), ExpandAll(s.out))
         + if FlowKey(p) == Some(key) then Results(NextFates(FlowAfter(Stream(Some(key), offered)), p)) else []
  {
    hide Eligible, ExpandAll, Stream, FlowAfter, Build, FlushWrites, Flushed, FlowKey, GroupHolds, Flushable, Results, Find, FindLive;
    if FlowKey(p).None? {
      AddPlain(key, s.out, p);
    } else {
      var own := FlowKey(p).value;
      var f := FlowAfter(Stream(Some(own), offered));
      assert GroupIs(s.tbl, own, f);
      OneIsAsIs(p);
      var j := FindLive(s.tbl, own, 0);
      LiveIsOwn(s.tbl, held, own, f);
      if j == |s.tbl| {
        AddPlain(key, s.out, p);
      } else {
        GroupStream(s.tbl, own, f, j, key);
        AddFlush(key, s.out, FlushWrites(s.tbl[j]));
        AddPlain(key, s.out + FlushWrites(s.tbl[j]), p);
        ArrivedConcat(TrainFates(f.train), [AsIs(p)]);
      }
    }
  }

  lemma OneIsAsIs(p: Packet)
    ensures Results([AsIs(p)]) == [p]
  {
  }

  /** The live group flushSameFlow finds is the flow's own, and there is one exactly when the flow holds a train. */
  lemma LiveIsOwn(tbl: seq<Group>, held: seq<seq<Packet>>, own: Packet, f: FlowState)
    requires TableHolds(tbl, held) && GroupIs(tbl, own, f)
    ensures var j := FindLive(tbl, own, 0); (j < |tbl| <==> f.Held?) && (j < |tbl| ==> j == Find(tbl, own, 0))
  {
    hide Build, GroupHolds, Flushable, Flushed;
    if f.Held? { BuildCounts(f.train); }
    if f.Gone? { GoneIsEmpty(f.train); }
  }

  lemma EligibleOut(s: State, held: seq<seq<Packet>>, offered: seq<Packet>, p: Packet, key: Packet)
    requires TableHolds(s.tbl, held) && FlowsMatch(s.tbl, offered) && Eligible(p) && !OntoEmptied(s.tbl, p)
    ensures Stream(Some(key), ExpandAll(Step(s, p).out)) == Stream(Some(key), ExpandAll(s.out))
         + if FlowKey(p) == Some(key) then Results(NextFates(FlowAfter(Stream(Some(key), offered)), p)) else []
  {
    hide Eligible, ExpandAll, Stream, FlowAfter, Build, FlushWrites, Flushed, FlowKey, GroupHolds, Flushable, CanAppend, Find, Start, Append, Mergeable;
    StartHolds(p);
    var own := p[12..24];
    var f := FlowAfter(Stream(Some(own), offered));
    assert GroupIs(s.tbl, own, f);
    assert Results([]) == [];
    var j := Find(s.tbl, own, 0);
    if j < |s.tbl| {
      assert s.tbl[j] in s.tbl;
      if f.Gone? { GoneIsEmpty(f.train); }
      if f.Held? { BuildMore(f.train, p); }
      if CanAppend(s.tbl[j], p) {
        AppendMerges(s.tbl[j], p);
      } else {
        CannotMerge(s.tbl[j], p);
        GroupStream(s.tbl, own, f, j, key);
        AddFlush(key, s.out, FlushWrites(s.tbl[j]));
      }
    }
  }

  lemma CannotMerge(g: Group, p: Packet)
    requires |g.buf| >= 40 && |p| >= 40 && !CanAppend(g, p)
    ensures !Mergeable(g, p)
  {
  }

  // ---------- whole batches ----------

  /** One packet adds the results it settles to its own flow's output. */
  lemma StepOut(s: State, before: seq<Packet>, p: Packet, key: Packet)
    requires Process(before) == Progress(s, true) && Tidy(s.tbl) && !OntoEmptied(s.tbl, p)
    ensures Stream(Some(key), ExpandAll(Step(s, p).out)) == Stream(Some(key), ExpandAll(s.out))
         + if FlowKey(p) == Some(key) then Results(NextFates(FlowAfter(Stream(Some(key), before)), p)) else []
  {
    hide *;
    CleanFlowsMatch(before);
    var held, settled := ProcessKeeps(before);
    TableOfInv(s, held, settled, before);
    if Eligible(p) { EligibleOut(s, held, before, p, key); } else { ThroughOut(s, held, before, p, key); }
  }

  lemma {:induction false} ProcessOut(pkts: seq<Packet>, key: Packet)
    requires Process(pkts).clean
    ensures Stream(Some(key), ExpandAll(Process(pkts).s.out)) == Results(Settled(Stream(Some(key), pkts)))
    decreases |pkts|
  {
    hide Step, OntoEmptied, FlowAfter, NextFates, ExpandAll, Stream, FlowKey, Settled, Results;
    if pkts == [] {
      NothingOut(key);
    } else {
      var n := |pkts| - 1;
      var before, p := pkts[..n], pkts[n];
      var was := Stream(Some(key), before);
      ProcessOut(before, key);
      StepOut(Process(before).s, before, p, key);
      assert before + [p] == pkts;
      OfferOne(Some(key), before, p);
      SettledOneMore(was, p);
      ArrivedConcat(Settled(was), NextFates(FlowAfter(was), p));
      assert was + [] == was;
    }
  }

  lemma NothingOut(key: Packet)
    ensures Stream(Some(key), ExpandAll([])) == Results(Settled(Stream(Some(key), [])))
  {
  }

  lemma SettledOneMore(ps: seq<Packet>, p: Packet)
    ensures Settled(ps + [p]) == Settled(ps) + NextFates(FlowAfter(ps), p)
  {
    hide NextFates, FlowAfter;
    assert (ps + [p])[..|ps|] == ps;
  }

  lemma {:induction false} FlushAllConcat(a: seq<Group>, b: seq<Group>)
    ensures FlushAll(a + b) == FlushAll(a) + FlushAll(b)
    decreases |b|
  {
    hide FlushWrites, Flushable;
    if b == [] {
      assert a + b == a;
    } else {
      var n := |b| - 1;
      assert (a + b)[..|a + b| - 1] == a + b[..n];
      FlushAllConcat(a, b[..n]);
    }
  }

  lemma OneFlush(g: Group)
    requires Flushable(g)
    ensures FlushAll([g]) == FlushWrites(g)
  {
    assert [g][..0] == [];
  }

  lemma FlushAllAt(tbl: seq<Group>, j: nat)
    requires j < |tbl| && Flushable(tbl[j])
    ensures FlushAll(tbl) == FlushAll(tbl[..j]) + (FlushWrites(tbl[j]) + FlushAll(tbl[j + 1..]))
  {
    hide FlushWrites, Flushable, FlushAll;
    var a, b := tbl[..j], tbl[j + 1..];
    assert tbl == a + ([tbl[j]] + b);
    FlushAllConcat(a, [tbl[j]] + b);
    FlushAllConcat([tbl[j]], b);
    OneFlush(tbl[j]);
  }

  predicate ApartFrom(tbl: seq<Group>, key: Packet)
  {
    Tidy(tbl) && forall i :: 0 <= i < |tbl| ==> GroupKey(tbl[i]) != key
  }

  /** No other group of the table has the flow of group j. */
  lemma OthersDiffer(tbl: seq<Group>, held: seq<seq<Packet>>, j: nat)
    requires TableHolds(tbl, held) && j < |tbl|
    ensures |tbl[j].buf| >= 40 && ApartFrom(tbl[..j], GroupKey(tbl[j])) && ApartFrom(tbl[j + 1..], GroupKey(tbl[j]))
  {
    hide GroupHolds, Flushable, GroupKey;
    assert tbl[j] in tbl;
  }

  /** The final flush gives a flow the train it still holds. */
  lemma FlushAllStream(tbl: seq<Group>, held: seq<seq<Packet>>, offered: seq<Packet>, key: Packet, f: FlowState)
    requires TableHolds(tbl, held) && FromBatch(held, offered) && GroupIs(tbl, key, f)
    ensures Stream(Some(key), ExpandAll(FlushAll(tbl))) == if f.Held? then Results(TrainFates(f.train)) else []
  {
    hide Build, FlushWrites, ExpandAll, Stream, FlushAll, Results, Flushable, Flushed, TableHolds, FromBatch, Tidy;
    HoldsIsTidy(tbl, held);
    var j := Find(tbl, key, 0);
    if j == |tbl| {
      OthersSilent(tbl, held, offered, key);
    } else {
      var a, b := tbl[..j], tbl[j + 1..];
      GroupStream(tbl, key, f, j, key);
      FlushAllAt(tbl, j);
      AddFlush(key, FlushAll(a), FlushWrites(tbl[j]) + FlushAll(b));
      AddFlush(key, FlushWrites(tbl[j]), FlushAll(b));
      PartHolds(tbl, held, offered, j);
      OthersDiffer(tbl, held, j);
      OthersSilent(a, held[..j], offered, key);
      OthersSilent(b, held[j + 1..], offered, key);
    }
  }

  lemma HoldsIsTidy(tbl: seq<Group>, held: seq<seq<Packet>>)
    requires TableHolds(tbl, held)
    ensures Tidy(tbl) && |tbl| == |held|
  {
  }

  /** What each flow of a clean batch gets, octet for octet: the result of each of its packets' fates, in arrival order. */
  lemma ExactOutput(pkts: seq<Packet>, key: Packet)
    requires EveryFlowClean(pkts)
    ensures Stream(Some(key), ExpandAll(Written(pkts))) == Results(Fates(Stream(Some(key), pkts)))
    ensures Arrived(Fates(Stream(Some(key), pkts))) == Stream(Some(key), pkts)
  {
    hide Process, ExpandAll, Stream, FlushAll, Settled, FlowAfter, EveryFlowClean, GroupIs, Results, Arrived, TrainFates, Inv;
    CleanIffFlowsClean(pkts);
    var s, ps := Process(pkts).s, Stream(Some(key), pkts);
    var f := FlowAfter(ps);
    ProcessOut(pkts, key);
    CleanFlowsMatch(pkts);
    assert GroupIs(s.tbl, key, f);
    var held, settled := ProcessKeeps(pkts);
    HoldsAndFrom(s, held, settled, pkts);
    FlushAllStream(s.tbl, held, pkts, key, f);
    AddFlush(key, s.out, FlushAll(s.tbl));
    ArrivedConcat(Settled(ps), if f.Held? then TrainFates(f.train) else []);
    NoResults();
    FatesArrive(ps);
  }

  lemma HoldsAndFrom(s: State, held: seq<seq<Packet>>, settled: seq<Packet>, offered: seq<Packet>)
    requires Inv(s, held, settled, offered)
    ensures TableHolds(s.tbl, held) && FromBatch(held, offered)
  {
  }

  lemma NoResults()
    ensures Results([]) == []
  {
  }

  /** The packet comes back as it came, up to the encoding of a zero checksum. */
  predicate Kept(d: Packet, p: Packet) { d == p || NearlySame(d, p) }

  /** Nothing that was merged has a bit the merge rules left out: its IP checksum was right and its uncompared bits match its head's. */
  predicate MergesCover(fs: seq<Fate>)
  {
    forall i :: 0 <= i < |fs| && fs[i].Under? ==> |fs[i].p| >= 40 && |fs[i].h| >= 40 && RulesCoverAll(fs[i].p, fs[i].h)
  }

  /** Merged packets are eligible, and so are their heads. */
  predicate Merged(f: Fate) { f.Under? ==> Eligible(f.p) && Eligible(f.h) && |f.p| >= 40 && |f.h| >= 40 }

  lemma TrainMerged(train: seq<Packet>, i: nat)
    requires Build(train).Some? && i < |train|
    ensures Merged(TrainFates(train)[i])
  {
    hide Build, Eligible, MemberShape, PayloadAt;
    BuildMember(train, i);
    BuildMember(train, 0);
  }

  lemma {:induction false} HeldBuilds(ps: seq<Packet>)
    ensures !FlowAfter(ps).Fresh? ==> Build(FlowAfter(ps).train).Some?
    decreases |ps|
  {
    if ps != [] {
      var n := |ps| - 1;
      HeldBuilds(ps[..n]);
      if Eligible(ps[n]) {
        EligibleLength(ps[n]);
        BuildOne(ps[n]);
      }
    }
  }

  lemma {:induction false} SettledMerged(ps: seq<Packet>, i: nat)
    requires i < |Settled(ps)|
    ensures Merged(Settled(ps)[i])
    decreases |ps|
  {
    hide Eligible, Build, Merged;
    var n := |ps| - 1;
    var f := FlowAfter(ps[..n]);
    HeldBuilds(ps[..n]);
    var k := |Settled(ps[..n])|;
    if i < k {
      SettledMerged(ps[..n], i);
    } else {
      AsIsMerged(ps[n]);
      if f.Held? && i - k < |f.train| { TrainMerged(f.train, i - k); }
    }
  }

  lemma AsIsMerged(p: Packet)
    ensures Merged(AsIs(p))
  {
  }

  lemma FatesMerged(ps: seq<Packet>, i: nat)
    requires i < |Fates(ps)|
    ensures Merged(Fates(ps)[i])
  {
    hide Eligible, Build, Settled, FlowAfter, Merged;
    HeldBuilds(ps);
    var f, k := FlowAfter(ps), |Settled(ps)|;
    if i < k { SettledMerged(ps, i); } else { TrainMerged(f.train, i - k); }
  }

  lemma KeptIff(f: Fate)
    requires Merged(f)
    ensures Kept(Result(f), f.p) <==> f.AsIs? || RulesCoverAll(f.p, f.h)
  {
    hide Eligible, Rewritten, RulesCoverAll;
    if f.Under? {
      RoundTripExact(f.p, f.h);
      SameIsNear(f.p);
    }
  }

  lemma SameIsNear(p: Packet)
    requires |p| >= 40
    ensures NearlySame(p, p)
  {
  }

  /** A flow of a clean batch gets its own packets back, in order, exactly when every packet of it that was merged is covered. */
  lemma FlowExactIff(pkts: seq<Packet>, key: Packet)
    requires EveryFlowClean(pkts)
    ensures var ds, ps := Stream(Some(key), ExpandAll(Written(pkts))), Stream(Some(key), pkts);
      |ds| == |ps| && ((forall i :: 0 <= i < |ps| ==> Kept(ds[i], ps[i])) <==> MergesCover(Fates(ps)))
  {
    hide ExpandAll, Stream, Written, Fates, EveryFlowClean, Kept, Result, RulesCoverAll, Eligible;
    ExactOutput(pkts, key);
    var ds, ps := Stream(Some(key), ExpandAll(Written(pkts))), Stream(Some(key), pkts);
    var fs := Fates(ps);
    forall i | 0 <= i < |ps|
      ensures Kept(ds[i], ps[i]) <==> fs[i].AsIs? || (|fs[i].p| >= 40 && |fs[i].h| >= 40 && RulesCoverAll(fs[i].p, fs[i].h))
    {
      assert ds[i] == Result(fs[i]) && ps[i] == Arrived(fs)[i];
      FatesMerged(ps, i);
      KeptIff(fs[i]);
    }
  }
}
