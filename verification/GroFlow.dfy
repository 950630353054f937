/**
 Cleanliness read off each flow's own packets (dataplane/gro_linux.go): a batch meets no emptied
 group exactly when no flow, taken alone, resumes a train that a pass-through packet has flushed.
 */
module GroFlow {
  import opened Bytes
  import opened Gro
  import opened GroBatch

  /** A flow by itself: nothing yet, a train being held, or a train that was flushed and only pass-through packets since. */
  datatype FlowState = Fresh | Held(train: seq<Packet>) | Gone(train: seq<Packet>)

  function NextFlow(f: FlowState, p: Packet): (r: FlowState)
  {
    match f
    case Fresh => if Eligible(p) then Held([p]) else Fresh
    case Held(train) =>
      if !Eligible(p) then Gone(train)
      else if Build(train + [p]).Some? then Held(train + [p])
      else Held([p])
    case Gone(train) => if Eligible(p) then Held([p]) else f
  }

  function FlowAfter(ps: seq<Packet>): (f: FlowState)
  {
    if ps == [] then Fresh else NextFlow(FlowAfter(ps[..|ps| - 1]), ps[|ps| - 1])
  }

  /** p continues, by every merge rule, the train its flow last had flushed under it. */
  predicate Resumes(f: FlowState, p: Packet)
  {
    && f.Gone? && Build(f.train).Some? && Eligible(p) && |p| >= 40
    && CanAppend(Build(f.train).value.(buf := FlushedBuf(f.train), segs := 0, length := 0), p)
  }

  /** The octets the flushed group still shows. */
  function FlushedBuf(train: seq<Packet>): (b: Packet)
    requires Build(train).Some?
    ensures |b| >= 40
  {
    var g := Build(train).value;
    if g.segs > 1 then FlushFrame(g) else g.buf
  }

  /** No packet of the flow resumes what the packets before it left. */
  predicate FlowClean(ps: seq<Packet>)
  {
    forall n :: 0 <= n < |ps| ==> !Resumes(FlowAfter(ps[..n]), ps[n])
  }

  /** The group of a flow is what the flow alone says. */
  predicate GroupIs(tbl: seq<Group>, key: Packet, f: FlowState)
    requires Tidy(tbl)
  {
    var j := Find(tbl, key, 0);
    match f
    case Fresh => j == |tbl|
    case Held(train) => j < |tbl| && Build(train) == Some(tbl[j])
    case Gone(train) => j < |tbl| && Build(train).Some? && Flushable(Build(train).value) && tbl[j] == Flushed(Build(train).value)
  }

  ghost predicate FlowsMatch(tbl: seq<Group>, offered: seq<Packet>)
    requires Tidy(tbl)
  {
    forall key: Packet :: GroupIs(tbl, key, FlowAfter(Stream(Some(key), offered)))
  }

  /** With that, meeting an emptied group is a matter of the flow alone. */
  lemma EmptiedIffResumes(tbl: seq<Group>, offered: seq<Packet>, p: Packet)
    requires Tidy(tbl) && FlowsMatch(tbl, offered)
    ensures OntoEmptied(tbl, p) <==>
      Eligible(p) && |p| >= 40 && Resumes(FlowAfter(Stream(Some(p[12..24]), offered)), p)
  {
    hide Eligible, CanAppend, Build, Find, Stream, FlowAfter, FlushFrame;
    if Eligible(p) {
      EligibleLength(p);
      var f := FlowAfter(Stream(Some(p[12..24]), offered));
      assert GroupIs(tbl, p[12..24], f);
      if f.Gone? { FlushedShows(f.train); }
      if f.Held? { BuildCounts(f.train); }
    }
  }

  lemma BuildCounts(train: seq<Packet>)
    requires Build(train).Some?
    ensures Build(train).value.segs > 0 && Build(train).value.length == |Build(train).value.buf|
  {
  }

  lemma FlushedShows(train: seq<Packet>)
    requires Build(train).Some? && Flushable(Build(train).value)
    ensures Flushed(Build(train).value) == Build(train).value.(buf := FlushedBuf(train), segs := 0, length := 0)
  {
    hide FlushFrame;
    var g := Build(train).value;
    BuildCounts(train);
    assert g.buf[g.length..] == [];
  }

  /** Replacing or adding one group leaves every other flow's answer alone. */
  lemma OtherFlow(a: seq<Group>, b: seq<Group>, j: nat, key: Packet, f: FlowState)
    requires Tidy(a) && Tidy(b) && GroupIs(a, key, f) && j < |b|
    requires |a| == |b| || (|a| + 1 == |b| && j == |a|)
    requires forall i :: 0 <= i < |a| && i != j ==> a[i] == b[i]
    requires j < |a| ==> GroupKey(a[j]) != key
    requires GroupKey(b[j]) != key
    ensures GroupIs(b, key, f)
  {
    hide Build, GroupKey, Flushed, Flushable;
    FindApart(a, b, j, key, 0);
  }

  lemma {:induction false} FindApart(a: seq<Group>, b: seq<Group>, j: nat, key: Packet, i: nat)
    requires Tidy(a) && Tidy(b) && j < |b| && i <= |a|
    requires |a| == |b| || (|a| + 1 == |b| && j == |a|)
    requires forall x :: 0 <= x < |a| && x != j ==> a[x] == b[x]
    requires j < |a| ==> GroupKey(a[j]) != key
    requires GroupKey(b[j]) != key
    ensures Find(b, key, i) == if Find(a, key, i) == |a| then |b| else Find(a, key, i)
    decreases |a| - i
  {
    if i < |a| && GroupKey(a[i]) != key { FindApart(a, b, j, key, i + 1); }
  }

  /** The flow of the packet at hand: its group moves as the flow alone does. */
  lemma OwnFlow(s: State, held: seq<seq<Packet>>, p: Packet, f: FlowState, key: Packet)
    requires TableHolds(s.tbl, held) && GroupIs(s.tbl, key, f) && FlowKey(p) == Some(key) && !OntoEmptied(s.tbl, p)
    ensures Tidy(Step(s, p).tbl) && GroupIs(Step(s, p).tbl, key, NextFlow(f, p))
  {
    hide CanAppend, Build, Start, Append, Flushed, FlushWrites, Eligible, FlowKey, GroupHolds;
    if Eligible(p) {
      OwnEligible(s, held, p, f, key);
    } else {
      OwnThrough(s, held, p, f, key);
    }
  }

  lemma OwnThrough(s: State, held: seq<seq<Packet>>, p: Packet, f: FlowState, key: Packet)
    requires TableHolds(s.tbl, held) && GroupIs(s.tbl, key, f) && FlowKey(p) == Some(key) && !Eligible(p)
    ensures Tidy(Step(s, p).tbl) && GroupIs(Step(s, p).tbl, key, NextFlow(f, p))
  {
    hide Build, Flushed, FlushWrites, Eligible, FlowKey, GroupHolds, Flushable;
    var j := Find(s.tbl, key, 0);
    var l := FindLive(s.tbl, key, 0);
    if f.Gone? { GoneIsEmpty(f.train); }
    if f.Held? { BuildCounts(f.train); }
    if l < |s.tbl| {
      assert l == j;
      assert s.tbl[j] in s.tbl;
      KeepsKey(s.tbl[j], held[j]);
      FlushedFlushable(s.tbl[j]);
      FindSame(s.tbl, s.tbl[j := Flushed(s.tbl[j])], key, 0);
    }
  }

  lemma GoneIsEmpty(train: seq<Packet>)
    requires Build(train).Some? && Flushable(Build(train).value)
    ensures Flushed(Build(train).value).segs == 0
  {
  }

  lemma KeepsKey(g: Group, train: seq<Packet>)
    requires GroupHolds(g, train) && |g.buf| >= 40 && Flushable(g)
    ensures |Flushed(g).buf| >= 40 && GroupKey(Flushed(g)) == GroupKey(g)
  {
    FlushedKeepsKey(g, train);
  }

  lemma OwnEligible(s: State, held: seq<seq<Packet>>, p: Packet, f: FlowState, key: Packet)
    requires TableHolds(s.tbl, held) && GroupIs(s.tbl, key, f) && FlowKey(p) == Some(key) && Eligible(p)
    requires !OntoEmptied(s.tbl, p)
    ensures Tidy(Step(s, p).tbl) && GroupIs(Step(s, p).tbl, key, NextFlow(f, p))
  {
    hide CanAppend, Build, Start, Append, Flushed, FlushWrites, Eligible, FlowKey, GroupHolds, Flushable, FlushAt;
    StartHolds(p);
    BuildOne(p);
    var j := Find(s.tbl, key, 0);
    if j == |s.tbl| {
      FindExtended(s.tbl, Start(p), key, 0);
    } else {
      assert s.tbl[j] in s.tbl;
      if f.Held? { BuildMore(f.train, p); }
      if f.Gone? { GoneIsEmpty(f.train); }
      if CanAppend(s.tbl[j], p) {
        LiveIsHeld(s.tbl[j], f);
        AppendMerges(s.tbl[j], p);
        BuildCounts(f.train);
        AppendFlushable(f.train, p);
        FindSame(s.tbl, s.tbl[j := Append(s.tbl[j], p)], key, 0);
      } else {
        RestartTable(s, j, p);
        FindSame(s.tbl, s.tbl[j := Start(p)], key, 0);
      }
    }
  }

  lemma RestartTable(s: State, j: nat, p: Packet)
    requires j < |s.tbl| && Flushable(s.tbl[j]) && |p| >= 40
    ensures FlushAt(s, j).(tbl := FlushAt(s, j).tbl[j := Start(p)]).tbl == s.tbl[j := Start(p)]
  {
    hide Flushed, Start, FlushWrites;
  }

  lemma LiveIsHeld(g: Group, f: FlowState)
    requires g.segs > 0 && !f.Fresh? && (f.Held? ==> Build(f.train) == Some(g))
    requires f.Gone? ==> Build(f.train).Some? && Flushable(Build(f.train).value) && g == Flushed(Build(f.train).value)
    ensures f.Held?
  {
  }

  lemma BuildOne(p: Packet)
    requires Eligible(p) && |p| >= 40
    ensures Build([p]) == Some(Start(p))
  {
  }

  lemma BuildMore(train: seq<Packet>, p: Packet)
    requires Build(train).Some? && Eligible(p) && |p| >= 40
    ensures |Build(train).value.buf| >= 40
    ensures Build(train + [p]) == if Mergeable(Build(train).value, p) then Some(Append(Build(train).value, p)) else None
  {
    hide Mergeable, Append, Eligible;
    assert (train + [p])[..|train|] == train;
  }

  lemma AppendFlushable(train: seq<Packet>, p: Packet)
    requires Build(train).Some? && |Build(train).value.buf| >= 40 && Mergeable(Build(train).value, p) && |p| >= 40
    ensures var g := Append(Build(train).value, p);
      Flushable(g) && |g.buf| >= 40 && GroupKey(g) == GroupKey(Build(train).value)
  {
    hide Mergeable, Append;
    BuildCounts(train);
    BuildAtLeast(train);
    AppendKeepsKey(Build(train).value, p);
    AppendLength(Build(train).value, p);
  }

  lemma AppendLength(g: Group, p: Packet)
    requires 40 <= g.length == |g.buf| && |p| >= 40
    ensures Append(g, p).length == |Append(g, p).buf| >= 40 && Append(g, p).segs > 0
  {
  }

  /** A step changes at most one group, and that one belongs to the packet's flow before and after. */
  lemma StepTouches(s: State, held: seq<seq<Packet>>, p: Packet) returns (j: nat)
    requires TableHolds(s.tbl, held) && !OntoEmptied(s.tbl, p)
    ensures Tidy(Step(s, p).tbl)
    ensures var b := Step(s, p).tbl;
      b == s.tbl ||
      (&& j < |b| && (|s.tbl| == |b| || (|s.tbl| + 1 == |b| && j == |s.tbl|))
       && (forall i :: 0 <= i < |s.tbl| && i != j ==> s.tbl[i] == b[i])
       && (j < |s.tbl| ==> Some(GroupKey(s.tbl[j])) == FlowKey(p))
       && Some(GroupKey(b[j])) == FlowKey(p))
  {
    hide CanAppend, Build, Start, Append, Flushed, FlushWrites, Eligible, FlowKey, GroupHolds, Flushable;
    j := 0;
    if !Eligible(p) {
      if FlowKey(p).Some? {
        j := FindLive(s.tbl, FlowKey(p).value, 0);
        if j < |s.tbl| {
          assert s.tbl[j] in s.tbl;
          KeepsKey(s.tbl[j], held[j]);
          FlushedFlushable(s.tbl[j]);
        }
      }
    } else {
      StartHolds(p);
      j := Find(s.tbl, p[12..24], 0);
      if j < |s.tbl| {
        assert s.tbl[j] in s.tbl;
        if CanAppend(s.tbl[j], p) {
          LiveHasTrain(s.tbl[j], held[j]);
          AppendMerges(s.tbl[j], p);
          AppendHolds(s.tbl[j], held[j], p);
        } else {
          RestartTable(s, j, p);
        }
      }
    }
  }

  lemma FlowOneMore(ps: seq<Packet>, p: Packet)
    ensures FlowAfter(ps + [p]) == NextFlow(FlowAfter(ps), p)
  {
    hide NextFlow;
    assert (ps + [p])[..|ps|] == ps;
  }

  lemma StepFlows(s: State, held: seq<seq<Packet>>, offered: seq<Packet>, p: Packet)
    requires TableHolds(s.tbl, held) && FlowsMatch(s.tbl, offered) && !OntoEmptied(s.tbl, p)
    ensures Tidy(Step(s, p).tbl) && FlowsMatch(Step(s, p).tbl, offered + [p])
  {
    hide Step, OntoEmptied, GroupIs, NextFlow, FlowAfter, Stream, FlowKey, GroupHolds, Flushable, GroupKey;
    var j := StepTouches(s, held, p);
    var b := Step(s, p).tbl;
    forall key: Packet ensures GroupIs(b, key, FlowAfter(Stream(Some(key), offered + [p]))) {
      var before := Stream(Some(key), offered);
      OfferOne(Some(key), offered, p);
      assert before + [] == before;
      assert GroupIs(s.tbl, key, FlowAfter(before));
      if FlowKey(p) == Some(key) {
        FlowOneMore(before, p);
        OwnFlow(s, held, p, FlowAfter(before), key);
      } else if b != s.tbl {
        OtherFlow(s.tbl, b, j, key, FlowAfter(before));
      }
    }
  }

  lemma {:induction false} CleanFlowsMatch(pkts: seq<Packet>)
    requires Process(pkts).clean
    ensures Tidy(Process(pkts).s.tbl) && FlowsMatch(Process(pkts).s.tbl, pkts)
    decreases |pkts|
  {
    hide Step, OntoEmptied, GroupIs, FlowAfter, TableHolds;
    CleanIsTidy(pkts);
    if pkts == [] {
      NothingMatches();
    } else {
      var n := |pkts| - 1;
      CleanFlowsMatch(pkts[..n]);
      var held, settled := ProcessKeeps(pkts[..n]);
      TableOfInv(Process(pkts[..n]).s, held, settled, pkts[..n]);
      StepFlows(Process(pkts[..n]).s, held, pkts[..n], pkts[n]);
      assert pkts[..n] + [pkts[n]] == pkts;
    }
  }

  lemma NothingMatches()
    ensures FlowsMatch([], [])
  {
  }

  /** One more packet keeps every flow clean exactly when it does not resume its own. */
  lemma FlowCleanOneMore(ps: seq<Packet>, p: Packet)
    ensures FlowClean(ps + [p]) <==> FlowClean(ps) && !Resumes(FlowAfter(ps), p)
  {
    hide FlowAfter, Resumes;
    var qs := ps + [p];
    assert qs[..|ps|] == ps && qs[|ps|] == p;
    forall n | 0 <= n < |ps| ensures qs[..n] == ps[..n] && qs[n] == ps[n] {}
  }

  ghost predicate EveryFlowClean(pkts: seq<Packet>) { forall key: Packet :: FlowClean(Stream(Some(key), pkts)) }

  lemma EveryFlowOneMore(pkts: seq<Packet>, p: Packet)
    ensures EveryFlowClean(pkts + [p]) <==>
      EveryFlowClean(pkts) && (Eligible(p) && |p| >= 40 ==> !Resumes(FlowAfter(Stream(Some(p[12..24]), pkts)), p))
  {
    hide FlowAfter, Resumes, Stream, FlowClean, Eligible, FlowKey;
    forall key: Packet
      ensures FlowClean(Stream(Some(key), pkts + [p])) <==>
        FlowClean(Stream(Some(key), pkts)) && (FlowKey(p) == Some(key) ==> !Resumes(FlowAfter(Stream(Some(key), pkts)), p))
    {
      OfferOne(Some(key), pkts, p);
      assert Stream(Some(key), pkts) + [] == Stream(Some(key), pkts);
      FlowCleanOneMore(Stream(Some(key), pkts), p);
    }
    if Eligible(p) { StartHolds(p); }
    if FlowKey(p).Some? && Resumes(FlowAfter(Stream(FlowKey(p), pkts)), p) { ResumesEligible(FlowAfter(Stream(FlowKey(p), pkts)), p); }
    if Eligible(p) && |p| >= 40 {
      assert FlowClean(Stream(Some(p[12..24]), pkts + [p])) <==>
        FlowClean(Stream(Some(p[12..24]), pkts)) && !Resumes(FlowAfter(Stream(Some(p[12..24]), pkts)), p);
    }
  }

  lemma ResumesEligible(f: FlowState, p: Packet)
    requires Resumes(f, p)
    ensures Eligible(p)
  {
  }

  /** A batch meets no emptied group exactly when every flow of it is clean by itself. */
  lemma {:induction false} CleanIffFlowsClean(pkts: seq<Packet>)
    ensures Process(pkts).clean <==> EveryFlowClean(pkts)
    decreases |pkts|
  {
    hide Step, OntoEmptied, Resumes, FlowAfter, FlowClean, Stream, Tidy, FlowsMatch, Eligible;
    if pkts == [] {
      NothingResumes();
    } else {
      var n := |pkts| - 1;
      var before := pkts[..n];
      assert before + [pkts[n]] == pkts;
      CleanIffFlowsClean(before);
      EveryFlowOneMore(before, pkts[n]);
      if Process(before).clean {
        CleanFlowsMatch(before);
        EmptiedIffResumes(Process(before).s.tbl, before, pkts[n]);
      }
    }
  }

  lemma NothingResumes()
    ensures EveryFlowClean([])
  {
  }
}
