/**
 Which handshakes are admitted, said of the arrivals alone (dataplane/admission.go): a source is let through
 exactly as often as its rate and burst allow in every window that ends with it.
 */
module AdmissionExact {
  import opened Admission

  /** How many of the arrivals j, ..., i - 1 are from a and pass. */
  function Passed(calls: seq<Call>, vs: seq<bool>, a: Source, j: nat, i: nat): (n: nat)
    requires i <= |calls| == |vs|
  {
    if i <= j then 0 else Passed(calls, vs, a, j, i - 1) + if calls[i - 1].from == a && vs[i - 1] then 1 else 0
  }

  // ---------- prefixes ----------

  lemma {:induction false} AfterOneMore(c: Config, m: Sources, calls: seq<Call>, i: nat)
    requires i < |calls|
    ensures RefAfter(c, m, calls[..i + 1]) == RefAllow(c, RefAfter(c, m, calls[..i]), calls[i]).0
    ensures RefVerdicts(c, m, calls)[i] == RefAllow(c, RefAfter(c, m, calls[..i]), calls[i]).1
    decreases i
  {
    hide RefAllow;
    assert calls[..i + 1][1..] == calls[1..][..i];
    if i > 0 {
      AfterOneMore(c, RefAllow(c, m, calls[0]).0, calls[1..], i - 1);
      assert calls[..i][1..] == calls[1..][..i - 1];
    }
  }

  lemma {:induction false} MonotonePrefix(t: real, calls: seq<Call>, i: nat)
    requires Monotone(t, calls) && i <= |calls|
    ensures Monotone(t, calls[..i])
    ensures forall j, k :: 0 <= j <= k < |calls| ==> t <= calls[j].now <= calls[k].now
    decreases |calls|
  {
    if calls != [] {
      var rest := calls[1..];
      MonotonePrefix(calls[0].now, rest, if i > 0 then i - 1 else 0);
      if i > 0 { assert calls[..i][1..] == rest[..i - 1]; }
      forall j, k | 0 <= j <= k < |calls| ensures t <= calls[j].now <= calls[k].now {
        if j > 0 { assert calls[j] == rest[j - 1]; }
        if k > 0 { assert calls[k] == rest[k - 1]; }
      }
    }
  }

  // ---------- the level of a bucket ----------

  /** Every window of source a that begins at an earlier arrival leaves room for x at time now. */
  predicate RoomFor(c: Config, calls: seq<Call>, vs: seq<bool>, i: nat, a: Source, now: real, x: real)
    requires i <= |calls| == |vs|
  {
    forall j :: 0 <= j < i && calls[j].from == a ==>
      x + Passed(calls, vs, a, j, i) as real <= c.burst + Earned(c, now - calls[j].now)
  }

  /** A bucket holds x tokens exactly when every window has room for x: the level is the tightest window. */
  lemma {:induction false} LevelIs(c: Config, calls: seq<Call>, i: nat, a: Source, now: real, x: real)
    requires Usable(c) && Monotone(0.0, calls) && i <= |calls| && x <= c.burst && EndTime(0.0, calls[..i]) <= now
    ensures Available(c, RefAfter(c, map[], calls[..i]), a, now) >= x
       <==> RoomFor(c, calls, RefVerdicts(c, map[], calls), i, a, now, x)
    decreases i
  {
    hide Earned, RefAllow, RefVerdicts, Available, RoomFor;
    var vs := RefVerdicts(c, map[], calls);
    if i == 0 {
      StartLevel(c, calls, vs, a, now, x);
    } else {
      var y, m := calls[i - 1], RefAfter(c, map[], calls[..i - 1]);
      AfterOneMore(c, map[], calls, i - 1);
      MonotonePrefix(0.0, calls, i - 1);
      EmptyOk(c);
      RefAfterOk(c, map[], 0.0, calls[..i - 1]);
      if y.from != a {
        OtherSource(c, m, y, a, now);
        LevelIs(c, calls, i - 1, a, now, x);
        SameRoom(c, calls, vs, i, a, now, x);
      } else {
        var x' := x + (if vs[i - 1] then 1.0 else 0.0) - Earned(c, now - y.now);
        OwnSource(c, m, y, now, x);
        if x' <= c.burst { LevelIs(c, calls, i - 1, a, y.now, x'); }
        MoreRoom(c, calls, vs, i, a, now, x);
      }
    }
  }

  lemma StartLevel(c: Config, calls: seq<Call>, vs: seq<bool>, a: Source, now: real, x: real)
    requires |vs| == |calls| && x <= c.burst
    ensures Available(c, RefAfter(c, map[], calls[..0]), a, now) >= x && RoomFor(c, calls, vs, 0, a, now, x)
  {
  }

  lemma OtherSource(c: Config, m: Sources, y: Call, a: Source, now: real)
    requires y.from != a
    ensures Available(c, RefAllow(c, m, y).0, a, now) == Available(c, m, a, now)
  {
  }

  /** After its own arrival a source has what it had, less what it spent, plus what it has earned since, up to the burst. */
  lemma OwnSource(c: Config, m: Sources, y: Call, now: real, x: real)
    requires Usable(c) && SourcesOk(c, m, y.now) && y.now <= now && x <= c.burst
    ensures var spent := if RefAllow(c, m, y).1 then 1.0 else 0.0;
      Available(c, RefAllow(c, m, y).0, y.from, now) >= x
      <==> Available(c, m, y.from, y.now) >= x + spent - Earned(c, now - y.now)
    ensures Available(c, m, y.from, y.now) <= c.burst
  {
    hide Earned;
    EarnedMono(c, 0.0, 0.0);
    var b := BucketOf(c, m, y.from, y.now);
    if b.last < y.now { EarnedMono(c, 0.0, y.now - b.last); }
  }

  lemma SameRoom(c: Config, calls: seq<Call>, vs: seq<bool>, i: nat, a: Source, now: real, x: real)
    requires 0 < i <= |calls| == |vs| && calls[i - 1].from != a
    ensures RoomFor(c, calls, vs, i, a, now, x) <==> RoomFor(c, calls, vs, i - 1, a, now, x)
  {
    hide Earned;
    assert forall j :: 0 <= j < i - 1 ==> Passed(calls, vs, a, j, i) == Passed(calls, vs, a, j, i - 1);
  }

  lemma MoreRoom(c: Config, calls: seq<Call>, vs: seq<bool>, i: nat, a: Source, now: real, x: real)
    requires 0 < i <= |calls| == |vs| && calls[i - 1].from == a
    ensures var y := calls[i - 1].now; var x' := x + (if vs[i - 1] then 1.0 else 0.0) - Earned(c, now - y);
      RoomFor(c, calls, vs, i, a, now, x) <==> x' <= c.burst && RoomFor(c, calls, vs, i - 1, a, y, x')
  {
    hide Earned;
    var y, spent := calls[i - 1].now, if vs[i - 1] then 1.0 else 0.0;
    var x' := x + spent - Earned(c, now - y);
    assert Passed(calls, vs, a, i - 1, i) as real == spent;
    forall j | 0 <= j < i - 1
      ensures x + Passed(calls, vs, a, j, i) as real <= c.burst + Earned(c, now - calls[j].now)
         <==> x' + Passed(calls, vs, a, j, i - 1) as real <= c.burst + Earned(c, y - calls[j].now)
    {
      EarnedAdd(c, now - y, y - calls[j].now);
      assert now - y + (y - calls[j].now) == now - calls[j].now;
      assert Passed(calls, vs, a, j, i) as real == Passed(calls, vs, a, j, i - 1) as real + spent;
    }
  }

  /**
   Arrival i passes when, in every window that begins at an arrival of the same source and ends with this one,
   the passes so far and this one fit the burst and what the rate has earned since.
   */
  predicate Fits(c: Config, calls: seq<Call>, vs: seq<bool>, i: nat)
    requires i < |calls| == |vs|
  {
    forall j :: 0 <= j <= i && calls[j].from == calls[i].from ==>
      (Passed(calls, vs, calls[i].from, j, i) + 1) as real <= c.burst + c.rate * (calls[i].now - calls[j].now)
  }

  lemma RefPassesIff(c: Config, calls: seq<Call>, i: nat)
    requires Usable(c) && Monotone(0.0, calls) && i < |calls|
    ensures var vs := RefVerdicts(c, map[], calls); vs[i] <==> Fits(c, calls, vs, i)
  {
    hide RefVerdicts, RefAllow, RefAfter, RoomFor, Fits;
    var vs, y := RefVerdicts(c, map[], calls), calls[i];
    AfterOneMore(c, map[], calls, i);
    MonotonePrefix(0.0, calls, i);
    EmptyOk(c);
    RefAfterOk(c, map[], 0.0, calls[..i]);
    FitsIsRoom(c, calls, vs, i);
    OneToken(c, RefAfter(c, map[], calls[..i]), y);
    if 1.0 <= c.burst { LevelIs(c, calls, i, y.from, y.now, 1.0); }
  }

  lemma OneToken(c: Config, m: Sources, y: Call)
    requires Usable(c) && SourcesOk(c, m, y.now)
    ensures RefAllow(c, m, y).1 <==> Available(c, m, y.from, y.now) >= 1.0
    ensures Available(c, m, y.from, y.now) <= c.burst
  {
    hide Earned;
  }

  lemma FitsIsRoom(c: Config, calls: seq<Call>, vs: seq<bool>, i: nat)
    requires i < |calls| == |vs|
    ensures Fits(c, calls, vs, i) <==> 1.0 <= c.burst && RoomFor(c, calls, vs, i, calls[i].from, calls[i].now, 1.0)
  {
    var a, now := calls[i].from, calls[i].now;
    assert Passed(calls, vs, a, i, i) == 0 && c.rate * (now - calls[i].now) == 0.0;
    forall j | 0 <= j < i ensures Earned(c, now - calls[j].now) == c.rate * (now - calls[j].now) {
      Commutes(c.rate, now - calls[j].now);
    }
  }

  lemma Commutes(x: real, y: real)
    ensures x * y == y * x
  {
  }

  /** Every verdict is the one its windows give. */
  predicate ByWindows(c: Config, calls: seq<Call>, vs: seq<bool>)
    requires |vs| == |calls|
  {
    forall i :: 0 <= i < |calls| ==> (vs[i] <==> Fits(c, calls, vs, i))
  }

  /** So it is for the limiter itself, in every run, if and only if five minutes refill the burst or the burst admits nobody. */
  lemma PassesIff(c: Config)
    requires Usable(c)
    ensures (forall calls :: Monotone(0.0, calls) ==> ByWindows(c, calls, Verdicts(c, START, calls)))
       <==> c.burst < 1.0 || 300.0 * c.rate >= c.burst
  {
    hide Verdicts, RefVerdicts, Fits, ByWindows;
    Commutes(300.0, c.rate);
    EvictionInvisibleIff(c);
    forall calls | Monotone(0.0, calls)
      ensures ByWindows(c, calls, Verdicts(c, START, calls)) <==> Verdicts(c, START, calls) == RefVerdicts(c, map[], calls)
    {
      OneAnswer(c, calls, Verdicts(c, START, calls));
    }
  }

  /** There is one sequence of verdicts that the windows give, and the limiter that never evicts answers it. */
  lemma OneAnswer(c: Config, calls: seq<Call>, vs: seq<bool>)
    requires Usable(c) && Monotone(0.0, calls) && |vs| == |calls|
    ensures ByWindows(c, calls, vs) <==> vs == RefVerdicts(c, map[], calls)
  {
    hide RefVerdicts, Fits;
    if ByWindows(c, calls, vs) {
      forall i | 0 <= i < |calls| ensures vs[i] == RefVerdicts(c, map[], calls)[i] { SameVerdict(c, calls, vs, i); }
    }
    forall i | 0 <= i < |calls|
      ensures var ws := RefVerdicts(c, map[], calls); ws[i] <==> Fits(c, calls, ws, i)
    {
      RefPassesIff(c, calls, i);
    }
  }

  lemma {:induction false} SameVerdict(c: Config, calls: seq<Call>, vs: seq<bool>, i: nat)
    requires Usable(c) && Monotone(0.0, calls) && i < |vs| == |calls|
    requires ByWindows(c, calls, vs)
    ensures vs[i] == RefVerdicts(c, map[], calls)[i]
    decreases i
  {
    hide RefVerdicts, Fits;
    var ws := RefVerdicts(c, map[], calls);
    forall k | 0 <= k < i ensures vs[k] == ws[k] { SameVerdict(c, calls, vs, k); }
    RefPassesIff(c, calls, i);
    SameFits(c, calls, vs, ws, i);
  }

  lemma SameFits(c: Config, calls: seq<Call>, vs: seq<bool>, ws: seq<bool>, i: nat)
    requires i < |calls| == |vs| == |ws| && forall k :: 0 <= k < i ==> vs[k] == ws[k]
    ensures Fits(c, calls, vs, i) == Fits(c, calls, ws, i)
  {
    forall j | 0 <= j <= i ensures Passed(calls, vs, calls[i].from, j, i) == Passed(calls, ws, calls[i].from, j, i) {
      SamePassed(calls, vs, ws, calls[i].from, j, i);
    }
  }

  lemma {:induction false} SamePassed(calls: seq<Call>, vs: seq<bool>, ws: seq<bool>, a: Source, j: nat, i: nat)
    requires i <= |calls| == |vs| == |ws| && forall k :: 0 <= k < i ==> vs[k] == ws[k]
    ensures Passed(calls, vs, a, j, i) == Passed(calls, ws, a, j, i)
    decreases i
  {
    if i > j { SamePassed(calls, vs, ws, a, j, i - 1); }
  }

  // ---------- what the limiter remembers ----------

  datatype LastSeen = Never | At(time: real)

  /** When a last arrived. */
  function LastArrival(calls: seq<Call>, a: Source): (r: LastSeen)
  {
    if calls == [] then Never
    else
      var n := |calls| - 1;
      if calls[n].from == a then At(calls[n].now) else LastArrival(calls[..n], a)
  }

  /** What a limiter last used at time now knows about a. */
  ghost predicate Remembers(l: Limiter, last: LastSeen, a: Source, now: real)
  {
    && l.lastGC <= now && now - l.lastGC < 300.0
    && (last.At? && now - last.time <= 300.0 ==> a in l.sources)
    && (a in l.sources ==> last.At? && l.sources[a].last == last.time && last.time <= now && l.lastGC - last.time <= 300.0)
  }

  lemma StepRemembers(c: Config, l: Limiter, last: LastSeen, a: Source, now: real, x: Call)
    requires Usable(c) && Remembers(l, last, a, now) && now <= x.now && SourcesOk(c, l.sources, now)
    requires last.At? ==> last.time <= now
    ensures Remembers(Allow(c, l, x).0, if x.from == a then At(x.now) else last, a, x.now)
  {
    hide Earned, Refill, BucketOk;
    var g := Gc(l, x.now);
    OkLater(c, l.sources, now, x.now);
    GcOk(c, l, x.now);
    if x.from == a { SpentNow(c, g.sources, x); }
  }

  lemma OkLater(c: Config, m: Sources, s: real, t: real)
    requires SourcesOk(c, m, s) && s <= t
    ensures SourcesOk(c, m, t)
  {
  }

  lemma GcOk(c: Config, l: Limiter, t: real)
    requires SourcesOk(c, l.sources, t)
    ensures SourcesOk(c, Gc(l, t).sources, t)
  {
  }

  lemma SpentNow(c: Config, m: Sources, x: Call)
    requires SourcesOk(c, m, x.now)
    ensures Spend(c, BucketOf(c, m, x.from, x.now), x.now).b.last == x.now
  {
    hide Earned;
  }

  lemma {:induction false} RunRemembers(c: Config, calls: seq<Call>, a: Source)
    requires Usable(c) && Monotone(0.0, calls)
    ensures var l, now := After(c, START, calls), EndTime(0.0, calls);
      && SourcesOk(c, l.sources, now) && Remembers(l, LastArrival(calls, a), a, now)
      && (LastArrival(calls, a).At? ==> LastArrival(calls, a).time <= now)
    decreases |calls|
  {
    hide Allow, SourcesOk;
    if calls == [] {
      EmptyOk(c);
    } else {
      var n := |calls| - 1;
      var before, x := calls[..n], calls[n];
      MonotonePrefix(0.0, calls, n);
      RunRemembers(c, before, a);
      assert calls == before + [x];
      CutVerdicts(c, START, before, [x]);
      assert [x][1..] == [];
      var l := After(c, START, before);
      StepRemembers(c, l, LastArrival(before, a), a, EndTime(0.0, before), x);
      AllowOk(c, l, EndTime(0.0, before), x);
    }
  }

  lemma AllowOk(c: Config, l: Limiter, t: real, x: Call)
    requires Usable(c) && SourcesOk(c, l.sources, t) && t <= x.now
    ensures SourcesOk(c, Allow(c, l, x).0.sources, x.now)
  {
    hide Earned;
    var g := Gc(l, x.now);
    var b := BucketOf(c, g.sources, x.from, x.now);
    if b.last < x.now { EarnedMono(c, 0.0, x.now - b.last); }
  }

  /** After any run the limiter still knows every source that arrived in the last five minutes, and none that has been away for ten. */
  lemma MemoryBounded(c: Config, calls: seq<Call>, a: Source)
    requires Usable(c) && Monotone(0.0, calls)
    ensures var m, last, now := After(c, START, calls).sources, LastArrival(calls, a), EndTime(0.0, calls);
      && (last.At? && now - last.time <= 300.0 ==> a in m)
      && (a in m ==> last.At? && now - last.time < 600.0)
  {
    hide After, SourcesOk;
    RunRemembers(c, calls, a);
  }

  // ---------- the gate ----------

  function Arrivals(events: seq<Event>): (r: seq<Call>)
  {
    if events == [] then []
    else
      var n := |events| - 1;
      Arrivals(events[..n]) + if events[n].Arrive? then [events[n].x] else []
  }

  /** The gate's limiter has seen every arrival, refused or not, and nothing else. */
  lemma {:induction false} GateLimiter(c: Config, events: seq<Event>)
    ensures RunGate(c, events).g.l == After(c, START, Arrivals(events))
    decreases |events|
  {
    hide Allow;
    if events != [] {
      var n := |events| - 1;
      GateLimiter(c, events[..n]);
      if events[n].Arrive? {
        var x := events[n].x;
        CutVerdicts(c, START, Arrivals(events[..n]), [x]);
        assert [x][1..] == [];
      } else {
        assert Arrivals(events) == Arrivals(events[..n]);
      }
    }
  }

  /**
   A handshake is admitted if and only if its rate verdict, among all arrivals so far, lets it pass and fewer than the
   cap are in flight; a refusal says which of the two it was, the rate first.
   */
  lemma AdmittedIff(c: Config, events: seq<Event>, x: Call)
    requires Usable(c) && Balanced(c, events)
    ensures var r, arrivals := RunGate(c, events), Arrivals(events);
      var passes := Verdicts(c, START, arrivals + [x])[|arrivals|];
      Admit(c, r.g, x).1 ==
        if !passes then RateLimited else if r.admitted - r.completed < c.maxHalfOpen then Admitted else AtCapacity
  {
    hide Allow, RunGate, Arrivals, Balanced;
    var arrivals := Arrivals(events);
    GateLimiter(c, events);
    HalfOpenIsLedger(c, events);
    CutVerdicts(c, START, arrivals, [x]);
    assert Verdicts(c, After(c, START, arrivals), [x])[0] == Allow(c, After(c, START, arrivals), x).1;
  }
}
