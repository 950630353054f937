/**
 How often one source passes the rate check (dataplane/admission.go): a bound on every window of
 every configuration, and exactly when it is the token bucket's own.
 */
module AdmissionWindow {
  import opened Admission

  /** What d seconds of evictions can give back on top of what is earned: one burst for each whole timeout. */
  function Regained(c: Config, d: real): (r: real) { d * (c.burst / IDLE_TIMEOUT) }

  lemma RegainedMono(c: Config, x: real, y: real)
    requires Usable(c) && x <= y
    ensures Regained(c, x) <= Regained(c, y) && Regained(c, 0.0) == 0.0
  {
    PositiveQuotient(c.burst, IDLE_TIMEOUT);
    Product(y - x, c.burst / IDLE_TIMEOUT);
    assert y * (c.burst / IDLE_TIMEOUT) - x * (c.burst / IDLE_TIMEOUT) == (y - x) * (c.burst / IDLE_TIMEOUT);
  }

  lemma RegainedAdd(c: Config, x: real, y: real)
    ensures Regained(c, x + y) == Regained(c, x) + Regained(c, y)
  {
  }

  lemma RegainedTimeout(c: Config, d: real)
    requires Usable(c) && d >= IDLE_TIMEOUT
    ensures Regained(c, d) >= c.burst
  {
    hide Regained;
    RegainedMono(c, IDLE_TIMEOUT, d);
    RegainedOnce(c);
  }

  lemma RegainedOnce(c: Config)
    ensures Regained(c, IDLE_TIMEOUT) == c.burst
  {
  }

  /** a has been seen since start. */
  predicate Seen(l: Limiter, a: Source, start: real) { a in l.sources && l.sources[a].last >= start }

  /** What a can still pass, from time t on until end. */
  function Left(c: Config, l: Limiter, a: Source, start: real, t: real, end: real): (r: real)
  {
    if Seen(l, a, start) then Available(c, l.sources, a, t) + Earned(c, end - t) + Regained(c, end - l.sources[a].last)
    else c.burst + Earned(c, end - t) + Regained(c, end - t)
  }

  lemma GcKeeps(c: Config, l: Limiter, t: real)
    requires SourcesOk(c, l.sources, t)
    ensures SourcesOk(c, Gc(l, t).sources, t)
    ensures forall a :: a in Gc(l, t).sources ==> a in l.sources && Gc(l, t).sources[a] == l.sources[a]
    ensures forall a :: a in l.sources && a !in Gc(l, t).sources ==> t - l.sources[a].last > IDLE_TIMEOUT
  {
  }

  /** Collecting idle sources gives a source at most a burst, and only after a timeout. */
  lemma GcLeft(c: Config, l: Limiter, a: Source, start: real, t: real, u: real, end: real)
    requires Usable(c) && SourcesOk(c, l.sources, t) && start <= t <= u <= end
    ensures SourcesOk(c, Gc(l, u).sources, u)
    ensures Left(c, Gc(l, u), a, start, u, end) <= Left(c, l, a, start, t, end)
  {
    hide Earned, Regained, Available, Gc, SourcesOk;
    SourcesLater(c, l.sources, t, u);
    GcKeeps(c, l, u);
    EarnedMono(c, 0.0, u - t);
    EarnedAdd(c, end - u, u - t);
    assert end - u + (u - t) == end - t;
    if Seen(l, a, start) {
      var last := l.sources[a].last;
      LastBefore(c, l.sources, a, t);
      AvailableAtLeastZero(c, l.sources, a, t);
      AvailableGrows(c, l.sources, a, t, u);
      if a in Gc(l, u).sources {
        SameAvailable(c, l.sources, Gc(l, u).sources, a, u);
      } else {
        RegainedTimeout(c, u - last);
        RegainedAdd(c, end - u, u - last);
        assert end - u + (u - last) == end - last;
      }
    } else {
      RegainedMono(c, end - u, end - t);
    }
  }

  lemma LastBefore(c: Config, m: Sources, a: Source, t: real)
    requires SourcesOk(c, m, t) && a in m
    ensures m[a].last <= t
  {
  }

  lemma SameAvailable(c: Config, m: Sources, n: Sources, a: Source, t: real)
    requires a in m && a in n && m[a] == n[a]
    ensures Available(c, m, a, t) == Available(c, n, a, t)
  {
  }

  /** Spending a token uses one up, whoever spends it. */
  lemma SpendLeft(c: Config, l: Limiter, a: Source, start: real, x: Call, end: real)
    requires Usable(c) && SourcesOk(c, l.sources, x.now) && start <= x.now <= end
    ensures var s := RefAllow(c, l.sources, x); var l' := l.(sources := s.0);
      && SourcesOk(c, s.0, x.now)
      && (if x.from == a && s.1 then 1.0 else 0.0) + Left(c, l', a, start, x.now, end) <= Left(c, l, a, start, x.now, end)
  {
    hide Earned, Regained, Available, RefAllow, SourcesOk;
    var m := RefAllow(c, l.sources, x).0;
    StepSpends(c, l.sources, x, a, x.now);
    StepTouches(c, l.sources, x);
    AvailableGrows(c, l.sources, a, x.now, x.now);
    if x.from == a {
      if Seen(l, a, start) {
        LastBefore(c, l.sources, a, x.now);
        RegainedMono(c, end - x.now, end - l.sources[a].last);
      }
    }
  }

  lemma StepTouches(c: Config, m: Sources, x: Call)
    requires SourcesOk(c, m, x.now)
    ensures var n := RefAllow(c, m, x).0;
      && x.from in n && n[x.from].last == x.now
      && forall a :: a != x.from ==> (a in n <==> a in m) && (a in m ==> n[a] == m[a])
  {
    hide Earned;
  }

  lemma {:induction false} WindowLeft(c: Config, l: Limiter, a: Source, start: real, t: real, calls: seq<Call>)
    requires Usable(c) && SourcesOk(c, l.sources, t) && start <= t && Monotone(t, calls)
    ensures t <= EndTime(t, calls)
    ensures Passes(calls, Verdicts(c, l, calls), a) as real <= Left(c, l, a, start, t, EndTime(t, calls))
    decreases |calls|
  {
    hide Earned, Regained, Available, Gc, Spend, SourcesOk, Left;
    if calls == [] {
      NothingLeft(c, l, a, start, t);
    } else {
      var x, rest := calls[0], calls[1..];
      var g := Gc(l, x.now);
      var l' := Allow(c, l, x).0;
      SourcesLater(c, l.sources, t, x.now);
      GcKeeps(c, l, x.now);
      SpendLeftAfter(c, g, x);
      EndIsLater(x.now, rest);
      var end := EndTime(x.now, rest);
      GcLeft(c, l, a, start, t, x.now, end);
      SpendLeft(c, g, a, start, x, end);
      WindowLeft(c, l', a, start, x.now, rest);
      assert Verdicts(c, l, calls)[1..] == Verdicts(c, l', rest);
    }
  }

  lemma {:induction false} EndIsLater(t: real, calls: seq<Call>)
    requires Monotone(t, calls)
    ensures t <= EndTime(t, calls)
    decreases |calls|
  {
    if calls != [] { EndIsLater(calls[0].now, calls[1..]); }
  }

  lemma SpendLeftAfter(c: Config, g: Limiter, x: Call)
    requires Usable(c) && SourcesOk(c, g.sources, x.now)
    ensures SourcesOk(c, RefAllow(c, g.sources, x).0, x.now)
  {
    StepSpends(c, g.sources, x, x.from, x.now);
  }

  lemma NothingLeft(c: Config, l: Limiter, a: Source, start: real, t: real)
    requires Usable(c) && SourcesOk(c, l.sources, t)
    ensures Left(c, l, a, start, t, t) >= 0.0
  {
    hide Earned, Regained, Available, SourcesOk;
    EarnedMono(c, 0.0, t - t);
    AvailableAtLeastZero(c, l.sources, a, t);
    RegainedMono(c, 0.0, t - t);
    if a in l.sources {
      LastBefore(c, l.sources, a, t);
      RegainedMono(c, 0.0, t - l.sources[a].last);
    }
  }

  lemma {:induction false} AfterOk(c: Config, l: Limiter, t: real, calls: seq<Call>)
    requires Usable(c) && SourcesOk(c, l.sources, t) && Monotone(t, calls)
    ensures SourcesOk(c, After(c, l, calls).sources, EndTime(t, calls)) && t <= EndTime(t, calls)
    decreases |calls|
  {
    hide Gc, Spend, SourcesOk;
    if calls != [] {
      var x := calls[0];
      SourcesLater(c, l.sources, t, x.now);
      GcKeeps(c, l, x.now);
      SpendLeftAfter(c, Gc(l, x.now), x);
      AfterOk(c, Allow(c, l, x).0, x.now, calls[1..]);
      EndIsLater(x.now, calls[1..]);
    }
  }

  /** How often one source can pass in a window of the given length: the extra term is there only when an idle source refills too slowly. */
  function Allowance(c: Config, d: real): (r: real)
  {
    c.burst + Earned(c, d) + if FullIdle(c) >= c.burst then 0.0 else Regained(c, d)
  }

  /** In every window of the gate's life, whatever its configuration, one source passes at most so often. */
  lemma WindowBound(c: Config, before: seq<Call>, window: seq<Call>, start: real, a: Source)
    requires Usable(c) && Monotone(0.0, before) && EndTime(0.0, before) <= start && Monotone(start, window)
    ensures Passes(window, Verdicts(c, START, before + window)[|before|..], a) as real
         <= Allowance(c, EndTime(start, window) - start)
  {
    hide Verdicts, FullIdle, Earned, Regained, Monotone, EndTime, Passes;
    if FullIdle(c) >= c.burst {
      TightWindow(c, before, window, start, a);
    } else {
      LooseWindow(c, before, window, start, a);
    }
  }

  lemma LooseWindow(c: Config, before: seq<Call>, window: seq<Call>, start: real, a: Source)
    requires Usable(c) && Monotone(0.0, before) && EndTime(0.0, before) <= start && Monotone(start, window)
    ensures var d := EndTime(start, window) - start;
      Passes(window, Verdicts(c, START, before + window)[|before|..], a) as real <= c.burst + Earned(c, d) + Regained(c, d)
  {
    hide Verdicts, Earned, Regained, SourcesOk, Left, Monotone, EndTime, Passes, After;
    EmptyOk(c);
    AfterOk(c, START, 0.0, before);
    var l := After(c, START, before);
    CutVerdicts(c, START, before, window);
    SourcesLater(c, l.sources, EndTime(0.0, before), start);
    assert Verdicts(c, START, before + window)[|before|..] == Verdicts(c, l, window);
    WindowLeft(c, l, a, start, start, window);
    AtStart(c, l, a, start, EndTime(start, window));
  }

  lemma AtStart(c: Config, l: Limiter, a: Source, start: real, end: real)
    requires Usable(c) && SourcesOk(c, l.sources, start) && start <= end
    ensures Left(c, l, a, start, start, end) <= c.burst + Earned(c, end - start) + Regained(c, end - start)
  {
    hide Earned, Regained, Available, SourcesOk;
    AvailableGrows(c, l.sources, a, start, start);
    if a in l.sources { LastBefore(c, l.sources, a, start); }
  }

  // ---------- when it is the bucket's own bound ----------

  /** No window beats burst + rate * length. */
  ghost predicate Tight(c: Config)
  {
    forall before, window, start, a ::
      Monotone(0.0, before) && EndTime(0.0, before) <= start && Monotone(start, window) ==>
        WithinBucket(c, before, window, start, a)
  }

  predicate WithinBucket(c: Config, before: seq<Call>, window: seq<Call>, start: real, a: Source)
  {
    Passes(window, Verdicts(c, START, before + window)[|before|..], a) as real
      <= c.burst + Earned(c, EndTime(start, window) - start)
  }

  /** Source a holds f tokens, last touched at t, and no collection is due at t. */
  predicate Has(l: Limiter, a: Source, t: real, f: real)
  {
    a in l.sources && l.sources[a] == Bucket(f, t) && l.lastGC <= t < l.lastGC + IDLE_TIMEOUT
  }

  /** A call at t finds a forgotten. */
  predicate Forgotten(l: Limiter, a: Source, t: real) { a !in Gc(l, t).sources && l.lastGC <= t }

  lemma SpendOne(c: Config, l: Limiter, a: Source, t: real, f: real)
    requires Usable(c) && Has(l, a, t, f) && f >= 1.0
    ensures Allow(c, l, Call(a, t)).1 && Has(Allow(c, l, Call(a, t)).0, a, t, f - 1.0)
  {
  }

  lemma PassesOne(c: Config, l: Limiter, x: Call, rest: seq<Call>)
    ensures var calls := [x] + rest; var l' := Allow(c, l, x).0;
      && Passes(calls, Verdicts(c, l, calls), x.from) == (if Allow(c, l, x).1 then 1 else 0) + Passes(rest, Verdicts(c, l', rest), x.from)
      && After(c, l, calls) == After(c, l', rest)
  {
    hide Allow;
    var calls := [x] + rest;
    assert calls[1..] == rest;
    assert Verdicts(c, l, calls)[1..] == Verdicts(c, Allow(c, l, x).0, rest);
  }

  /** What spending whole tokens leaves of f. */
  function Fraction(f: real): (r: real)
    requires f >= 0.0
    ensures 0.0 <= r < 1.0 && r <= f
    decreases f.Floor
  {
    if f < 1.0 then f else Fraction(f - 1.0)
  }

  /** Spend everything at once. */
  lemma {:induction false} SpendAll(c: Config, l: Limiter, a: Source, t: real, f: real) returns (calls: seq<Call>, rest: real)
    requires Usable(c) && Has(l, a, t, f) && f >= 0.0
    ensures Monotone(t, calls) && EndTime(t, calls) == t && rest == Fraction(f)
    ensures Passes(calls, Verdicts(c, l, calls), a) as real == f - rest && Has(After(c, l, calls), a, t, rest)
    decreases f.Floor
  {
    hide Allow, Has, Passes, Verdicts;
    if f < 1.0 {
      calls, rest := [], f;
      NoPasses(c, l, a);
    } else {
      var x := Call(a, t);
      SpendOne(c, l, a, t, f);
      var more;
      more, rest := SpendAll(c, Allow(c, l, x).0, a, t, f - 1.0);
      calls := [x] + more;
      PassesOne(c, l, x, more);
      assert calls[1..] == more;
    }
  }

  lemma NoPasses(c: Config, l: Limiter, a: Source)
    ensures Passes([], Verdicts(c, l, []), a) == 0
  {
  }

  /** The first call of a forgotten source finds a full bucket. */
  lemma FullAgain(c: Config, l: Limiter, a: Source, t: real)
    requires Usable(c) && c.burst >= 1.0 && Forgotten(l, a, t)
    ensures Allow(c, l, Call(a, t)).1 && Has(Allow(c, l, Call(a, t)).0, a, t, c.burst - 1.0)
  {
  }

  /** The rest of the last token, earned without idling long enough to be forgotten. */
  lemma EarnLast(c: Config, l: Limiter, a: Source, t: real, f: real) returns (w: real)
    requires Usable(c) && c.burst >= 1.0 && Has(l, a, t, f) && 0.0 <= f < 1.0 && 1.0 - f <= FullIdle(c)
    ensures 0.0 < w && Earned(c, w) == 1.0 - f && Allow(c, l, Call(a, t + w)).1
    ensures var l' := Allow(c, l, Call(a, t + w)).0;
      a in l'.sources && l'.sources[a].last == t + w && l'.lastGC <= t + w
  {
    hide Earned;
    w := EarnedIn(c, 1.0 - f);
    if w > IDLE_TIMEOUT { StrictlyMore(c, IDLE_TIMEOUT, w); }
    assert t + w - t == w;
  }

  /** Any idle time beyond the timeout forgets the source, since a collection is then due. */
  lemma IdleForgets(l: Limiter, a: Source, t: real, u: real)
    requires a in l.sources && l.sources[a].last <= t && l.lastGC <= t && u > t + IDLE_TIMEOUT
    ensures Forgotten(l, a, u)
  {
  }

  /** What one cycle of filling up by eviction gains over the bucket: half of what idling fails to refill. */
  function Gain(c: Config, rest: real): (g: real)
  {
    if 1.0 - rest <= FullIdle(c) then (c.burst - FullIdle(c)) / 2.0 else (c.burst - rest - FullIdle(c)) / 2.0
  }

  /** Spend a full bucket down, earn the last token if that is quick, idle past the timeout: more passes than the bucket allows. */
  lemma Cycle(c: Config, l: Limiter, a: Source, t: real) returns (calls: seq<Call>, t': real)
    requires Usable(c) && c.burst >= 1.0 && FullIdle(c) < c.burst && Forgotten(l, a, t)
    ensures Gain(c, Fraction(c.burst)) > 0.0
    ensures Monotone(t, calls) && EndTime(t, calls) <= t' && t <= t' && Forgotten(After(c, l, calls), a, t')
    ensures Passes(calls, Verdicts(c, l, calls), a) as real >= Earned(c, t' - t) + Gain(c, Fraction(c.burst))
  {
    hide Earned, Allow, Has, Forgotten, Passes, Verdicts, FullIdle, Fraction, After, Monotone;
    var x := Call(a, t);
    FullAgain(c, l, a, t);
    var l1 := Allow(c, l, x).0;
    var drain, rest := SpendAll(c, l1, a, t, c.burst - 1.0);
    PassesOne(c, l, x, drain);
    var first := [x] + drain;
    FirstIsMonotone(t, x, drain);
    FractionOne(c.burst);
    var l2 := After(c, l, first);
    GainPositive(c, rest);
    var slack := EarnedIn(c, Gain(c, rest));
    if 1.0 - rest <= FullIdle(c) {
      var w := EarnLast(c, l2, a, t, rest);
      var y := Call(a, t + w);
      calls, t' := first + [y], t + w + (IDLE_TIMEOUT + slack);
      CutVerdicts(c, l, first, [y]);
      LastCall(c, l, first, y, t);
      IdleForgets(Allow(c, l2, y).0, a, t + w, t');
      EarnedAdd(c, w, IDLE_TIMEOUT + slack);
      EarnedAdd(c, IDLE_TIMEOUT, slack);
      FullIdleIs(c);
      assert t' - t == w + (IDLE_TIMEOUT + slack);
    } else {
      calls, t' := first, t + (IDLE_TIMEOUT + slack);
      HasFields(l2, a, t, rest);
      IdleForgets(l2, a, t, t');
      EarnedAdd(c, IDLE_TIMEOUT, slack);
      FullIdleIs(c);
      assert t' - t == IDLE_TIMEOUT + slack;
    }
  }

  lemma FractionOne(f: real)
    requires f >= 1.0
    ensures Fraction(f) == Fraction(f - 1.0)
  {
  }

  lemma FullIdleIs(c: Config)
    ensures FullIdle(c) == Earned(c, IDLE_TIMEOUT)
  {
  }

  lemma HasFields(l: Limiter, a: Source, t: real, f: real)
    requires Has(l, a, t, f)
    ensures a in l.sources && l.sources[a].last == t && l.lastGC <= t
  {
  }

  lemma GainPositive(c: Config, rest: real)
    requires c.burst >= 1.0 && FullIdle(c) < c.burst && 0.0 <= rest < 1.0 && c.burst - rest >= 1.0
    ensures Gain(c, rest) > 0.0
  {
    hide FullIdle;
  }

  lemma FirstIsMonotone(t: real, x: Call, drain: seq<Call>)
    requires x.now == t && Monotone(t, drain) && EndTime(t, drain) == t
    ensures Monotone(t, [x] + drain) && EndTime(t, [x] + drain) == t
  {
    assert ([x] + drain)[1..] == drain;
  }

  lemma LastCall(c: Config, l: Limiter, first: seq<Call>, y: Call, t: real)
    requires Monotone(t, first) && EndTime(t, first) == t <= y.now
    ensures var calls := first + [y]; var l2 := After(c, l, first);
      && Monotone(t, calls) && EndTime(t, calls) == y.now
      && After(c, l, calls) == Allow(c, l2, y).0
      && Passes(calls, Verdicts(c, l, calls), y.from) == Passes(first, Verdicts(c, l, first), y.from) + (if Allow(c, l2, y).1 then 1 else 0)
  {
    hide Allow;
    CutMonotone(t, first, [y]);
    CutVerdicts(c, l, first, [y]);
    var l2 := After(c, l, first);
    assert [y][1..] == [];
    assert Verdicts(c, l2, [y]) == [Allow(c, l2, y).1];
    CutPasses(first, Verdicts(c, l, first), [y], Verdicts(c, l2, [y]), y.from);
  }

  lemma {:induction false} CutPasses(a: seq<Call>, va: seq<bool>, b: seq<Call>, vb: seq<bool>, s: Source)
    requires |a| == |va| && |b| == |vb|
    ensures Passes(a + b, va + vb, s) == Passes(a, va, s) + Passes(b, vb, s)
    decreases |a|
  {
    if a == [] {
      assert a + b == b && va + vb == vb;
    } else {
      assert (a + b)[1..] == a[1..] + b && (va + vb)[1..] == va[1..] + vb;
      CutPasses(a[1..], va[1..], b, vb, s);
    }
  }

  /** k times a gain. */
  function Gains(c: Config, k: nat): (r: real)
    requires c.burst >= 0.0
  {
    if k == 0 then 0.0 else Gains(c, k - 1) + Gain(c, Fraction(c.burst))
  }

  lemma {:induction false} Cycles(c: Config, l: Limiter, a: Source, t: real, k: nat) returns (calls: seq<Call>, t': real)
    requires Usable(c) && c.burst >= 1.0 && FullIdle(c) < c.burst && Forgotten(l, a, t)
    ensures Monotone(t, calls) && EndTime(t, calls) <= t' && t <= t'
    ensures Passes(calls, Verdicts(c, l, calls), a) as real >= Earned(c, t' - t) + Gains(c, k)
    decreases k
  {
    hide Earned, Forgotten, Passes, Verdicts, FullIdle, Fraction, After, Monotone, Gain;
    if k == 0 {
      calls, t' := [], t;
      NoPasses(c, l, a);
      EarnedMono(c, 0.0, 0.0);
      NothingMonotone(t);
    } else {
      var first, u := Cycle(c, l, a, t);
      var l' := After(c, l, first);
      var more;
      more, t' := Cycles(c, l', a, u, k - 1);
      calls := first + more;
      JoinCycles(c, l, a, t, u, first, more, t');
      EarnedAdd(c, u - t, t' - u);
      assert u - t + (t' - u) == t' - t;
    }
  }

  lemma NothingMonotone(t: real)
    ensures Monotone(t, []) && EndTime(t, []) == t
  {
  }

  lemma JoinCycles(c: Config, l: Limiter, a: Source, t: real, u: real, first: seq<Call>, more: seq<Call>, end: real)
    requires Monotone(t, first) && EndTime(t, first) <= u && Monotone(u, more) && EndTime(u, more) <= end && u <= end
    ensures var calls := first + more;
      && Monotone(t, calls) && EndTime(t, calls) <= end
      && Passes(calls, Verdicts(c, l, calls), a) == Passes(first, Verdicts(c, l, first), a) + Passes(more, Verdicts(c, After(c, l, first), more), a)
  {
    hide Verdicts, After, Passes;
    MonotoneEarlier(EndTime(t, first), u, more);
    CutMonotone(t, first, more);
    CutVerdicts(c, l, first, more);
    CutPasses(first, Verdicts(c, l, first), more, Verdicts(c, After(c, l, first), more), a);
  }

  /** Enough cycles gain any amount. */
  lemma Enough(c: Config, need: real) returns (k: nat)
    requires c.burst >= 0.0 && Gain(c, Fraction(c.burst)) > 0.0 && need >= 0.0
    ensures Gains(c, k) > need
  {
    hide Gain, Gains;
    var g := Gain(c, Fraction(c.burst));
    var q := need / g;
    PositiveShare(need, g);
    assert q * g == need;
    k := q.Floor + 1;
    FloorAbove(q);
    GainsAre(c, k);
    Scale(q, k as real, g);
    assert Gains(c, k) == k as real * g;
  }

  lemma FloorAbove(x: real)
    ensures x < (x.Floor + 1) as real
  {
    assert (x.Floor + 1) as real == x.Floor as real + 1.0;
  }

  lemma PositiveShare(x: real, y: real)
    requires x >= 0.0 && y > 0.0
    ensures x / y >= 0.0 && (x / y) * y == x
  {
  }

  lemma Scale(x: real, y: real, g: real)
    requires x < y && g > 0.0
    ensures x * g < y * g
  {
  }

  lemma {:induction false} GainsAre(c: Config, k: nat)
    requires c.burst >= 0.0
    ensures Gains(c, k) == k as real * Gain(c, Fraction(c.burst))
    decreases k
  {
    hide Gain, Fraction;
    if k > 0 {
      GainsAre(c, k - 1);
      assert k as real == (k - 1) as real + 1.0;
      assert k as real * Gain(c, Fraction(c.burst)) == (k - 1) as real * Gain(c, Fraction(c.burst)) + Gain(c, Fraction(c.burst));
    }
  }

  /** With slow refill there is a window that beats the bucket. */
  lemma SlowRefillBeats(c: Config) returns (window: seq<Call>)
    requires Usable(c) && c.burst >= 1.0 && FullIdle(c) < c.burst
    ensures Monotone(0.0, window) && !WithinBucket(c, [], window, 0.0, 0)
  {
    hide Earned, Passes, Verdicts, FullIdle, Fraction, After, Monotone, Gain, EndTime, Gains;
    StartForgets();
    var first, u := Cycle(c, START, 0, 0.0);
    var k := Enough(c, c.burst);
    var end;
    window, end := Cycles(c, START, 0, 0.0, k);
    assert [] + window == window;
    assert Verdicts(c, START, [] + window)[0..] == Verdicts(c, START, window);
    EarnedMono(c, EndTime(0.0, window) - 0.0, end - 0.0);
  }

  lemma StartForgets()
    ensures Forgotten(START, 0, 0.0)
  {
  }

  /** A burst below one token passes nobody at all. */
  lemma {:induction false} NobodyEver(c: Config, l: Limiter, t: real, calls: seq<Call>, a: Source)
    requires Usable(c) && c.burst < 1.0 && SourcesOk(c, l.sources, t) && Monotone(t, calls)
    ensures Passes(calls, Verdicts(c, l, calls), a) == 0
    decreases |calls|
  {
    hide Spend, Gc, SourcesOk;
    if calls != [] {
      var x := calls[0];
      SourcesLater(c, l.sources, t, x.now);
      GcKeeps(c, l, x.now);
      SpendLeftAfter(c, Gc(l, x.now), x);
      NoTokenIn(c, Gc(l, x.now).sources, x);
      NobodyEver(c, Allow(c, l, x).0, x.now, calls[1..], a);
      assert Verdicts(c, l, calls)[1..] == Verdicts(c, Allow(c, l, x).0, calls[1..]);
    }
  }

  lemma NoTokenIn(c: Config, m: Sources, x: Call)
    requires Usable(c) && c.burst < 1.0 && SourcesOk(c, m, x.now)
    ensures !Spend(c, BucketOf(c, m, x.from, x.now), x.now).ok
  {
    NoToken(c, BucketOf(c, m, x.from, x.now), x.now);
  }

  lemma SmallBurstTight(c: Config, before: seq<Call>, window: seq<Call>, start: real, a: Source)
    requires Usable(c) && c.burst < 1.0
    requires Monotone(0.0, before) && EndTime(0.0, before) <= start && Monotone(start, window)
    ensures WithinBucket(c, before, window, start, a)
  {
    hide Verdicts, Earned, SourcesOk, Monotone, EndTime, Passes, After;
    EmptyOk(c);
    AfterOk(c, START, 0.0, before);
    var l := After(c, START, before);
    CutVerdicts(c, START, before, window);
    SourcesLater(c, l.sources, EndTime(0.0, before), start);
    assert Verdicts(c, START, before + window)[|before|..] == Verdicts(c, l, window);
    NobodyEver(c, l, start, window, a);
    EndIsLater(start, window);
    EarnedMono(c, 0.0, EndTime(start, window) - start);
  }

  /** The token bucket's bound holds in every window exactly when idling for the timeout refills the burst, or the burst admits nobody. */
  lemma TightIff(c: Config)
    requires Usable(c)
    ensures Tight(c) <==> c.burst < 1.0 || FullIdle(c) >= c.burst
  {
    hide Verdicts, FullIdle, Earned, Monotone, EndTime, Passes;
    if c.burst < 1.0 || FullIdle(c) >= c.burst {
      forall before, window, start, a | Monotone(0.0, before) && EndTime(0.0, before) <= start && Monotone(start, window)
        ensures WithinBucket(c, before, window, start, a)
      {
        if c.burst < 1.0 { SmallBurstTight(c, before, window, start, a); } else { TightWindow(c, before, window, start, a); }
      }
    } else {
      var window := SlowRefillBeats(c);
      NothingMonotone(0.0);
    }
  }
}
