/**
 Admission control (dataplane/admission.go): a token bucket per source address, with idle
 buckets evicted, and a global cap on half-open handshakes. Time is in seconds; floating
 point is modelled over the reals.
 */
module Admission {

  type Source = nat

  const IDLE_TIMEOUT: real := 300.0

  datatype Config = Config(maxHalfOpen: int, rate: real, burst: real)

  predicate Usable(c: Config) { c.maxHalfOpen > 0 && c.rate > 0.0 && c.burst > 0.0 }

  /** Unset fields become 512 handshakes in flight, 10 a second and a burst of 20. */
  function WithDefaults(c: Config): (r: Config)
    ensures Usable(r) && (Usable(c) ==> r == c)
    ensures c.maxHalfOpen <= 0 && c.rate <= 0.0 && c.burst <= 0.0 ==> r == Config(512, 10.0, 20.0)
  {
    Config(if c.maxHalfOpen <= 0 then 512 else c.maxHalfOpen,
           if c.rate <= 0.0 then 10.0 else c.rate,
           if c.burst <= 0.0 then 20.0 else c.burst)
  }

  function Least(a: real, b: real): (r: real) { if a < b then a else b }

  // ---------- one bucket ----------

  datatype Bucket = Bucket(tokens: real, last: real)

  /** Tokens earned in d seconds. */
  function Earned(c: Config, d: real): (r: real) { d * c.rate }

  lemma EarnedMono(c: Config, x: real, y: real)
    requires Usable(c) && x <= y
    ensures Earned(c, x) <= Earned(c, y) && Earned(c, 0.0) == 0.0
  {
    Product(y - x, c.rate);
    assert y * c.rate - x * c.rate == (y - x) * c.rate;
  }

  lemma EarnedAdd(c: Config, x: real, y: real)
    ensures Earned(c, x + y) == Earned(c, x) + Earned(c, y)
  {
  }

  /** The time it takes to earn a positive amount. */
  lemma EarnedIn(c: Config, amount: real) returns (d: real)
    requires Usable(c) && amount > 0.0
    ensures d > 0.0 && Earned(c, d) == amount
  {
    d := amount / c.rate;
    PositiveQuotient(amount, c.rate);
  }

  lemma PositiveQuotient(x: real, y: real)
    requires x > 0.0 && y > 0.0
    ensures x / y > 0.0 && (x / y) * y == x
  {
  }

  lemma Product(x: real, y: real)
    requires x >= 0.0 && y > 0.0
    ensures x * y >= 0.0
  {
  }

  function Refill(c: Config, b: Bucket, now: real): (r: Bucket)
  {
    if now > b.last then Bucket(Least(b.tokens + Earned(c, now - b.last), c.burst), now) else b
  }

  datatype Spent = Spent(b: Bucket, ok: bool)

  function Spend(c: Config, b: Bucket, now: real): (r: Spent)
  {
    var f := Refill(c, b, now);
    if f.tokens < 1.0 then Spent(f, false) else Spent(Bucket(f.tokens - 1.0, f.last), true)
  }

  // ---------- the table of sources ----------

  type Sources = map<Source, Bucket>

  function BucketOf(c: Config, m: Sources, a: Source, now: real): (b: Bucket)
  {
    if a in m then m[a] else Bucket(c.burst, now)
  }

  datatype Limiter = Limiter(sources: Sources, lastGC: real)

  function Evict(m: Sources, now: real): (r: Sources)
  {
    map a | a in m && now - m[a].last <= IDLE_TIMEOUT :: m[a]
  }

  function Gc(l: Limiter, now: real): (r: Limiter)
  {
    if now - l.lastGC < IDLE_TIMEOUT then l else Limiter(Evict(l.sources, now), now)
  }

  datatype Call = Call(from: Source, now: real)

  /** gc and allowSource, as Admit runs them. */
  function Allow(c: Config, l: Limiter, x: Call): (r: (Limiter, bool))
  {
    var g := Gc(l, x.now);
    var s := Spend(c, BucketOf(c, g.sources, x.from, x.now), x.now);
    (g.(sources := g.sources[x.from := s.b]), s.ok)
  }

  /** The reference: a limiter that never evicts. */
  function RefAllow(c: Config, m: Sources, x: Call): (r: (Sources, bool))
  {
    var s := Spend(c, BucketOf(c, m, x.from, x.now), x.now);
    (m[x.from := s.b], s.ok)
  }

  /** The rate verdicts of a run that begins in the given state. */
  function Verdicts(c: Config, l: Limiter, calls: seq<Call>): (r: seq<bool>)
    ensures |r| == |calls|
    decreases |calls|
  {
    if calls == [] then []
    else
      var x := Allow(c, l, calls[0]);
      [x.1] + Verdicts(c, x.0, calls[1..])
  }

  function RefVerdicts(c: Config, m: Sources, calls: seq<Call>): (r: seq<bool>)
    ensures |r| == |calls|
    decreases |calls|
  {
    if calls == [] then []
    else
      var x := RefAllow(c, m, calls[0]);
      [x.1] + RefVerdicts(c, x.0, calls[1..])
  }

  /** Times never go back, starting from t. */
  predicate Monotone(t: real, calls: seq<Call>)
    decreases |calls|
  {
    calls == [] || (t <= calls[0].now && Monotone(calls[0].now, calls[1..]))
  }

  // ---------- eviction against no eviction ----------

  predicate BucketOk(c: Config, b: Bucket, now: real) { 0.0 <= b.tokens <= c.burst && b.last <= now }

  ghost predicate SourcesOk(c: Config, m: Sources, now: real) { forall a :: a in m ==> BucketOk(c, m[a], now) }

  /** Only buckets idle for longer than the timeout have been forgotten. */
  ghost predicate Agrees(c: Config, m: Sources, ref: Sources, now: real)
  {
    && SourcesOk(c, ref, now)
    && (forall a :: a in m ==> a in ref && m[a] == ref[a])
    && (forall a :: a in ref && a !in m ==> now - ref[a].last > IDLE_TIMEOUT)
  }

  lemma SpendOk(c: Config, b: Bucket, now: real)
    requires Usable(c) && BucketOk(c, b, now)
    ensures BucketOk(c, Spend(c, b, now).b, now)
  {
    hide Earned;
    EarnedMono(c, 0.0, now - b.last);
  }

  /** What a source can refill while it is idle for the whole timeout. */
  function FullIdle(c: Config): (r: real) { Earned(c, IDLE_TIMEOUT) }

  /** An idle bucket has refilled completely, which is what a fresh one holds. */
  lemma IdleIsFull(c: Config, b: Bucket, now: real)
    requires Usable(c) && FullIdle(c) >= c.burst && BucketOk(c, b, now) && now - b.last > IDLE_TIMEOUT
    ensures Spend(c, b, now) == Spend(c, Bucket(c.burst, now), now)
  {
    hide Earned;
    EarnedMono(c, IDLE_TIMEOUT, now - b.last);
  }

  lemma AllowAgrees(c: Config, l: Limiter, ref: Sources, t: real, x: Call)
    requires Usable(c) && FullIdle(c) >= c.burst && Agrees(c, l.sources, ref, t) && t <= x.now
    ensures Allow(c, l, x).1 == RefAllow(c, ref, x).1
    ensures Agrees(c, Allow(c, l, x).0.sources, RefAllow(c, ref, x).0, x.now)
  {
    hide Spend, FullIdle;
    var g := Gc(l, x.now);
    assert Agrees(c, g.sources, ref, x.now);
    if x.from in ref {
      SpendOk(c, ref[x.from], x.now);
      if x.from !in g.sources { IdleIsFull(c, ref[x.from], x.now); }
    } else {
      SpendOk(c, Bucket(c.burst, x.now), x.now);
    }
  }

  lemma {:induction false} VerdictsAgree(c: Config, l: Limiter, ref: Sources, t: real, calls: seq<Call>)
    requires Usable(c) && FullIdle(c) >= c.burst && Agrees(c, l.sources, ref, t) && Monotone(t, calls)
    ensures Verdicts(c, l, calls) == RefVerdicts(c, ref, calls)
    decreases |calls|
  {
    hide Allow, RefAllow, Agrees;
    if calls != [] {
      AllowAgrees(c, l, ref, t, calls[0]);
      VerdictsAgree(c, Allow(c, l, calls[0]).0, RefAllow(c, ref, calls[0]).0, calls[0].now, calls[1..]);
    }
  }

  /** A burst under one token admits nobody, evicting or not. */
  lemma {:induction false} NobodyPasses(c: Config, l: Limiter, ref: Sources, t: real, calls: seq<Call>)
    requires Usable(c) && c.burst < 1.0 && SourcesOk(c, l.sources, t) && SourcesOk(c, ref, t) && Monotone(t, calls)
    ensures Verdicts(c, l, calls) == RefVerdicts(c, ref, calls)
    decreases |calls|
  {
    hide Spend;
    if calls != [] {
      var x := calls[0];
      var g := Gc(l, x.now);
      SourcesLater(c, g.sources, t, x.now);
      SourcesLater(c, ref, t, x.now);
      NoToken(c, BucketOf(c, g.sources, x.from, x.now), x.now);
      NoToken(c, BucketOf(c, ref, x.from, x.now), x.now);
      SpendOk(c, BucketOf(c, g.sources, x.from, x.now), x.now);
      SpendOk(c, BucketOf(c, ref, x.from, x.now), x.now);
      NobodyPasses(c, Allow(c, l, x).0, RefAllow(c, ref, x).0, x.now, calls[1..]);
    }
  }

  lemma SourcesLater(c: Config, m: Sources, t: real, now: real)
    requires SourcesOk(c, m, t) && t <= now
    ensures SourcesOk(c, m, now)
  {
  }

  lemma NoToken(c: Config, b: Bucket, now: real)
    requires Usable(c) && c.burst < 1.0 && BucketOk(c, b, now)
    ensures !Spend(c, b, now).ok
  {
  }

  // ---------- when eviction shows ----------

  function After(c: Config, l: Limiter, calls: seq<Call>): (r: Limiter)
    decreases |calls|
  {
    if calls == [] then l else After(c, Allow(c, l, calls[0]).0, calls[1..])
  }

  function RefAfter(c: Config, m: Sources, calls: seq<Call>): (r: Sources)
    decreases |calls|
  {
    if calls == [] then m else RefAfter(c, RefAllow(c, m, calls[0]).0, calls[1..])
  }

  function EndTime(t: real, calls: seq<Call>): (r: real) { if calls == [] then t else calls[|calls| - 1].now }

  lemma {:induction false} CutMonotone(t: real, a: seq<Call>, b: seq<Call>)
    requires Monotone(t, a) && Monotone(EndTime(t, a), b)
    ensures Monotone(t, a + b)
    decreases |a|
  {
    if a == [] {
      assert a + b == b;
    } else {
      assert (a + b)[1..] == a[1..] + b;
      CutMonotone(a[0].now, a[1..], b);
    }
  }

  lemma {:induction false} CutVerdicts(c: Config, l: Limiter, a: seq<Call>, b: seq<Call>)
    ensures Verdicts(c, l, a + b) == Verdicts(c, l, a) + Verdicts(c, After(c, l, a), b)
    ensures After(c, l, a + b) == After(c, After(c, l, a), b)
    decreases |a|
  {
    hide Allow;
    if a == [] {
      assert a + b == b;
    } else {
      assert (a + b)[1..] == a[1..] + b;
      CutVerdicts(c, Allow(c, l, a[0]).0, a[1..], b);
    }
  }

  lemma {:induction false} CutRefVerdicts(c: Config, m: Sources, a: seq<Call>, b: seq<Call>)
    ensures RefVerdicts(c, m, a + b) == RefVerdicts(c, m, a) + RefVerdicts(c, RefAfter(c, m, a), b)
    decreases |a|
  {
    hide RefAllow;
    if a == [] {
      assert a + b == b;
    } else {
      assert (a + b)[1..] == a[1..] + b;
      CutRefVerdicts(c, RefAllow(c, m, a[0]).0, a[1..], b);
    }
  }

  /** A run may be cut anywhere. */
  lemma CutRun(c: Config, l: Limiter, m: Sources, t: real, a: seq<Call>, b: seq<Call>)
    requires Monotone(t, a) && Monotone(EndTime(t, a), b)
    ensures Monotone(t, a + b)
    ensures Verdicts(c, l, a + b) == Verdicts(c, l, a) + Verdicts(c, After(c, l, a), b)
    ensures RefVerdicts(c, m, a + b) == RefVerdicts(c, m, a) + RefVerdicts(c, RefAfter(c, m, a), b)
  {
    hide Verdicts, RefVerdicts, After, RefAfter, Monotone, EndTime;
    CutMonotone(t, a, b);
    CutVerdicts(c, l, a, b);
    CutRefVerdicts(c, m, a, b);
  }

  /** A difference later in a run is a difference of the whole run. */
  lemma PrependDiffers(c: Config, l: Limiter, m: Sources, t: real, x: Call, rest: seq<Call>)
    requires t <= x.now && Monotone(x.now, rest)
    requires Verdicts(c, Allow(c, l, x).0, rest) != RefVerdicts(c, RefAllow(c, m, x).0, rest)
    ensures Monotone(t, [x] + rest) && Verdicts(c, l, [x] + rest) != RefVerdicts(c, m, [x] + rest)
  {
    hide Allow, RefAllow;
    assert ([x] + rest)[1..] == rest;
    SuffixDiffers([Allow(c, l, x).1], Verdicts(c, Allow(c, l, x).0, rest),
                  [RefAllow(c, m, x).1], RefVerdicts(c, RefAllow(c, m, x).0, rest));
  }

  lemma SuffixDiffers(a: seq<bool>, b: seq<bool>, p: seq<bool>, q: seq<bool>)
    requires |a| == |p| && |b| == |q| && b != q
    ensures a + b != p + q
  {
    assert (a + b)[|a|..] == b && (p + q)[|p|..] == q;
  }

  /** Source a holds g tokens with the evicting limiter and f without, both last touched at t; no gc is due at t. */
  predicate Holding(l: Limiter, ref: Sources, a: Source, t: real, g: real, f: real)
  {
    && a in l.sources && l.sources[a] == Bucket(g, t)
    && a in ref && ref[a] == Bucket(f, t)
    && l.lastGC <= t < l.lastGC + IDLE_TIMEOUT
  }

  /** Spending one token on each side at time t. */
  lemma SpendBoth(c: Config, l: Limiter, ref: Sources, a: Source, t: real, g: real, f: real)
    requires Usable(c) && Holding(l, ref, a, t, g, f) && f >= 1.0 && g >= 1.0
    ensures var x := Call(a, t);
      Allow(c, l, x).1 && RefAllow(c, ref, x).1 && Holding(Allow(c, l, x).0, RefAllow(c, ref, x).0, a, t, g - 1.0, f - 1.0)
  {
    hide Earned;
  }

  /** More tokens on one side can always be made to show: spend down together, then let the larger side reach one first. */
  lemma {:induction false} Distinguish(c: Config, l: Limiter, ref: Sources, a: Source, t: real, g: real, f: real)
    returns (calls: seq<Call>)
    requires Usable(c) && c.burst >= 1.0 && Holding(l, ref, a, t, g, f) && 0.0 <= f < g <= c.burst
    ensures Monotone(t, calls) && Verdicts(c, l, calls) != RefVerdicts(c, ref, calls)
    decreases f.Floor
  {
    hide Earned, Allow, RefAllow, Holding;
    var x := Call(a, t);
    if f >= 1.0 {
      SpendBoth(c, l, ref, a, t, g, f);
      var rest := Distinguish(c, Allow(c, l, x).0, RefAllow(c, ref, x).0, a, t, g - 1.0, f - 1.0);
      calls := [x] + rest;
      PrependDiffers(c, l, ref, t, x, rest);
    } else {
      var w := 0.0;
      if g < 1.0 { w := EarnedIn(c, 1.0 - g); }
      WaitShows(c, l, ref, a, t, g, f, w);
      calls := [Call(a, t + w)];
      assert Verdicts(c, l, calls)[0] != RefVerdicts(c, ref, calls)[0];
    }
  }

  lemma WaitShows(c: Config, l: Limiter, ref: Sources, a: Source, t: real, g: real, f: real, w: real)
    requires Usable(c) && c.burst >= 1.0 && Holding(l, ref, a, t, g, f) && 0.0 <= f < g <= c.burst && f < 1.0
    requires if g >= 1.0 then w == 0.0 else w > 0.0 && Earned(c, w) == 1.0 - g
    ensures Allow(c, l, Call(a, t + w)).1 && !RefAllow(c, ref, Call(a, t + w)).1
  {
    hide Earned;
    assert t + w - t == w;
  }

  /** Draining a source at time t leaves the fraction of a token. */
  lemma {:induction false} Drain(c: Config, l: Limiter, ref: Sources, a: Source, t: real, f: real)
    returns (calls: seq<Call>, rest: real)
    requires Usable(c) && Holding(l, ref, a, t, f, f) && 0.0 <= f
    ensures Monotone(t, calls) && EndTime(t, calls) == t
    ensures 0.0 <= rest < 1.0 && rest <= f && Holding(After(c, l, calls), RefAfter(c, ref, calls), a, t, rest, rest)
    decreases f.Floor
  {
    hide Allow, RefAllow, Holding;
    if f < 1.0 {
      calls, rest := [], f;
    } else {
      var x := Call(a, t);
      SpendBoth(c, l, ref, a, t, f, f);
      var more: seq<Call>;
      more, rest := Drain(c, Allow(c, l, x).0, RefAllow(c, ref, x).0, a, t, f - 1.0);
      calls := [x] + more;
      assert calls[1..] == more;
    }
  }

  const START := Limiter(map[], 0.0)

  /** The first call of a source, at the start of the clock. */
  lemma FirstCall(c: Config, a: Source)
    requires Usable(c) && c.burst >= 1.0
    ensures var x := Call(a, 0.0);
      Holding(Allow(c, START, x).0, RefAllow(c, map[], x).0, a, 0.0, c.burst - 1.0, c.burst - 1.0)
  {
    hide Earned;
  }

  /** Idle past the timeout: the evicting side starts over with a full bucket, the other has only refilled. */
  lemma IdleSplits(c: Config, l: Limiter, ref: Sources, a: Source, t: real, f: real, d: real)
    requires Usable(c) && c.burst >= 1.0 && d > IDLE_TIMEOUT && f + Earned(c, d) < c.burst && 0.0 <= f
    requires a in l.sources && l.sources[a] == Bucket(f, t) && a in ref && ref[a] == Bucket(f, t) && l.lastGC <= t
    ensures var x := Call(a, t + d); var g := f + Earned(c, d);
      && Allow(c, l, x).1
      && (RefAllow(c, ref, x).1 ==> g >= 1.0)
      && (RefAllow(c, ref, x).1 ==> Holding(Allow(c, l, x).0, RefAllow(c, ref, x).0, a, t + d, c.burst - 1.0, g - 1.0))
  {
    hide Earned;
    assert t + d - t == d;
  }

  /** From such a moment some run tells the two limiters apart. */
  lemma ShortShows(c: Config, l: Limiter, ref: Sources, a: Source, t: real, f: real) returns (calls: seq<Call>)
    requires Usable(c) && c.burst >= 1.0 && 0.0 <= f && f + FullIdle(c) < c.burst
    requires a in l.sources && l.sources[a] == Bucket(f, t) && a in ref && ref[a] == Bucket(f, t) && l.lastGC <= t
    ensures Monotone(t, calls) && Verdicts(c, l, calls) != RefVerdicts(c, ref, calls)
  {
    hide Earned, Allow, RefAllow;
    var extra := EarnedIn(c, (c.burst - f - FullIdle(c)) / 2.0);
    EarnedAdd(c, IDLE_TIMEOUT, extra);
    var d := IDLE_TIMEOUT + extra;
    EarnedMono(c, 0.0, d);
    IdleSplits(c, l, ref, a, t, f, d);
    var x := Call(a, t + d);
    if RefAllow(c, ref, x).1 {
      var rest := Distinguish(c, Allow(c, l, x).0, RefAllow(c, ref, x).0, a, t + d, c.burst - 1.0, f + Earned(c, d) - 1.0);
      calls := [x] + rest;
      PrependDiffers(c, l, ref, t, x, rest);
    } else {
      calls := [x];
      assert Verdicts(c, l, calls)[0] != RefVerdicts(c, ref, calls)[0];
    }
  }

  /** When the drained fraction is itself too much, waiting for one whole token and spending it empties the bucket. */
  lemma EmptyOut(c: Config, l: Limiter, ref: Sources, a: Source, rest: real) returns (w: real)
    requires Usable(c) && c.burst >= 1.0 && Holding(l, ref, a, 0.0, rest, rest) && 0.0 <= rest < 1.0
    requires 1.0 - rest <= FullIdle(c)
    ensures var x := Call(a, w); var l', ref' := Allow(c, l, x).0, RefAllow(c, ref, x).0;
      w > 0.0 && a in l'.sources && l'.sources[a] == Bucket(0.0, w) && a in ref' && ref'[a] == Bucket(0.0, w) && l'.lastGC <= w
  {
    hide Earned;
    w := EarnedIn(c, 1.0 - rest);
    if w > IDLE_TIMEOUT {
      var more := w - IDLE_TIMEOUT;
      StrictlyMore(c, IDLE_TIMEOUT, w);
    }
  }

  lemma StrictlyMore(c: Config, x: real, y: real)
    requires Usable(c) && x < y
    ensures Earned(c, x) < Earned(c, y)
  {
    PositiveProduct(y - x, c.rate);
    assert y * c.rate - x * c.rate == (y - x) * c.rate;
  }

  lemma PositiveProduct(x: real, y: real)
    requires x > 0.0 && y > 0.0
    ensures x * y > 0.0
  {
  }

  /** If a full idle period does not refill a bucket of at least one token, eviction can be observed. */
  lemma EvictionShows(c: Config) returns (calls: seq<Call>)
    requires Usable(c) && c.burst >= 1.0 && FullIdle(c) < c.burst
    ensures Monotone(0.0, calls) && Verdicts(c, START, calls) != RefVerdicts(c, map[], calls)
  {
    hide Earned, Allow, RefAllow, Holding, FullIdle;
    var a := 0;
    var x := Call(a, 0.0);
    FirstCall(c, a);
    var l1, m1 := Allow(c, START, x).0, RefAllow(c, map[], x).0;
    var drain, rest := Drain(c, l1, m1, a, 0.0, c.burst - 1.0);
    var l2, m2 := After(c, l1, drain), RefAfter(c, m1, drain);
    var tail: seq<Call>;
    if rest + FullIdle(c) < c.burst {
      HoldingPlain(l2, m2, a, 0.0, rest);
      tail := ShortShows(c, l2, m2, a, 0.0, rest);
    } else {
      var w := EmptyOut(c, l2, m2, a, rest);
      var y := Call(a, w);
      var more := ShortShows(c, Allow(c, l2, y).0, RefAllow(c, m2, y).0, a, w, 0.0);
      tail := [y] + more;
      PrependDiffers(c, l2, m2, 0.0, y, more);
    }
    CutRun(c, l1, m1, 0.0, drain, tail);
    SuffixDiffers(Verdicts(c, l1, drain), Verdicts(c, l2, tail), RefVerdicts(c, m1, drain), RefVerdicts(c, m2, tail));
    calls := [x] + (drain + tail);
    PrependDiffers(c, START, map[], 0.0, x, drain + tail);
  }

  lemma HoldingPlain(l: Limiter, ref: Sources, a: Source, t: real, f: real)
    requires Holding(l, ref, a, t, f, f)
    ensures a in l.sources && l.sources[a] == Bucket(f, t) && a in ref && ref[a] == Bucket(f, t) && l.lastGC <= t
  {
  }

  /**
   Evicting idle sources is invisible to every source in every run exactly when a full idle
   period refills the bucket, or the bucket is too small to admit anyone at all.
   */
  lemma EvictionInvisibleIff(c: Config)
    requires Usable(c)
    ensures (forall calls :: Monotone(0.0, calls) ==> Verdicts(c, START, calls) == RefVerdicts(c, map[], calls))
            <==> c.burst < 1.0 || FullIdle(c) >= c.burst
  {
    hide Verdicts, RefVerdicts, FullIdle;
    if c.burst < 1.0 || FullIdle(c) >= c.burst {
      forall calls | Monotone(0.0, calls) ensures Verdicts(c, START, calls) == RefVerdicts(c, map[], calls) {
        if c.burst < 1.0 {
          NobodyPasses(c, START, map[], 0.0, calls);
        } else {
          VerdictsAgree(c, START, map[], 0.0, calls);
        }
      }
    } else {
      var calls := EvictionShows(c);
    }
  }

  // ---------- how much one source can do ----------

  /** How often source a passed, given the verdicts of the calls. */
  function Passes(calls: seq<Call>, vs: seq<bool>, a: Source): (n: nat)
    requires |vs| == |calls|
    decreases |calls|
  {
    if calls == [] then 0
    else (if calls[0].from == a && vs[0] then 1 else 0) + Passes(calls[1..], vs[1..], a)
  }

  /** The tokens source a would find at time t. */
  function Available(c: Config, m: Sources, a: Source, t: real): (r: real)
  {
    Refill(c, BucketOf(c, m, a, t), t).tokens
  }

  lemma AvailableGrows(c: Config, m: Sources, a: Source, t: real, s: real)
    requires Usable(c) && SourcesOk(c, m, t) && t <= s
    ensures Available(c, m, a, s) <= Available(c, m, a, t) + Earned(c, s - t) && Available(c, m, a, t) <= c.burst
  {
    hide Earned;
    var b := BucketOf(c, m, a, t);
    EarnedMono(c, 0.0, s - t);
    EarnedMono(c, 0.0, t - b.last);
    EarnedMono(c, 0.0, s - b.last);
    EarnedAdd(c, s - t, t - b.last);
    assert s - t + (t - b.last) == s - b.last;
  }

  lemma StepSpends(c: Config, m: Sources, x: Call, a: Source, t: real)
    requires Usable(c) && SourcesOk(c, m, t) && t <= x.now
    ensures SourcesOk(c, RefAllow(c, m, x).0, x.now)
    ensures Available(c, RefAllow(c, m, x).0, a, x.now)
         == Available(c, m, a, x.now) - (if x.from == a && RefAllow(c, m, x).1 then 1.0 else 0.0)
  {
    hide Earned;
    SpendOk(c, BucketOf(c, m, x.from, x.now), x.now);
  }

  lemma {:induction false} RefWindow(c: Config, m: Sources, t: real, calls: seq<Call>, a: Source)
    requires Usable(c) && SourcesOk(c, m, t) && Monotone(t, calls)
    ensures Passes(calls, RefVerdicts(c, m, calls), a) as real <= Available(c, m, a, t) + Earned(c, EndTime(t, calls) - t)
    decreases |calls|
  {
    hide Earned, Available, RefAllow, SourcesOk;
    if calls == [] {
      EarnedMono(c, 0.0, 0.0);
      AvailableAtLeastZero(c, m, a, t);
    } else {
      var x, rest := calls[0], calls[1..];
      var m' := RefAllow(c, m, x).0;
      StepSpends(c, m, x, a, t);
      AvailableGrows(c, m, a, t, x.now);
      RefWindow(c, m', x.now, rest, a);
      assert RefVerdicts(c, m, calls)[1..] == RefVerdicts(c, m', rest);
      EarnedAdd(c, EndTime(x.now, rest) - x.now, x.now - t);
      assert EndTime(x.now, rest) - x.now + (x.now - t) == EndTime(t, calls) - t;
    }
  }

  lemma AvailableAtLeastZero(c: Config, m: Sources, a: Source, t: real)
    requires Usable(c) && SourcesOk(c, m, t)
    ensures Available(c, m, a, t) >= 0.0
  {
    hide Earned;
    EarnedMono(c, 0.0, t - BucketOf(c, m, a, t).last);
  }

  lemma {:induction false} RefAfterOk(c: Config, m: Sources, t: real, calls: seq<Call>)
    requires Usable(c) && SourcesOk(c, m, t) && Monotone(t, calls)
    ensures SourcesOk(c, RefAfter(c, m, calls), EndTime(t, calls)) && t <= EndTime(t, calls)
    decreases |calls|
  {
    hide RefAllow;
    if calls != [] {
      StepSpends(c, m, calls[0], calls[0].from, t);
      RefAfterOk(c, RefAllow(c, m, calls[0]).0, calls[0].now, calls[1..]);
    }
  }

  /** When idling refills the burst, one source passes the rate check at most burst + rate * length times in any window. */
  lemma TightWindow(c: Config, before: seq<Call>, window: seq<Call>, start: real, a: Source)
    requires Usable(c) && FullIdle(c) >= c.burst
    requires Monotone(0.0, before) && EndTime(0.0, before) <= start && Monotone(start, window)
    ensures Passes(window, Verdicts(c, START, before + window)[|before|..], a) as real
         <= c.burst + Earned(c, EndTime(start, window) - start)
  {
    hide Verdicts, RefVerdicts, FullIdle, Earned, SourcesOk, Available;
    var m := RefAfter(c, map[], before);
    EmptyOk(c);
    RefAfterOk(c, map[], 0.0, before);
    MonotoneEarlier(EndTime(0.0, before), start, window);
    CutRun(c, START, map[], 0.0, before, window);
    EmptyAgrees(c);
    VerdictsAgree(c, START, map[], 0.0, before + window);
    assert Verdicts(c, START, before + window)[|before|..] == RefVerdicts(c, m, window);
    SourcesLater(c, m, EndTime(0.0, before), start);
    RefWindow(c, m, start, window, a);
    AvailableGrows(c, m, a, start, start);
  }

  lemma EmptyOk(c: Config)
    ensures SourcesOk(c, map[], 0.0)
  {
  }

  lemma EmptyAgrees(c: Config)
    ensures Agrees(c, START.sources, map[], 0.0)
  {
  }

  lemma MonotoneEarlier(s: real, t: real, calls: seq<Call>)
    requires s <= t && Monotone(t, calls)
    ensures Monotone(s, calls)
  {
  }

  // ---------- the cap ----------

  datatype Reason = Admitted | AtCapacity | RateLimited

  datatype GateState = GateState(l: Limiter, halfOpen: nat)

  function Admit(c: Config, g: GateState, x: Call): (r: (GateState, Reason))
  {
    var a := Allow(c, g.l, x);
    var g1 := g.(l := a.0);
    if !a.1 then (g1, RateLimited)
    else if g.halfOpen >= c.maxHalfOpen then (g1, AtCapacity)
    else (g1.(halfOpen := g.halfOpen + 1), Admitted)
  }

  function Done(g: GateState): (r: GateState) { if g.halfOpen > 0 then g.(halfOpen := g.halfOpen - 1) else g }

  datatype Event = Arrive(x: Call) | Complete

  /** The gate after a run, with how many admissions and completions it has seen. */
  datatype Ledger = Ledger(g: GateState, admitted: nat, completed: nat)

  function RunGate(c: Config, events: seq<Event>): (r: Ledger)
  {
    if events == [] then Ledger(GateState(START, 0), 0, 0)
    else
      var r := RunGate(c, events[..|events| - 1]);
      match events[|events| - 1]
      case Complete => r.(g := Done(r.g), completed := r.completed + 1)
      case Arrive(x) =>
        var (g, why) := Admit(c, r.g, x);
        Ledger(g, if why == Admitted then r.admitted + 1 else r.admitted, r.completed)
  }

  /** Each admission is completed at most once. */
  predicate Balanced(c: Config, events: seq<Event>)
  {
    forall n :: 0 <= n <= |events| ==> RunGate(c, events[..n]).completed <= RunGate(c, events[..n]).admitted
  }

  /** Half-open handshakes are admissions minus completions, and never more than the cap; the cap holds even when Done is called too often. */
  lemma {:induction false} HalfOpenIsLedger(c: Config, events: seq<Event>)
    requires Usable(c)
    ensures RunGate(c, events).g.halfOpen <= c.maxHalfOpen
    ensures Balanced(c, events) ==> RunGate(c, events).g.halfOpen == RunGate(c, events).admitted - RunGate(c, events).completed
    decreases |events|
  {
    hide Allow;
    if events != [] {
      var n := |events| - 1;
      HalfOpenIsLedger(c, events[..n]);
      if Balanced(c, events) {
        forall k | 0 <= k <= n ensures RunGate(c, events[..n][..k]).completed <= RunGate(c, events[..n][..k]).admitted {
          assert events[..n][..k] == events[..k];
        }
        assert events[..|events|] == events;
        assert RunGate(c, events[..|events|]).completed <= RunGate(c, events[..|events|]).admitted;
      }
    }
  }

  /** Completing an admission gives back exactly the place it took, and a refusal takes none. */
  lemma AdmitThenDone(c: Config, g: GateState, x: Call)
    ensures var (h, why) := Admit(c, g, x);
      if why == Admitted then g.halfOpen < c.maxHalfOpen && h.halfOpen == g.halfOpen + 1 && Done(h) == g.(l := h.l)
      else h.halfOpen == g.halfOpen
  {
    hide Allow;
  }

  // ---------- the mutable gate ----------

  class Gate {
    const cfg: Config
    var halfOpen: nat
    var sources: Sources
    var lastGC: real

    constructor (cfg: Config, now: real)
      ensures this.cfg == WithDefaults(cfg) && Value() == GateState(Limiter(map[], now), 0)
    {
      this.cfg := WithDefaults(cfg);
      halfOpen, sources, lastGC := 0, map[], now;
    }

    function Value(): (g: GateState)
      reads this
    {
      GateState(Limiter(sources, lastGC), halfOpen)
    }

    /** gc: delete idle sources while ranging over the map. */
    method Collect(now: real)
      modifies this
      ensures Value() == old(Value()).(l := Gc(old(Value()).l, now))
    {
      if now - lastGC < IDLE_TIMEOUT {
        return;
      }
      lastGC := now;
      var todo := sources.Keys;
      while todo != {}
        invariant todo <= old(sources).Keys && lastGC == now && halfOpen == old(halfOpen)
        invariant forall a :: a in sources <==> a in old(sources) && (a in todo || now - old(sources)[a].last <= IDLE_TIMEOUT)
        invariant forall a :: a in sources ==> sources[a] == old(sources)[a]
        decreases todo
      {
        var a :| a in todo;
        if now - sources[a].last > IDLE_TIMEOUT {
          sources := sources - {a};
        }
        todo := todo - {a};
      }
    }

    method AllowSource(a: Source, now: real) returns (ok: bool)
      modifies this`sources
      ensures var s := Spend(cfg, BucketOf(cfg, old(sources), a, now), now);
        ok == s.ok && sources == old(sources)[a := s.b]
    {
      hide Earned;
      if a !in sources {
        sources := sources[a := Bucket(cfg.burst, now)];
      }
      var b := sources[a];
      var elapsed := now - b.last;
      if elapsed > 0.0 {
        b := Bucket(Least(b.tokens + Earned(cfg, elapsed), cfg.burst), now);
      }
      ok := b.tokens >= 1.0;
      if ok {
        b := b.(tokens := b.tokens - 1.0);
      }
      sources := sources[a := b];
    }

    method TryAdmit(x: Call) returns (why: Reason)
      modifies this
      ensures (Value(), why) == Admit(cfg, old(Value()), x)
    {
      hide Gc, Spend;
      Collect(x.now);
      var ok := AllowSource(x.from, x.now);
      if !ok {
        return RateLimited;
      }
      if halfOpen >= cfg.maxHalfOpen {
        return AtCapacity;
      }
      halfOpen := halfOpen + 1;
      return Admitted;
    }

    method Finish()
      modifies this
      ensures Value() == Done(old(Value()))
    {
      if halfOpen > 0 {
        halfOpen := halfOpen - 1;
      }
    }
  }
}
