/**
 Address pools (dataplane/pool.go, dataplane/pool6.go): the IPv4 pool scans from its first host
 every time; the IPv6 pool scans from a low-water mark and must give the same answers.
 */
module AddrPool {
  import opened Bytes
  import opened Routes

  const MAX128: nat := 0xffff_ffff_ffff_ffff_ffff_ffff_ffff_ffff

  // ---------- the full scan ----------

  /** The first address from `from` up to hi that is not in use. */
  function FirstFree(used: set<nat>, from: nat, hi: nat): (r: Option<nat>)
    decreases hi + 1 - from
  {
    if from > hi then None else if from !in used then Some(from) else FirstFree(used, from + 1, hi)
  }

  /** It is the lowest free address, and None means every address is taken. */
  lemma {:induction false} FirstFreeIsLowest(used: set<nat>, from: nat, hi: nat)
    ensures match FirstFree(used, from, hi)
            case None => forall a :: from <= a <= hi ==> a in used
            case Some(r) => from <= r <= hi && r !in used && forall a :: from <= a < r ==> a in used
    decreases hi + 1 - from
  {
    if from <= hi && from in used { FirstFreeIsLowest(used, from + 1, hi); }
  }

  /** Starting later changes nothing when everything skipped is in use. */
  lemma {:induction false} SkipUsed(used: set<nat>, from: nat, later: nat, hi: nat)
    requires from <= later <= hi + 1 && forall a :: from <= a < later ==> a in used
    ensures FirstFree(used, from, hi) == FirstFree(used, later, hi)
    decreases later - from
  {
    if from < later { SkipUsed(used, from + 1, later, hi); }
  }

  // ---------- prefixes are ranges ----------

  /** The addresses a prefix contains are the range from its network address, 2^(host bits) long. */
  lemma {:induction false} PrefixIsRange(n: nat, a: nat, k: nat)
    ensures Shr(a, k) == Shr(n, k) <==> Shl(Shr(n, k), k) <= a < Shl(Shr(n, k), k) + Shl(1, k)
    decreases k
  {
    if k > 0 {
      PrefixIsRange(n / 2, a / 2, k - 1);
      ShlOut(Shr(n, k), k - 1);
      ShlOut(1, k - 1);
    }
  }

  // ---------- the IPv6 pool ----------

  /** lo..hi is the prefix; lo is the network address, lo + 1 the gateway. next is None once it has run past all-ones. */
  datatype Pool6 = Pool6(lo: nat, hi: nat, next: Option<nat>, used: set<nat>)

  predicate Valid6(lo: nat, hi: nat) { lo + 3 <= hi <= MAX128 }

  function Succ(a: nat): (r: Option<nat>) { if a >= MAX128 then None else Some(a + 1) }

  /** An IPv4 address wearing IPv6 clothes: ::ffff:0:0/96. */
  predicate Is4In6(n: nat) { Shr(n, 32) == 0xffff }

  /** NewAddrPool6 on a parsed IPv6 prefix; more than 126 bits leaves no room for a client. */
  function NewPool6(p: Prefix): (r: Option<Pool6>)
    requires p.Valid()
  {
    if p.addr.V4? || Is4In6(p.Masked().addr.n) || p.bits > 126 then None
    else
      var lo := p.Masked().addr.n;
      FourHosts(128 - p.bits);
      Some(Pool6(lo, lo + Shl(1, 128 - p.bits) - 1, Succ(lo + 1), {}))
  }

  /** The new pool covers exactly the prefix, starts past the gateway, and leaves room for two clients. */
  lemma NewPool6Covers(p: Prefix, a: nat)
    requires p.Valid() && NewPool6(p).Some?
    ensures var q := NewPool6(p).value;
      && Valid6(q.lo, q.hi) && q.next == Some(q.lo + 2) && q.used == {}
      && (q.lo <= a <= q.hi <==> p.Contains(V6(a)))
  {
    hide Shl, Shr;
    PrefixIsRange(p.addr.n, a, 128 - p.bits);
    FourHosts(128 - p.bits);
    MaskedFits(p);
    Shl128();
  }

  /** A pool exists for every IPv6 prefix with room for a client that is not a spelling of IPv4. */
  lemma NewPool6Iff(p: Prefix)
    requires p.Valid()
    ensures NewPool6(p).Some? <==> p.addr.V6? && p.bits <= 126 && Shr(p.Masked().addr.n, 32) != 0xffff
  {
    hide Shl, Shr;
  }

  lemma {:induction false} FourHosts(k: nat)
    requires k >= 2
    ensures Shl(1, k) >= 4
    decreases k
  {
    if k > 2 {
      FourHosts(k - 1);
      ShlOut(1, k - 1);
    } else {
      assert Shl(1, 2) == Shl(2, 1) == Shl(4, 0);
    }
  }

  datatype Given = Given(p: Pool6, a: Option<nat>)

  function Allocate6(p: Pool6): (r: Given)
  {
    if p.next.None? then Given(p, None)
    else
      match FirstFree(p.used, p.next.value, p.hi)
      case None => Given(p, None)
      case Some(a) => Given(p.(used := p.used + {a}, next := Succ(a)), Some(a))
  }

  function Release6(p: Pool6, a: nat): (r: Pool6)
  {
    if a !in p.used then p
    else p.(used := p.used - {a}, next := if p.next.Some? && a < p.next.value then Some(a) else p.next)
  }

  // ---------- the reference ----------

  /** A pool with no mark: the set of live addresses. */
  function RefAllocate(used: set<nat>, base: nat, hi: nat): (r: (set<nat>, Option<nat>))
  {
    match FirstFree(used, base, hi)
    case None => (used, None)
    case Some(a) => (used + {a}, Some(a))
  }

  datatype Op = Alloc | Free(a: nat)

  /** The pool after a run, and the answers its Alloc calls gave. */
  function Run6(lo: nat, hi: nat, ops: seq<Op>): (r: (Pool6, seq<Option<nat>>))
  {
    if ops == [] then (Pool6(lo, hi, Some(lo + 2), {}), [])
    else
      var (p, out) := Run6(lo, hi, ops[..|ops| - 1]);
      match ops[|ops| - 1]
      case Alloc => (Allocate6(p).p, out + [Allocate6(p).a])
      case Free(a) => (Release6(p, a), out)
  }

  function RefRun(base: nat, hi: nat, ops: seq<Op>): (r: (set<nat>, seq<Option<nat>>))
  {
    if ops == [] then ({}, [])
    else
      var (used, out) := RefRun(base, hi, ops[..|ops| - 1]);
      match ops[|ops| - 1]
      case Alloc => var x := RefAllocate(used, base, hi); (x.0, out + [x.1])
      case Free(a) => (used - {a}, out)
  }

  /** Every host below the mark is in use, and only hosts are. */
  ghost predicate Marked(p: Pool6)
  {
    && p.next.Some? && p.lo + 2 <= p.next.value <= p.hi + 1
    && (forall a :: p.lo + 2 <= a < p.next.value ==> a in p.used)
    && (forall a :: a in p.used ==> p.lo + 2 <= a <= p.hi)
  }

  lemma AllocateMarked(p: Pool6)
    requires Marked(p) && p.hi < MAX128
    ensures Marked(Allocate6(p).p)
    ensures (Allocate6(p).p.used, Allocate6(p).a) == RefAllocate(p.used, p.lo + 2, p.hi)
  {
    SkipUsed(p.used, p.lo + 2, p.next.value, p.hi);
    FirstFreeIsLowest(p.used, p.next.value, p.hi);
  }

  lemma ReleaseMarked(p: Pool6, a: nat)
    requires Marked(p)
    ensures Marked(Release6(p, a)) && Release6(p, a).used == p.used - {a}
  {
  }

  lemma {:induction false} RunMatches(lo: nat, hi: nat, ops: seq<Op>)
    requires Valid6(lo, hi) && hi < MAX128
    ensures var (p, out) := Run6(lo, hi, ops);
      p.lo == lo && p.hi == hi && Marked(p) && (p.used, out) == RefRun(lo + 2, hi, ops)
    decreases |ops|
  {
    hide Allocate6, Release6, RefAllocate;
    if ops != [] {
      var n := |ops| - 1;
      RunMatches(lo, hi, ops[..n]);
      var p := Run6(lo, hi, ops[..n]).0;
      AllocateMarked(p);
      AllocateRange(p);
      match ops[n]
      case Alloc =>
      case Free(a) => ReleaseMarked(p, a); ReleaseRange(p, a);
    }
  }

  lemma AllocateRange(p: Pool6)
    ensures Allocate6(p).p.lo == p.lo && Allocate6(p).p.hi == p.hi
  {
  }

  lemma ReleaseRange(p: Pool6, a: nat)
    ensures Release6(p, a).lo == p.lo && Release6(p, a).hi == p.hi
  {
  }

  /** With the first n hosts in use the next free one is host n, from wherever at or below it the scan starts. */
  lemma NextHost(lo: nat, hi: nat, n: nat, from: nat)
    requires lo + 2 <= from <= lo + 2 + n <= hi
    ensures FirstFree(HostsUpTo(lo, n), from, hi) == Some(lo + 2 + n)
    ensures HostsUpTo(lo, n) + {lo + 2 + n} == HostsUpTo(lo, n + 1)
  {
    hide FirstFree;
    FirstFreeIsLowest(HostsUpTo(lo, n), from, hi);
    assert lo + 2 + n !in HostsUpTo(lo, n);
  }

  /** Allocating k times in a row from a fresh pool hands out the first k hosts in order. */
  lemma {:induction false} FillUp(lo: nat, hi: nat, ops: seq<Op>)
    requires Valid6(lo, hi) && |ops| <= hi - lo - 1 && forall i :: 0 <= i < |ops| ==> ops[i].Alloc?
    ensures var k := |ops|;
      && Run6(lo, hi, ops).0 == Pool6(lo, hi, if k == 0 then Some(lo + 2) else Succ(lo + 1 + k), HostsUpTo(lo, k))
      && RefRun(lo + 2, hi, ops).0 == HostsUpTo(lo, k)
    decreases |ops|
  {
    hide FirstFree, HostsUpTo;
    if ops == [] {
      NoHosts(lo);
    } else {
      var n := |ops| - 1;
      FillUp(lo, hi, ops[..n]);
      NextHost(lo, hi, n, lo + 2);
      NextHost(lo, hi, n, lo + 2 + n);
    }
  }

  lemma NoHosts(lo: nat)
    ensures HostsUpTo(lo, 0) == {}
  {
  }

  /** The first k hosts. */
  ghost function HostsUpTo(lo: nat, k: nat): (r: set<nat>)
    ensures forall a :: a in r <==> lo + 2 <= a < lo + 2 + k
  {
    if k == 0 then {} else HostsUpTo(lo, k - 1) + {lo + 1 + k}
  }

  /** Once the all-ones address has been handed out, a released host is never found again. */
  lemma MarkIsLost(lo: nat, hi: nat) returns (ops: seq<Op>)
    requires Valid6(lo, hi) && hi == MAX128
    ensures Run6(lo, hi, ops).1 != RefRun(lo + 2, hi, ops).1
  {
    var k := hi - lo - 1;
    var fill := seq(k, _ => Alloc);
    FillUp(lo, hi, fill);
    var freed := fill + [Free(lo + 2)];
    ops := freed + [Alloc];
    assert freed[..k] == fill && ops[..k + 1] == freed;
    assert lo + 2 in HostsUpTo(lo, k);
    assert Run6(lo, hi, freed).0.next == None;
    var used := RefRun(lo + 2, hi, freed).0;
    assert lo + 2 !in used;
    var a, b := Run6(lo, hi, ops).1, RefRun(lo + 2, hi, ops).1;
    assert a == Run6(lo, hi, freed).1 + [None];
    assert b == RefRun(lo + 2, hi, freed).1 + [Some(lo + 2)];
    assert a[|a| - 1] != b[|b| - 1];
  }

  /** The low-water mark is invisible, in every run, exactly for prefixes that leave out the all-ones address. */
  lemma MarkIsInvisible(lo: nat, hi: nat)
    requires Valid6(lo, hi)
    ensures (forall ops :: Run6(lo, hi, ops).1 == RefRun(lo + 2, hi, ops).1) <==> hi < MAX128
  {
    if hi < MAX128 {
      forall ops: seq<Op> ensures Run6(lo, hi, ops).1 == RefRun(lo + 2, hi, ops).1 {
        RunMatches(lo, hi, ops);
      }
    } else {
      var ops := MarkIsLost(lo, hi);
    }
  }

  /** What the reference promises: the lowest free host, never the network or gateway address, never a live one, and refusal only when full. */
  lemma ReferenceIsLowest(used: set<nat>, base: nat, hi: nat)
    ensures match RefAllocate(used, base, hi).1
            case None => forall a :: base <= a <= hi ==> a in used
            case Some(r) => base <= r <= hi && r !in used && forall a :: base <= a < r ==> a in used
  {
    FirstFreeIsLowest(used, base, hi);
  }

  /** The next allocation succeeds, with a or a lower host. */
  predicate CanGive(used: set<nat>, base: nat, hi: nat, a: nat)
  {
    RefAllocate(used, base, hi).1.Some? && RefAllocate(used, base, hi).1.value <= a
  }

  lemma FreeIsGiven(used: set<nat>, base: nat, hi: nat, a: nat)
    requires a !in used
    ensures base <= a <= hi ==> CanGive(used, base, hi, a)
  {
    FirstFreeIsLowest(used, base, hi);
  }

  class AddrPool6 {
    const lo: nat
    const hi: nat
    var next: Option<nat>
    var used: set<nat>

    constructor (lo: nat, hi: nat)
      requires Valid6(lo, hi)
      ensures this.lo == lo && this.hi == hi && Value() == Run6(lo, hi, []).0
    {
      this.lo, this.hi := lo, hi;
      next, used := Some(lo + 2), {};
    }

    function Value(): (p: Pool6)
      reads this
    {
      Pool6(lo, hi, next, used)
    }

    method Allocate() returns (a: Option<nat>)
      requires hi <= MAX128
      modifies this
      ensures Given(Value(), a) == Allocate6(old(Value()))
      ensures old(Marked(Value())) && hi < MAX128 ==> Marked(Value()) && (used, a) == RefAllocate(old(used), lo + 2, hi)
    {
      if Marked(Value()) && hi < MAX128 { AllocateMarked(Value()); }
      var cand := next;
      while cand.Some? && cand.value <= hi
        invariant next == old(next) && used == old(used)
        invariant next.None? ==> cand.None?
        invariant next.Some? ==>
          FirstFree(used, next.value, hi) == if cand.None? then None else FirstFree(used, cand.value, hi)
        decreases if cand.None? then 0 else hi + 1 - cand.value, cand.Some?
      {
        if cand.value !in used {
          used := used + {cand.value};
          next := Succ(cand.value);
          return cand;
        }
        cand := Succ(cand.value);
      }
      return None;
    }

    /** Release: the mark still has only live hosts below it, and a released host can be given out again. */
    method Release(a: nat)
      modifies this
      ensures Value() == Release6(old(Value()), a)
      ensures old(Marked(Value())) ==> Marked(Value()) && used == old(used) - {a}
      ensures old(Marked(Value())) && lo + 2 <= a <= hi ==> CanGive(used, lo + 2, hi, a)
    {
      if Marked(Value()) { ReleaseMarked(Value(), a); }
      FreeIsGiven(used - {a}, lo + 2, hi, a);
      if a !in used {
        return;
      }
      used := used - {a};
      if next.Some? && a < next.value {
        next := Some(a);
      }
    }
  }

  // ---------- the IPv4 pool ----------

  datatype Pool4 = Pool4(gateway: u32, base: u32, last: u32)

  /**
   NewAddrPool on a parsed network, which may also be an IPv4 one in its IPv4-mapped IPv6 spelling.
   The size is computed in 32 bits, so a whole IPv4 space counts as too small.
   */
  function NewPool4(p: Prefix): (r: Option<Pool4>)
    requires p.Valid()
  {
    if p.addr.V6? && !Is4In6(p.Masked().addr.n) then None
    else
      var start, size := Low32(p.Masked().addr.n), Low32(Shl(1, p.addr.Width() - p.bits));
      if size < 4 then None
      else Some(Pool4(Low32(start + 1), Low32(start + 2), Low32(start + size - 2)))
  }

  lemma {:induction false} ShlGrows(k: nat, j: nat)
    requires k <= j
    ensures Shl(1, k) <= Shl(1, j)
    decreases j
  {
    if k < j {
      ShlGrows(k, j - 1);
      ShlOut(1, j - 1);
    }
  }

  lemma Shl32()
    ensures Shl(1, 32) == 0x1_0000_0000
  {
    assert Shl(1, 32) == Shl(0x100, 24) by { EightUp(1, 32); }
    assert Shl(0x100, 24) == Shl(0x1_0000, 16) by { EightUp(0x100, 24); }
    assert Shl(0x1_0000, 16) == Shl(0x100_0000, 8) by { EightUp(0x1_0000, 16); }
    assert Shl(0x100_0000, 8) == Shl(0x1_0000_0000, 0) by { EightUp(0x100_0000, 8); }
  }

  lemma EightUp(n: nat, k: nat)
    requires k >= 8
    ensures Shl(n, k) == Shl(0x100 * n, k - 8)
  {
    assert Shl(n, k) == Shl(2 * n, k - 1) == Shl(4 * n, k - 2);
    assert Shl(4 * n, k - 2) == Shl(8 * n, k - 3) == Shl(16 * n, k - 4);
    assert Shl(16 * n, k - 4) == Shl(32 * n, k - 5) == Shl(64 * n, k - 6);
    assert Shl(64 * n, k - 6) == Shl(128 * n, k - 7) == Shl(256 * n, k - 8);
  }

  /** An IPv4 address in the family the prefix is written in. */
  function Spelled(p: Prefix, a: nat): (r: Addr) { if p.addr.V4? then V4(a) else V6(0xffff_0000_0000 + a) }

  /** The prefix length counted as IPv4 does. */
  function Bits4(p: Prefix): (b: int) { if p.addr.V4? then p.bits else p.bits - 96 }

  /**
   The IPv4 pool's arithmetic: exactly the IPv4 prefixes from /1 to /30 are accepted, in either
   spelling, and then no 32-bit sum wraps, the assignable range is the prefix without its network,
   gateway and broadcast addresses, and the scan's counter cannot wrap either.
   */
  lemma NewPool4Range(p: Prefix)
    requires p.Valid()
    ensures NewPool4(p).Some? <==> (p.addr.V4? || Is4In6(p.Masked().addr.n)) && 1 <= Bits4(p) <= 30
    ensures NewPool4(p).Some? ==>
      var q, start := NewPool4(p).value, Low32(p.Masked().addr.n);
      && q.gateway == start + 1 && q.base == start + 2 && q.last == start + Shl(1, 32 - Bits4(p)) - 2
      && q.base <= q.last < 0xffff_ffff
      && (forall a: nat :: a < 0x1_0000_0000 ==> (p.Contains(Spelled(p, a)) <==> start <= a <= q.last + 1))
  {
    hide Shl, Shr, Low32, Is4In6;
    var k := p.addr.Width() - p.bits;
    PoolSize(k);
    if (p.addr.V4? || Is4In6(p.Masked().addr.n)) && 2 <= k <= 31 {
      var start := Low32(p.Masked().addr.n);
      if p.addr.V4? { RangeV4(p); } else { RangeMapped(p); }
      SmallLow32(start + 1);
      SmallLow32(start + 2);
      SmallLow32(start + Shl(1, k) - 2);
      FourHosts(k);
    }
  }

  /** The addresses of an IPv4 prefix, and that they fit 32 bits. */
  lemma RangeV4(p: Prefix)
    requires p.Valid() && p.addr.V4?
    ensures var k, start := 32 - p.bits, p.Masked().addr.n;
      && Low32(start) == start && start + Shl(1, k) <= 0x1_0000_0000
      && forall a: nat :: p.Contains(V4(a)) <==> start <= a < start + Shl(1, k)
  {
    hide Shl, Shr, Low32;
    var k, start := 32 - p.bits, p.Masked().addr.n;
    MaskedFits(p);
    Shl32();
    ShlPositive(k);
    SmallLow32(start);
    forall a: nat ensures p.Contains(V4(a)) <==> start <= a < start + Shl(1, k) {
      PrefixIsRange(p.addr.n, a, k);
    }
  }

  lemma {:induction false} ShlPositive(k: nat)
    ensures Shl(1, k) > 0
    decreases k
  {
    if k > 0 {
      ShlPositive(k - 1);
      ShlTwice(1, k - 1);
    }
  }

  /** The same through the mapped spelling: an aligned block of the mapped space. */
  lemma RangeMapped(p: Prefix)
    requires p.Valid() && p.addr.V6? && Is4In6(p.Masked().addr.n) && p.bits >= 96
    ensures var k, start := 128 - p.bits, Low32(p.Masked().addr.n);
      && start + Shl(1, k) <= 0x1_0000_0000
      && forall a: nat :: a < 0x1_0000_0000 ==> (p.Contains(Spelled(p, a)) <==> start <= a < start + Shl(1, k))
  {
    hide Shl, Shr, Low32;
    var k, m := 128 - p.bits, p.Masked().addr.n;
    MappedIs(m);
    var start := Low32(m);
    AlignedFits(p.addr.n, k, start);
    forall a: nat | a < 0x1_0000_0000
      ensures p.Contains(Spelled(p, a)) <==> start <= a < start + Shl(1, k)
    {
      PrefixIsRange(p.addr.n, 0xffff_0000_0000 + a, k);
    }
  }

  /** A mapped address is its 32 low bits above the mapped space's base. */
  lemma MappedIs(m: nat)
    requires Is4In6(m)
    ensures m == 0xffff_0000_0000 + Low32(m)
  {
    hide Shl;
    PrefixIsRange(m, m, 32);
    Shl32();
    ShlTimes(0xffff, 32);
    var low := m - 0xffff_0000_0000;
    assert m == 0xffff * 0x1_0000_0000 + low && 0 <= low < 0x1_0000_0000;
  }

  /** An aligned block of 2^k addresses that starts in the mapped space ends in it. */
  lemma AlignedFits(n: nat, k: nat, start: nat)
    requires k <= 32 && Shl(Shr(n, k), k) == 0xffff_0000_0000 + start && start < 0x1_0000_0000
    ensures start + Shl(1, k) <= 0x1_0000_0000
  {
    hide Shl, Shr;
    var c, j := Shl(1, k), 32 - k;
    ShlTimes(Shr(n, k), k);
    Shl32();
    ShlShl(1, j, k);
    ShlTimes(Shl(1, j), k);
    var top, x := Shl(1, j), Shr(n, k);
    assert x * c == 0xffff_0000_0000 + start && top * c == 0x1_0000_0000;
    NextBlock(x, top, c, start);
  }

  lemma NextBlock(x: nat, top: nat, c: nat, start: nat)
    requires top * c == 0x1_0000_0000 && x * c == 0xffff_0000_0000 + start && start < 0x1_0000_0000
    ensures start + c <= 0x1_0000_0000
  {
    var end := 0x1_0000 * top;
    assert end * c == 0x1_0000 * (top * c);
    if x >= end { MulLess(end, x, c); }
    MulStep(x, end, c);
  }

  lemma MulLess(a: nat, b: nat, c: nat)
    requires a <= b
    ensures a * c <= b * c
  {
    assert b * c == a * c + (b - a) * c;
  }

  lemma SmallLow32(x: nat)
    requires x < 0x1_0000_0000
    ensures Low32(x) == x
  {
  }

  /** The 32-bit pool size: zero from 32 host bits on, too small below two, the real size otherwise. */
  lemma PoolSize(k: nat)
    ensures Low32(Shl(1, k)) >= 4 <==> 2 <= k <= 31
    ensures 2 <= k <= 31 ==> Low32(Shl(1, k)) == Shl(1, k)
  {
    hide Shl, Low32;
    Shl32();
    SmallShifts();
    if k >= 32 {
      ShlShl(1, k - 32, 32);
      ShlTimes(Shl(1, k - 32), 32);
      ManyWholes(Shl(1, k - 32));
    } else {
      ShlGrows(k, 31);
      HalfOf32();
      SmallLow32(Shl(1, k));
      if k <= 1 { ShlGrows(k, 1); } else { FourHosts(k); }
    }
  }

  lemma ManyWholes(x: nat)
    ensures Low32(x * 0x1_0000_0000) == 0
  {
  }

  lemma SmallShifts()
    ensures Shl(1, 1) == 2 && Shl(1, 0) == 1
  {
    assert Shl(1, 1) == Shl(2, 0);
  }

  lemma HalfOf32()
    ensures Shl(1, 32) == 2 * Shl(1, 31)
  {
    ShlOut(1, 31);
  }

  lemma Shl128()
    ensures Shl(1, 128) == MAX128 + 1
  {
    hide Shl;
    Shl32();
    ShlShl(1, 32, 32);
    ShlTimes(0x1_0000_0000, 32);
    ShlShl(1, 64, 64);
    ShlTimes(0x1_0000_0000_0000_0000, 64);
  }

  /** A masked network and all its hosts lie below 2^width. */
  lemma MaskedFits(p: Prefix)
    requires p.Valid()
    ensures p.Masked().addr.n + Shl(1, p.addr.Width() - p.bits) <= Shl(1, p.addr.Width())
  {
    hide Shl, Shr;
    var k := p.addr.Width() - p.bits;
    TopFits(Shr(p.addr.n, k), p.bits) by { ShrShr(p.addr.n, k, p.bits); }
    ShlTimes(Shr(p.addr.n, k), k);
    ShlTimes(Shl(1, p.bits), k);
    ShlShl(1, p.bits, k);
    ShlTimes(1, k);
    MulStep(Shr(p.addr.n, k), Shl(1, p.bits), Shl(1, k));
  }

  lemma MulStep(a: nat, b: nat, c: nat)
    requires a + 1 <= b
    ensures a * c + c <= b * c
  {
    assert b * c == a * c + c + (b - a - 1) * c;
  }

  lemma {:induction false} TopFits(n: nat, b: nat)
    requires Shr(n, b) == 0
    ensures n + 1 <= Shl(1, b)
    decreases b
  {
    if b > 0 {
      TopFits(n / 2, b - 1);
      ShlOut(1, b - 1);
    }
  }

  lemma {:induction false} ShlTimes(n: nat, k: nat)
    ensures Shl(n, k) == n * Shl(1, k)
    decreases k
  {
    if k > 0 {
      ShlTimes(n, k - 1);
      ShlTwice(n, k - 1);
      ShlTwice(1, k - 1);
      TwiceProduct(n, Shl(1, k - 1));
    }
  }

  lemma ShlTwice(n: nat, k: nat)
    ensures Shl(n, k + 1) == 2 * Shl(n, k)
  {
    ShlOut(n, k);
  }

  lemma TwiceProduct(n: nat, x: nat)
    ensures 2 * (n * x) == n * (2 * x)
  {
  }

  lemma {:induction false} ShlShl(n: nat, a: nat, b: nat)
    ensures Shl(Shl(n, a), b) == Shl(n, a + b)
    decreases a
  {
    if a > 0 { ShlShl(2 * n, a - 1, b); }
  }

  class AddrPool4 {
    const range: Pool4
    var used: set<nat>

    constructor (range: Pool4)
      ensures this.range == range && used == {}
    {
      this.range := range;
      used := {};
    }

    /** Allocate: the uint32 scan, equal to the full scan because its counter never wraps. */
    method Allocate() returns (a: Option<nat>)
      requires range.last < 0xffff_ffff
      modifies this
      ensures (used, a) == RefAllocate(old(used), range.base, range.last)
    {
      var cand: u32 := range.base;
      while cand <= range.last
        invariant used == old(used)
        invariant FirstFree(used, range.base, range.last) == FirstFree(used, cand, range.last)
        decreases range.last + 1 - cand
      {
        if cand !in used {
          used := used + {cand};
          return Some(cand);
        }
        cand := Low32(cand + 1);
      }
      return None;
    }

    /** Release: a released host can be given out again, and no other is touched. */
    method Release(a: u32)
      modifies this
      ensures used == old(used) - {a}
      ensures range.base <= a <= range.last ==> CanGive(used, range.base, range.last, a)
    {
      FreeIsGiven(used - {a}, range.base, range.last, a);
      used := used - {a};
    }
  }
}
