/**
 The route table (dataplane/routes.go) on values: two uncompressed binary tries, and
 the abstract prefix map they must answer for by longest-prefix match
 (section 5.2.4.3 of RFC 1812).
 */
module Routes {
  import opened Bytes

  // ---------- shifts ----------

  /** n >> k. */
  function Shr(n: nat, k: nat): (r: nat)
  {
    if k == 0 then n else Shr(n / 2, k - 1)
  }

  /** n << k, unbounded. */
  function Shl(n: nat, k: nat): (r: nat)
    decreases k
  {
    if k == 0 then n else Shl(2 * n, k - 1)
  }

  /** The low k bits of n. */
  function LowBits(n: nat, k: nat): (r: nat)
  {
    if k == 0 then 0 else n % 2 + 2 * LowBits(n / 2, k - 1)
  }

  lemma {:induction false} ShrShr(n: nat, a: nat, b: nat)
    ensures Shr(Shr(n, a), b) == Shr(n, a + b)
    decreases a
  {
    if a > 0 { ShrShr(n / 2, a - 1, b); }
  }

  lemma {:induction false} ShrShl(n: nat, k: nat)
    ensures Shr(Shl(n, k), k) == n
    decreases k
  {
    if k > 0 {
      ShlOut(n, k - 1);
      ShrShl(n, k - 1);
    }
  }

  lemma {:induction false} ShlOut(n: nat, k: nat)
    ensures Shl(2 * n, k) == 2 * Shl(n, k)
    decreases k
  {
    if k > 0 { ShlOut(2 * n, k - 1); }
  }

  lemma ShrHalf(n: nat, k: nat)
    ensures Shr(n, k + 1) == Shr(n, k) / 2
  {
    ShrShr(n, k, 1);
    assert Shr(Shr(n, k), 1) == Shr(Shr(n, k) / 2, 0);
  }

  lemma {:induction false} LowBit(n: nat, m: nat, k: nat)
    requires k < m
    ensures Shr(LowBits(n, m), k) % 2 == Shr(n, k) % 2
    decreases m
  {
    if k > 0 {
      LowBit(n / 2, m - 1, k - 1);
      assert LowBits(n, m) / 2 == LowBits(n / 2, m - 1);
    }
  }

  // ---------- addresses and prefixes ----------

  datatype Addr = V4(n: nat) | V6(n: nat) {
    function Width(): (w: nat) { if V4? then 32 else 128 }

    /** The number fits the family's width. */
    predicate Valid() { Shr(n, Width()) == 0 }
  }

  /** The leading b bits of a, as a number. */
  function Top(a: Addr, b: nat): (r: nat)
    requires b <= a.Width()
  {
    Shr(a.n, a.Width() - b)
  }

  function Bit(a: Addr, i: nat): (r: bool)
    requires i < a.Width()
  {
    Top(a, i + 1) % 2 == 1
  }

  datatype Prefix = Prefix(addr: Addr, bits: nat) {
    predicate Valid() { addr.Valid() && bits <= addr.Width() }

    function Masked(): (p: Prefix)
      requires Valid()
    {
      Prefix(addr.(n := Shl(Top(addr, bits), addr.Width() - bits)), bits)
    }

    /** netip's Contains: same family, same leading bits. */
    predicate Contains(a: Addr)
      requires Valid()
    {
      a.V4? == addr.V4? && Top(a, bits) == Top(addr, bits)
    }
  }

  /** The trie path of a's leading b bits. */
  function Path(a: Addr, b: nat): (r: seq<bool>)
    requires b <= a.Width()
    ensures |r| == b
  {
    seq(b, i requires 0 <= i < b => Bit(a, i))
  }

  /** addrBits: the address in two machine words, IPv4 in the top half of the first. */
  datatype AddrBits = AddrBits(hi: nat, lo: nat)

  function BitsOf(a: Addr): (r: AddrBits)
  {
    if a.V4? then AddrBits(Shl(a.n, 32), 0) else AddrBits(Shr(a.n, 64), LowBits(a.n, 64))
  }

  function WordBit(b: AddrBits, i: nat): (r: bool)
    requires i < 128
  {
    if i < 64 then Shr(b.hi, 63 - i) % 2 == 1 else Shr(b.lo, 127 - i) % 2 == 1
  }

  /** Extracting a bit with a word shift is extracting it from the address. */
  lemma WordBitIsBit(a: Addr, i: nat)
    requires i < a.Width()
    ensures WordBit(BitsOf(a), i) == Bit(a, i)
  {
    hide Shr, Shl, LowBits;
    if a.V4? {
      ShrShr(Shl(a.n, 32), 32, 31 - i);
      ShrShl(a.n, 32);
    } else if i < 64 {
      ShrShr(a.n, 64, 63 - i);
    } else {
      LowBit(a.n, 64, 127 - i);
    }
  }

  lemma TopStep(a: Addr, b: nat)
    requires b < a.Width()
    ensures Top(a, b + 1) == 2 * Top(a, b) + (if Bit(a, b) then 1 else 0)
  {
    hide Shr;
    ShrHalf(a.n, a.Width() - b - 1);
  }

  /** Two addresses of one family share their leading bits exactly when they share the trie path. */
  lemma {:induction false} PathsIffTops(a: Addr, c: Addr, b: nat)
    requires a.Valid() && c.Valid() && a.V4? == c.V4? && b <= a.Width()
    ensures Path(a, b) == Path(c, b) <==> Top(a, b) == Top(c, b)
    decreases b
  {
    hide Shr, Bit;
    if b == 0 {
      assert Path(a, 0) == Path(c, 0);
    } else {
      PathsIffTops(a, c, b - 1);
      TopStep(a, b - 1);
      TopStep(c, b - 1);
      PathStep(a, b - 1);
      PathStep(c, b - 1);
      assert Path(a, b)[..b - 1] == Path(a, b - 1) && Path(c, b)[..b - 1] == Path(c, b - 1);
      assert Path(a, b)[b - 1] == Bit(a, b - 1) && Path(c, b)[b - 1] == Bit(c, b - 1);
    }
  }

  lemma PathStep(a: Addr, b: nat)
    requires b < a.Width()
    ensures Path(a, b + 1) == Path(a, b) + [Bit(a, b)]
  {
    hide Bit;
  }

  /** Masking keeps the leading bits, hence the trie path and the addresses contained. */
  lemma MaskedSame(p: Prefix)
    requires p.Valid()
    ensures p.Masked().Valid() && Top(p.Masked().addr, p.bits) == Top(p.addr, p.bits)
    ensures Path(p.Masked().addr, p.bits) == Path(p.addr, p.bits)
    ensures p.Masked().Masked() == p.Masked()
  {
    hide Shr, Shl, Path;
    var k, m := p.addr.Width() - p.bits, p.Masked();
    ShrShl(Top(p.addr, p.bits), k);
    ShrShr(m.addr.n, k, p.bits);
    ShrShr(p.addr.n, k, p.bits);
    PathsIffTops(m.addr, p.addr, p.bits);
  }

  // ---------- one trie ----------

  datatype Trie<V> = Nil | Node(zero: Trie<V>, one: Trie<V>, entry: Option<V>)

  function EntryOf<V>(t: Trie<V>): (r: Option<V>) { if t.Nil? then None else t.entry }

  function ChildOf<V>(t: Trie<V>, b: bool): (r: Trie<V>)
  {
    if t.Nil? then Nil else if b then t.one else t.zero
  }

  /** A copy of t with one child replaced. */
  function WithChild<V>(t: Trie<V>, bit: bool, c: Trie<V>): (r: Trie<V>)
  {
    if bit then Node(ChildOf(t, false), c, EntryOf(t)) else Node(c, ChildOf(t, true), EntryOf(t))
  }

  /** withEntry: a copy of t whose entry at path is v. */
  function WithEntry<V>(t: Trie<V>, path: seq<bool>, v: Option<V>): (r: Trie<V>)
    ensures r.Node?
  {
    if path == [] then Node(ChildOf(t, false), ChildOf(t, true), v)
    else
      WithChild(t, path[0], WithEntry(ChildOf(t, path[0]), path[1..], v))
  }

  /** The node walk of removal: the entry exactly at path. */
  function Get<V>(t: Trie<V>, path: seq<bool>): (r: Option<V>)
  {
    if t.Nil? then None else if path == [] then t.entry else Get(ChildOf(t, path[0]), path[1..])
  }

  /** The lookup walk: the last entry set along the path, `best` when none is. */
  function Walk<V>(t: Trie<V>, path: seq<bool>, best: Option<V>): (r: Option<V>)
  {
    if t.Nil? then best
    else
      var here := if t.entry.Some? then t.entry else best;
      if path == [] then here else Walk(ChildOf(t, path[0]), path[1..], here)
  }

  /** Setting one path changes that entry and no other. */
  lemma {:induction false} GetWithEntry<V>(t: Trie<V>, path: seq<bool>, v: Option<V>, q: seq<bool>)
    ensures Get(WithEntry(t, path, v), q) == if q == path then v else Get(t, q)
    decreases |path|
  {
    if path != [] {
      if q != [] && q[0] == path[0] {
        GetWithEntry(ChildOf(t, path[0]), path[1..], v, q[1..]);
        assert path == [path[0]] + path[1..] && q == [q[0]] + q[1..];
      }
    } else if q != [] {
      assert ChildOf(WithEntry(t, path, v), q[0]) == ChildOf(t, q[0]);
    }
  }

  /** r is the entry of the longest set prefix of path, and `best` when no prefix is set. */
  ghost predicate IsBest<V>(t: Trie<V>, path: seq<bool>, best: Option<V>, r: Option<V>)
  {
    || ((forall k :: 0 <= k <= |path| ==> Get(t, path[..k]).None?) && r == best)
    || (exists k :: 0 <= k <= |path| && Get(t, path[..k]).Some? && r == Get(t, path[..k])
                    && forall j :: k < j <= |path| ==> Get(t, path[..j]).None?)
  }

  lemma {:induction false} WalkIsBest<V>(t: Trie<V>, path: seq<bool>, best: Option<V>)
    ensures IsBest(t, path, best, Walk(t, path, best))
    decreases |path|
  {
    if t.Node? {
      var here := if t.entry.Some? then t.entry else best;
      assert path[..0] == [];
      if path != [] {
        var c, rest := ChildOf(t, path[0]), path[1..];
        WalkIsBest(c, rest, here);
        forall k | 0 <= k <= |rest| ensures Get(t, path[..k + 1]) == Get(c, rest[..k]) {
          assert path[..k + 1][1..] == rest[..k];
        }
        ShiftBest(t, path, best, Walk(c, rest, here));
      }
    }
  }

  lemma ShiftBest<V>(t: Trie<V>, path: seq<bool>, best: Option<V>, r: Option<V>)
    requires t.Node? && path != []
    requires forall k :: 0 <= k <= |path[1..]| ==> Get(t, path[..k + 1]) == Get(ChildOf(t, path[0]), path[1..][..k])
    requires IsBest(ChildOf(t, path[0]), path[1..], if t.entry.Some? then t.entry else best, r)
    ensures IsBest(t, path, best, r)
  {
    var c, rest := ChildOf(t, path[0]), path[1..];
    assert path[..0] == [] && Get(t, path[..0]) == t.entry;
    if forall k :: 0 <= k <= |rest| ==> Get(c, rest[..k]).None? {
      forall j | 0 < j <= |path| ensures Get(t, path[..j]).None? {
        assert Get(t, path[..(j - 1) + 1]) == Get(c, rest[..j - 1]);
      }
    } else {
      var k :| 0 <= k <= |rest| && Get(c, rest[..k]).Some? && r == Get(c, rest[..k])
               && forall j :: k < j <= |rest| ==> Get(c, rest[..j]).None?;
      assert Get(t, path[..k + 1]) == r;
      forall j | k + 1 < j <= |path| ensures Get(t, path[..j]).None? {
        assert Get(t, path[..(j - 1) + 1]) == Get(c, rest[..j - 1]);
      }
    }
  }

  // ---------- the table ----------

  datatype RouteTable<V> = RouteTable(v4: Trie<V>, v6: Trie<V>)

  function Root<V>(t: RouteTable<V>, a: Addr): (r: Trie<V>) { if a.V4? then t.v4 else t.v6 }

  function WithRoot<V>(t: RouteTable<V>, a: Addr, n: Trie<V>): (r: RouteTable<V>)
  {
    if a.V4? then t.(v4 := n) else t.(v6 := n)
  }

  function Entry<V>(t: RouteTable<V>, p: Prefix): (r: Option<V>)
    requires p.Valid()
  {
    Get(Root(t, p.addr), Path(p.addr, p.bits))
  }

  function SetEntry<V>(t: RouteTable<V>, p: Prefix, v: Option<V>): (r: RouteTable<V>)
    requires p.Valid()
  {
    WithRoot(t, p.addr, WithEntry(Root(t, p.addr), Path(p.addr, p.bits), v))
  }

  function Insert<V>(t: RouteTable<V>, p: Prefix, v: V): (r: RouteTable<V>)
    requires p.Valid()
  {
    MaskedSame(p);
    SetEntry(t, p.Masked(), Some(v))
  }

  function Remove<V>(t: RouteTable<V>, p: Prefix): (r: RouteTable<V>)
    requires p.Valid()
  {
    MaskedSame(p);
    if Entry(t, p.Masked()).Some? then SetEntry(t, p.Masked(), None) else t
  }

  /** removeOwned: drop p's entry only while `owned` still recognises it. */
  function RemoveOwned<V>(t: RouteTable<V>, p: Prefix, owned: V -> bool): (r: RouteTable<V>)
    requires p.Valid()
  {
    MaskedSame(p);
    var e := Entry(t, p.Masked());
    if e.Some? && owned(e.value) then SetEntry(t, p.Masked(), None) else t
  }

  function Lookup<V>(t: RouteTable<V>, a: Addr): (r: Option<V>)
  {
    Walk(Root(t, a), Path(a, a.Width()), None)
  }

  /** One write reaches the entry of p's masked form and no other. */
  lemma EntryAfterSet<V>(t: RouteTable<V>, p: Prefix, v: Option<V>, q: Prefix)
    requires p.Valid() && q.Valid()
    ensures p.Masked().Valid()
    ensures Entry(SetEntry(t, p.Masked(), v), q) == if q.Masked() == p.Masked() then v else Entry(t, q)
  {
    hide Path, Shl, Shr;
    MaskedSame(p);
    MaskedSame(q);
    GetWithEntry(Root(t, p.addr), Path(p.addr, p.bits), v, Path(q.addr, q.bits));
    if p.addr.V4? == q.addr.V4? && p.bits == q.bits {
      PathsIffTops(p.addr, q.addr, p.bits);
      if p.Masked() == q.Masked() {
        assert Top(p.Masked().addr, p.bits) == Top(p.addr, p.bits);
      }
    }
  }

  // ---------- the abstract map ----------

  /** What the table stands for: a finite map from masked prefixes to entries. */
  ghost predicate Represents<V>(t: RouteTable<V>, m: map<Prefix, V>)
  {
    && (forall p :: p in m ==> p.Valid() && p.Masked() == p)
    && (forall p: Prefix :: p.Valid() ==> Entry(t, p) == if p.Masked() in m then Some(m[p.Masked()]) else None)
  }

  datatype Op<!V> = OpInsert(p: Prefix, v: V) | OpRemove(p: Prefix) | OpRemoveOwned(p: Prefix, owned: V -> bool)

  function Apply<V>(t: RouteTable<V>, op: Op<V>): (r: RouteTable<V>)
    requires op.p.Valid()
  {
    match op
    case OpInsert(p, v) => Insert(t, p, v)
    case OpRemove(p) => Remove(t, p)
    case OpRemoveOwned(p, owned) => RemoveOwned(t, p, owned)
  }

  function ApplyMap<V>(m: map<Prefix, V>, op: Op<V>): (r: map<Prefix, V>)
    requires op.p.Valid()
  {
    var k := op.p.Masked();
    match op
    case OpInsert(p, v) => m[k := v]
    case OpRemove(p) => m - {k}
    case OpRemoveOwned(p, owned) => if k in m && owned(m[k]) then m - {k} else m
  }

  lemma ApplyRepresents<V>(t: RouteTable<V>, m: map<Prefix, V>, op: Op<V>)
    requires op.p.Valid() && Represents(t, m)
    ensures Represents(Apply(t, op), ApplyMap(m, op))
  {
    hide Entry, SetEntry;
    MaskedSame(op.p);
    var t', m' := Apply(t, op), ApplyMap(m, op);
    forall q: Prefix | q.Valid()
      ensures Entry(t', q) == if q.Masked() in m' then Some(m'[q.Masked()]) else None
    {
      match op
      case OpInsert(p, v) => EntryAfterSet(t, p, Some(v), q);
      case OpRemove(p) => EntryAfterSet(t, p, None, q);
      case OpRemoveOwned(p, owned) => EntryAfterSet(t, p, None, q);
    }
  }

  function ApplyAll<V>(t: RouteTable<V>, ops: seq<Op<V>>): (r: RouteTable<V>)
    requires forall op :: op in ops ==> op.p.Valid()
  {
    if ops == [] then t else Apply(ApplyAll(t, ops[..|ops| - 1]), ops[|ops| - 1])
  }

  /** ApplyAll one operation further. */
  lemma ApplyOneMore<V>(t: RouteTable<V>, ops: seq<Op<V>>, i: nat)
    requires (forall op :: op in ops ==> op.p.Valid()) && i < |ops|
    ensures ApplyAll(t, ops[..i + 1]) == Apply(ApplyAll(t, ops[..i]), ops[i])
  {
    hide Apply;
    assert ops[..i + 1][..i] == ops[..i];
  }

  lemma NothingApplied<V>(t: RouteTable<V>, ops: seq<Op<V>>)
    requires forall op :: op in ops ==> op.p.Valid()
    ensures ApplyAll(t, ops[..0]) == t && ops[..|ops|] == ops
  {
  }

  function Run<V>(ops: seq<Op<V>>): (r: RouteTable<V>)
    requires forall op :: op in ops ==> op.p.Valid()
  {
    ApplyAll(RouteTable(Nil, Nil), ops)
  }

  function RunMap<V>(ops: seq<Op<V>>): (r: map<Prefix, V>)
    requires forall op :: op in ops ==> op.p.Valid()
  {
    if ops == [] then map[] else ApplyMap(RunMap(ops[..|ops| - 1]), ops[|ops| - 1])
  }

  lemma {:induction false} RunRepresents<V>(ops: seq<Op<V>>)
    requires forall op :: op in ops ==> op.p.Valid()
    ensures Represents(Run(ops), RunMap(ops))
    decreases |ops|
  {
    hide Apply, ApplyMap;
    if ops != [] {
      RunRepresents(ops[..|ops| - 1]);
      ApplyRepresents(Run(ops[..|ops| - 1]), RunMap(ops[..|ops| - 1]), ops[|ops| - 1]);
    }
  }

  /** Longest-prefix match over the map: the entry of a matching prefix no other match is longer than. */
  ghost predicate IsLongestMatch<V>(m: map<Prefix, V>, a: Addr, r: Option<V>)
    requires forall p :: p in m ==> p.Valid()
  {
    if r.None? then forall p :: p in m ==> !p.Contains(a)
    else exists p :: p in m && p.Contains(a) && m[p] == r.value
                     && forall q :: q in m && q.Contains(a) ==> q.bits <= p.bits
  }

  /** Two longest matches are the same prefix, so the predicate names one answer. */
  lemma LongestMatchUnique<V>(m: map<Prefix, V>, a: Addr, r: Option<V>, s: Option<V>)
    requires forall p :: p in m ==> p.Valid() && p.Masked() == p
    requires IsLongestMatch(m, a, r) && IsLongestMatch(m, a, s)
    ensures r == s
  {
    hide Shl, Shr;
    if r.Some? && s.Some? {
      var p :| p in m && p.Contains(a) && m[p] == r.value && forall q :: q in m && q.Contains(a) ==> q.bits <= p.bits;
      var q :| q in m && q.Contains(a) && m[q] == s.value && forall x :: x in m && x.Contains(a) ==> x.bits <= q.bits;
      assert p.Masked() == q.Masked();
    }
  }

  /** The prefix of a's leading k bits. */
  function PrefixAt(a: Addr, k: nat): (p: Prefix)
    requires a.Valid() && k <= a.Width()
  {
    Prefix(a, k).Masked()
  }

  lemma PrefixAtIs(a: Addr, k: nat)
    requires a.Valid() && k <= a.Width()
    ensures var p := PrefixAt(a, k);
      p.Valid() && p.bits == k && p.Contains(a) && p.Masked() == p
  {
    MaskedSame(Prefix(a, k));
  }

  lemma OnlyPrefixAt(a: Addr, p: Prefix)
    requires a.Valid() && p.Valid() && p.Masked() == p && p.Contains(a)
    ensures p == PrefixAt(a, p.bits)
  {
  }

  /** The entry found k bits along a's path is the map's value at that prefix. */
  lemma EntryAlongPath<V>(t: RouteTable<V>, m: map<Prefix, V>, a: Addr, k: nat)
    requires Represents(t, m) && a.Valid() && k <= a.Width()
    ensures var p := PrefixAt(a, k);
      Get(Root(t, a), Path(a, a.Width())[..k]) == if p in m then Some(m[p]) else None
  {
    hide Shl, Shr, Bit, Get;
    assert Path(a, a.Width())[..k] == Path(a, k);
    assert Entry(t, Prefix(a, k)) == Get(Root(t, a), Path(a, k));
  }

  /** After any sequence of inserts and removals, every lookup is longest-prefix match over the abstract map. */
  lemma LookupIsLongestMatch<V>(t: RouteTable<V>, m: map<Prefix, V>, a: Addr)
    requires Represents(t, m) && a.Valid()
    ensures IsLongestMatch(m, a, Lookup(t, a))
  {
    hide Shl, Shr, Bit, Get, Path, PrefixAt, Represents;
    MapIsValid(t, m);
    var path, r, root := Path(a, a.Width()), Lookup(t, a), Root(t, a);
    WalkIsBest(root, path, None);
    if r.None? {
      forall p | p in m && p.Contains(a) ensures false {
        OnlyPrefixAt(a, p);
        EntryAlongPath(t, m, a, p.bits);
      }
    } else {
      var k :| 0 <= k <= |path| && Get(root, path[..k]).Some? && r == Get(root, path[..k])
               && forall j :: k < j <= |path| ==> Get(root, path[..j]).None?;
      EntryAlongPath(t, m, a, k);
      PrefixAtIs(a, k);
      forall q | q in m && q.Contains(a) ensures q.bits <= k {
        OnlyPrefixAt(a, q);
        EntryAlongPath(t, m, a, q.bits);
      }
      assert PrefixAt(a, k) in m;
    }
  }

  lemma MapIsValid<V>(t: RouteTable<V>, m: map<Prefix, V>)
    requires Represents(t, m)
    ensures forall p :: p in m ==> p.Valid() && p.Masked() == p
  {
  }

  lemma RunLookup<V>(ops: seq<Op<V>>, a: Addr)
    requires a.Valid() && forall op :: op in ops ==> op.p.Valid()
    ensures (forall p :: p in RunMap(ops) ==> p.Valid()) && IsLongestMatch(RunMap(ops), a, Lookup(Run(ops), a))
  {
    hide Lookup, IsLongestMatch, Represents;
    RunRepresents(ops);
    MapIsValid(Run(ops), RunMap(ops));
    LookupIsLongestMatch(Run(ops), RunMap(ops), a);
  }
}
