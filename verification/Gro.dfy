/**
 Userspace GRO (dataplane/gro_linux.go) on values: one coalescing group, the merge
 rules, and what flushing a group puts on the TUN.
 */
module Gro {
  import opened Bytes
  import opened Checksum
  import opened Offload

  const GRO_MAX_LEN := 65535

  /** One coalescing group. An emptied group keeps its octets and its merge state; only segs and length drop to 0. */
  datatype Group = Group(buf: Packet, length: nat, segs: nat, gsoSize: nat,
                         nextSeq: u32, nextID: u16, closed: bool)

  /** One TUN write: an ordinary packet, or a super-frame under its virtio-net header. */
  datatype Write = Plain(pkt: Packet) | Gso(hdr: VirtioNetHdr, frame: Packet)

  /** ACK set; SYN, RST and URG clear; PSH and FIN free. */
  predicate AckData(f: byte) { f / 16 % 2 == 1 && f / 2 % 4 == 0 && f / 32 % 2 == 0 }

  predicate Coalescible(p: Packet)
  {
    && |p| >= 40 && p[0] == 0x45 && p[9] == PROTO_TCP
    && Be16(p, 2) == |p|
    && Be16(p, 6) == 0x4000
    && HeaderLen(p[32]) >= 20
    && AckData(p[33])
    && |p| > 20 + HeaderLen(p[32])
  }

  /** What add takes into the table; everything else is written through. */
  predicate Eligible(p: Packet) { Coalescible(p) && TcpChecksumOK(p, 20) }

  lemma EligibleLength(p: Packet)
    requires Eligible(p)
    ensures 40 < |p| <= GRO_MAX_LEN
  {
  }

  /** The 4-tuple of an options-free IPv4/TCP packet: src and dst address, src and dst port. */
  function FlowKey(p: Packet): (k: Option<Packet>)
  {
    if |p| < 24 || p[0] != 0x45 || p[9] != PROTO_TCP then None else Some(p[12..24])
  }

  /** Twenty-four octets are enough to have a flow: a truncated packet still belongs to its connection. */
  lemma FlowKeyIff(p: Packet, src: Packet, dst: Packet, ports: Packet)
    requires |src| == |dst| == |ports| == 4
    ensures FlowKey(p) == Some(src + dst + ports) <==>
      |p| >= 24 && p[0] == 0x45 && p[9] == 6 && p[12..16] == src && p[16..20] == dst && p[20..24] == ports
  {
    if |p| >= 24 {
      var k, s := src + dst + ports, p[12..24];
      assert s == p[12..16] + p[16..20] + p[20..24];
      assert s[..4] == p[12..16] && s[4..8] == p[16..20] && s[8..] == p[20..24];
      assert k[..4] == src && k[4..8] == dst && k[8..] == ports;
    }
  }

  function GroupKey(g: Group): (k: Packet)
    requires |g.buf| >= 40
  {
    g.buf[12..24]
  }

  predicate CanAppend(g: Group, p: Packet)
    requires |g.buf| >= 40 && |p| >= 40
  {
    && !g.closed
    && p[32] / 16 == 5 && g.buf[32] / 16 == 5
    && |p| - 40 <= g.gsoSize && g.length + (|p| - 40) <= GRO_MAX_LEN
    && Be32(p, 24) == g.nextSeq
    && Be16(p, 4) == g.nextID
    && p[1] == g.buf[1] && p[8] == g.buf[8]
    && p[28..32] == g.buf[28..32] && p[34..36] == g.buf[34..36] && p[38..40] == g.buf[38..40]
    && ClearFinPsh(p[33] % 64) == ClearFinPsh(g.buf[33] % 64)
  }

  function Start(p: Packet): (g: Group)
    requires |p| >= 40
  {
    Group(p, |p|, 1, |p| - 40, Low32(Be32(p, 24) + (|p| - 40)), Low16(Be16(p, 4) + 1),
          Fin(p[33]) || Psh(p[33]) || p[32] / 16 != 5)
  }

  /** append, onto a group that holds a header. */
  function Append(g: Group, p: Packet): (r: Group)
    requires 40 <= g.length <= |g.buf| && |p| >= 40
  {
    var buf := g.buf[..g.length] + p[40..];
    Group(buf[33 := OrFinPsh(buf[33], p[33])],
          g.length + (|p| - 40), g.segs + 1, g.gsoSize,
          Low32(g.nextSeq + (|p| - 40)), Low16(g.nextID + 1),
          g.closed || Fin(p[33]) || Psh(p[33]) || |p| - 40 < g.gsoSize)
  }

  /** The coalesced frame flush writes: lengths and IP checksum rebuilt, pseudo-header sum in the TCP field. */
  function FlushFrame(g: Group): (r: Packet)
    requires 40 <= g.length <= |g.buf|
    ensures |r| == g.length
  {
    var f := WithIpChecksum(Put16(g.buf[..g.length], 2, Low16(g.length)), 20);
    Put16(f, 36, Fold(PseudoSum(f, 20)))
  }

  function FlushHdr(g: Group): (h: VirtioNetHdr)
  {
    VirtioNetHdr(VNET_NEEDS_CSUM, VNET_GSO_TCPV4, 40, Low16(g.gsoSize), 20, 16)
  }

  /** An emptied group, or one that holds a header. */
  predicate Flushable(g: Group) { g.length <= |g.buf| && if g.segs == 0 then g.length == 0 else 40 <= g.length }

  function FlushWrites(g: Group): (w: seq<Write>)
    requires Flushable(g)
  {
    if g.segs == 0 then []
    else if g.segs == 1 then [Plain(g.buf[..g.length])]
    else [Gso(FlushHdr(g), FlushFrame(g))]
  }

  function Flushed(g: Group): (r: Group)
    requires Flushable(g)
  {
    if g.segs == 0 then g
    else if g.segs == 1 then g.(segs := 0, length := 0)
    else g.(segs := 0, length := 0, buf := FlushFrame(g) + g.buf[g.length..])
  }

  // ---------- trains: the segments a live group stands for ----------

  predicate Mergeable(g: Group, p: Packet)
    requires |g.buf| >= 40
  {
    Eligible(p) && GroupKey(g) == p[12..24] && CanAppend(g, p)
  }

  /** The group that starting with held[0] and appending the rest produces, when every merge rule allows it. */
  function Build(held: seq<Packet>): (r: Option<Group>)
    ensures r.Some? ==> held != [] && r.value.segs == |held| && 40 < r.value.length == |r.value.buf| <= GRO_MAX_LEN
  {
    if held == [] then None
    else if |held| == 1 then if Eligible(held[0]) then Some(Start(held[0])) else None
    else
      var n := |held| - 1;
      match Build(held[..n])
      case None => None
      case Some(g) => if Mergeable(g, held[n]) then Some(Append(g, held[n])) else None
  }

  /** The header octets every member of a train shares with the first. */
  predicate SharedHeader(p: Packet, h: Packet)
    requires |p| >= 40 && |h| >= 40
  {
    && p[..2] == h[..2] && p[6..10] == h[6..10] && p[12..24] == h[12..24]
    && p[28..32] == h[28..32] && p[34..36] == h[34..36] && p[38..40] == h[38..40]
  }

  /** A group built from n segments, h first and `last` last, with `full` payload octets before the last. */
  predicate GroupShape(h: Packet, last: Packet, n: nat, full: nat, g: Group)
    requires |h| >= 40 && |last| >= 40 && |g.buf| >= 40 && n > 0
  {
    && g.gsoSize == |h| - 40
    && |g.buf| == 40 + full + (|last| - 40)
    && g.nextID == Low16(Be16(h, 4) + n)
    && g.nextSeq == Low32(Be32(h, 24) + (|g.buf| - 40))
    && (forall k :: 0 <= k < 40 && k != 33 ==> g.buf[k] == h[k])
    && g.buf[33] == (if n == 1 then h[33] else OrFinPsh(h[33], last[33]))
    && (n == 1 ==> last == h && full == 0)
    && (n > 1 ==> h[32] / 16 == 5 && !Fin(h[33]) && !Psh(h[33]))
    && (!g.closed ==> |last| == |h| && !Fin(last[33]) && !Psh(last[33]))
  }

  /** Segment number i of a train, `off` payload octets in. */
  predicate MemberShape(h: Packet, p: Packet, off: nat, i: nat, isLast: bool)
    requires |h| >= 40 && |p| >= 40
  {
    && SharedHeader(p, h)
    && Be16(p, 4) == Low16(Be16(h, 4) + i)
    && Be32(p, 24) == Low32(Be32(h, 24) + off)
    && |p| <= |h|
    && (!isLast ==> |p| == |h| && !Fin(p[33]) && !Psh(p[33]))
  }

  lemma GroupShapeStep(h: Packet, last: Packet, n: nat, full: nat, g: Group, p: Packet)
    requires |h| >= 40 && |last| >= 40 && 40 <= g.length == |g.buf| && n > 0
    requires GroupShape(h, last, n, full, g) && |p| >= 40 && CanAppend(g, p)
    ensures GroupShape(h, p, n + 1, full + (|h| - 40), Append(g, p))
    ensures |last| == |h| && !Fin(last[33]) && !Psh(last[33])
  {
    hide Be16, Be32, Low16, Low32, Fin, Psh, OrFinPsh, ClearFinPsh;
    OrNoFlags(h[33], last[33]);
    Low16Step(Be16(h, 4), n);
    Low32Step(Be32(h, 24), |g.buf| - 40, |p| - 40);
    var r := Append(g, p);
    assert forall k :: 0 <= k < 40 && k != 33 ==> r.buf[k] == g.buf[k];
  }

  lemma OrNoFlags(f: byte, g: byte)
    requires !Fin(g) && !Psh(g)
    ensures OrFinPsh(f, g) == f
  {
  }

  lemma Low16Step(a: nat, n: nat)
    ensures Low16(Low16(a + n) + 1) == Low16(a + (n + 1))
  {
  }

  lemma Low32Step(a: nat, n: nat, d: nat)
    ensures Low32(Low32(a + n) + d) == Low32(a + (n + d))
  {
  }

  lemma BuildLast(held: seq<Packet>)
    requires Build(held).Some? && |held| > 1
    ensures var n := |held| - 1;
      Build(held[..n]).Some? && Mergeable(Build(held[..n]).value, held[n])
      && Build(held) == Some(Append(Build(held[..n]).value, held[n]))
  {
  }

  /** The built group has the shape of its train. */
  lemma {:induction false} BuildShape(held: seq<Packet>)
    requires Build(held).Some?
    ensures |held[0]| > 40 && |held[|held| - 1]| > 40 && Eligible(held[0])
    ensures GroupShape(held[0], held[|held| - 1], |held|, Offset(|held| - 1, |held[0]| - 40), Build(held).value)
    decreases |held|
  {
    hide GroupShape, Coalescible, TcpChecksumOK, CanAppend, Append, Offset;
    if |held| == 1 {
      StartShape(held[0]);
      EligibleLength(held[0]);
      OffsetZero(|held[0]| - 40);
    } else {
      var n, h := |held| - 1, held[0];
      BuildLast(held);
      EligibleLength(held[n]);
      BuildShape(held[..n]);
      GroupShapeStep(h, held[n - 1], n, Offset(n - 1, |h| - 40), Build(held[..n]).value, held[n]);
      OffsetStep(n - 1, |h| - 40);
    }
  }

  lemma StartShape(h: Packet)
    requires |h| >= 40
    ensures GroupShape(h, h, 1, 0, Start(h))
  {
  }

  /** Every member of a train sits where its number says, headers and payload alike. */
  lemma {:induction false} BuildMember(held: seq<Packet>, i: nat)
    requires Build(held).Some? && i < |held|
    ensures |held[0]| > 40 && |held[i]| > 40 && Eligible(held[i])
    ensures MemberShape(held[0], held[i], Offset(i, |held[0]| - 40), i, i + 1 == |held|)
    ensures PayloadAt(Build(held).value.buf, Offset(i, |held[0]| - 40), held[i])
    decreases |held|
  {
    hide GroupShape, MemberShape, Coalescible, TcpChecksumOK, CanAppend, Append, PayloadAt, Offset;
    BuildShape(held);
    var h, n := held[0], |held| - 1;
    if n == 0 {
      SelfMember(h);
      OffsetZero(|h| - 40);
    } else {
      BuildLast(held);
      EligibleLength(held[n]);
      var g := Build(held[..n]).value;
      BuildShape(held[..n]);
      if i < n {
        BuildMember(held[..n], i);
        AppendKeepsPayload(g, held[n], Offset(i, |h| - 40), held[i]);
        GroupShapeStep(h, held[n - 1], n, Offset(n - 1, |h| - 40), g, held[n]);
        MemberNoLongerLast(h, held[i], Offset(i, |h| - 40), i, i + 1 == n);
      } else {
        OffsetStep(n - 1, |h| - 40);
        NewMember(h, held[n - 1], n, Offset(n - 1, |h| - 40), g, held[n]);
      }
    }
  }

  /** p's payload occupies buf from payload offset off on. */
  predicate PayloadAt(buf: Packet, off: nat, p: Packet)
    requires |p| >= 40
  {
    40 + off + (|p| - 40) <= |buf| && buf[40 + off..40 + off + (|p| - 40)] == p[40..]
  }

  lemma PayloadFits(buf: Packet, off: nat, p: Packet)
    requires |p| >= 40 && PayloadAt(buf, off, p)
    ensures 40 + off + (|p| - 40) <= |buf|
  {
  }

  lemma SelfMember(h: Packet)
    requires Eligible(h)
    ensures MemberShape(h, h, 0, 0, true) && PayloadAt(h, 0, h)
  {
  }

  lemma AppendKeepsPayload(g: Group, p: Packet, off: nat, q: Packet)
    requires g.length == |g.buf| && |p| >= 40 && |q| >= 40 && PayloadAt(g.buf, off, q)
    ensures PayloadAt(Append(g, p).buf, off, q)
  {
    var r, a, b := Append(g, p).buf, 40 + off, 40 + off + (|q| - 40);
    assert r[a..b] == g.buf[a..b];
  }

  lemma MemberNoLongerLast(h: Packet, p: Packet, off: nat, i: nat, wasLast: bool)
    requires |h| >= 40 && |p| >= 40 && MemberShape(h, p, off, i, wasLast)
    requires wasLast ==> |p| == |h| && !Fin(p[33]) && !Psh(p[33])
    ensures MemberShape(h, p, off, i, false)
  {
  }

  lemma NewMember(h: Packet, last: Packet, n: nat, full: nat, g: Group, p: Packet)
    requires |h| >= 40 && |last| >= 40 && 40 <= g.length == |g.buf| && n > 0
    requires Eligible(h) && GroupShape(h, last, n, full, g) && Mergeable(g, p)
    ensures MemberShape(h, p, full + (|h| - 40), n, true)
    ensures PayloadAt(Append(g, p).buf, full + (|h| - 40), p)
  {
    hide Coalescible, TcpChecksumOK, Low16, Low32, Be16, Be32, Fin, Psh, OrFinPsh, ClearFinPsh, Append, PayloadAt, SharedHeader;
    EligibleHeader(h);
    EligibleHeader(p);
    AppendPutsPayload(g, p);
    MergedShares(g, h, p);
  }

  /** What a merge compares, and what being eligible fixes, is the shared header. */
  lemma MergedShares(g: Group, h: Packet, p: Packet)
    requires Eligible(h) && Eligible(p) && |h| >= 40 && |p| >= 40 && |g.buf| >= 40
    requires GroupKey(g) == p[12..24] && CanAppend(g, p) && forall k :: 0 <= k < 40 && k != 33 ==> g.buf[k] == h[k]
    ensures SharedHeader(p, h)
  {
    hide Coalescible, TcpChecksumOK, Low16, Low32, Be16, Be32, AckData, Fin, Psh, OrFinPsh, ClearFinPsh;
    EligibleHeader(h);
    EligibleHeader(p);
    assert g.buf[12..24] == h[12..24];
    assert g.buf[28..32] == h[28..32] && g.buf[34..36] == h[34..36] && g.buf[38..40] == h[38..40];
    assert p[..2] == [0x45, p[1]] && h[..2] == [0x45, h[1]];
    assert p[6..10] == [0x40, 0, p[8], PROTO_TCP] && h[6..10] == [0x40, 0, h[8], PROTO_TCP];
  }

  lemma EligibleHeader(p: Packet)
    requires Eligible(p)
    ensures |p| > 40 && p[0] == 0x45 && p[6] == 0x40 && p[7] == 0 && p[9] == PROTO_TCP && AckData(p[33])
    ensures p[2] == |p| / 0x100 && p[3] == |p| % 0x100
  {
  }

  lemma AppendPutsPayload(g: Group, p: Packet)
    requires 40 <= g.length == |g.buf| && |p| >= 40
    ensures PayloadAt(Append(g, p).buf, |g.buf| - 40, p)
  {
    assert Append(g, p).buf[|g.buf|..] == p[40..];
  }

  // ---------- GRO then TSO ----------

  /** p with the bits the merge rules never compare taken from h, and both checksums recomputed. */
  function Rewritten(p: Packet, h: Packet): (r: Packet)
    requires |p| >= 40 && |h| >= 40
    ensures |r| == |p|
    ensures forall k :: 0 <= k < |p| && k != 10 && k != 11 && k != 32 && k != 33 && k != 36 && k != 37 ==> r[k] == p[k]
  {
    WithChecksums(p[32 := h[32]][33 := p[33] % 64 + h[33] / 64 * 64], 20)
  }

  /** The number of segments a train's payload cuts into is the number it was built from. */
  lemma CountBack(n: nat, m: nat, last: nat)
    requires n > 0 && 0 < last <= m
    ensures SegmentCount(Offset(n - 1, m) + last, m) == n
  {
    var x := Offset(n - 1, m) + last + m - 1;
    assert x == n * m + (last - 1);
    DivUnique(x, m, n, last - 1);
  }

  lemma DivUnique(x: nat, m: nat, q: nat, r: nat)
    requires m > 0 && r < m && x == q * m + r
    ensures x / m == q
  {
    var q', r' := x / m, x % m;
    assert x == q' * m + r';
    assert (q - q') * m == r' - r;
    assert (q' - q) * m == r - r';
    if q > q' { MulLe(1, q - q', m); }
    if q < q' { MulLe(1, q' - q, m); }
  }

  /** A frame flush emits is a well-formed super-frame of as many segments as were merged. */
  lemma FlushLayout(held: seq<Packet>)
    requires Build(held).Some? && |held| > 1
    ensures var g := Build(held).value;
      && 0 < g.gsoSize < 0x1_0000
      && LayoutOf(FlushFrame(g), g.gsoSize) == Frame(20, 20)
      && SegmentCount(|FlushFrame(g)| - 40, g.gsoSize) == |held|
  {
    hide TcpChecksumOK, AckData, FlushFrame, MemberShape, PayloadAt, Offset, SegmentCount, Be16, Be32, Fin, Psh, OrFinPsh, Build;
    var g := Build(held).value;
    BuildShape(held);
    BuildMember(held, |held| - 1);
    MemberLength(held);
    EligibleHeader(held[0]);
    FlushHeader(g);
    CountBack(|held|, g.gsoSize, |held[|held| - 1]| - 40);
  }

  /** Octets of the flushed frame outside total length and checksums are the group's own. */
  lemma FlushHeader(g: Group)
    requires 40 <= g.length == |g.buf|
    ensures forall k :: 0 <= k < |g.buf| && k != 2 && k != 3 && k != 10 && k != 11 && k != 36 && k != 37 ==>
      FlushFrame(g)[k] == g.buf[k]
  {
  }

  lemma MemberLength(held: seq<Packet>)
    requires Build(held).Some?
    ensures 40 < |held[|held| - 1]| <= |held[0]|
  {
    BuildShape(held);
    BuildMember(held, |held| - 1);
  }

  /** The flags octet survives: FIN and PSH return to the segment that carried them, the top bits come from h. */
  lemma FlagsBack(h: byte, p: byte, lastFlags: byte)
    requires AckData(h) && AckData(p) && !Fin(h) && !Psh(h)
    ensures OrFinPsh(h, p) == p % 64 + h / 64 * 64
    ensures !Fin(p) && !Psh(p) ==> ClearFinPsh(OrFinPsh(h, lastFlags)) == p % 64 + h / 64 * 64
  {
    OrThenClear(h, lastFlags);
    AckDataLow(h);
    AckDataLow(p);
  }

  lemma AckDataLow(f: byte)
    requires AckData(f)
    ensures f % 64 == 16 + FlagBits(Fin(f), Psh(f))
  {
    var b0, b3 := f % 2, f / 8 % 2;
    LowBits(f);
    assert f == 64 * (f / 64) + (16 + 8 * b3 + b0);
  }

  lemma Halve(x: nat)
    ensures x == 2 * (x / 2) + x % 2
  {
  }

  /** The bits AckData fixes, read off one at a time. */
  lemma LowBits(f: byte)
    requires AckData(f)
    ensures f == 8 * (f / 8) + f % 2 && f / 8 == 2 * (f / 16) + f / 8 % 2 && f / 16 == 2 * (f / 32) + 1 && f / 32 == 2 * (f / 64)
  {
    Halve(f);
    assert f / 2 == 4 * (f / 8) + f / 2 % 4;
    Halve(f / 8);
    assert f / 8 / 2 == f / 16;
    Halve(f / 16);
    assert f / 16 / 2 == f / 32;
    Halve(f / 32);
    assert f / 32 / 2 == f / 64;
  }

  /** Equal octets outside the checksum fields, given field by field. */
  lemma JoinHeader(a: Packet, p: Packet, h: Packet)
    requires |a| == |p| >= 40 && |h| >= 40
    requires a[..2] == p[..2] && Be16(a, 2) == Be16(p, 2) && Be16(a, 4) == Be16(p, 4) && a[6..10] == p[6..10]
    requires a[12..24] == p[12..24] && Be32(a, 24) == Be32(p, 24) && a[28..32] == p[28..32]
    requires a[32] == h[32] && a[33] == p[33] % 64 + h[33] / 64 * 64
    requires a[34..36] == p[34..36] && a[38..40] == p[38..40] && a[40..] == p[40..]
    ensures WithChecksums(a, 20) == Rewritten(p, h)
  {
    hide WithChecksums, Be32;
    var q := p[32 := h[32]][33 := p[33] % 64 + h[33] / 64 * 64];
    Be16Injective(a, p, 2, 2);
    Be16Injective(a, p, 4, 4);
    Be32Injective(a, p, 24, 24);
    forall k | 0 <= k < |a| && k != 10 && k != 11 && k != 36 && k != 37 ensures a[k] == q[k] {
      if k < 2 { assert a[..2][k] == p[..2][k]; }
      else if k < 6 { }
      else if k < 10 { assert a[6..10][k - 6] == p[6..10][k - 6]; }
      else if k < 24 { assert a[12..24][k - 12] == p[12..24][k - 12]; }
      else if k < 28 { assert a[24..28][k - 24] == p[24..28][k - 24]; }
      else if k < 32 { assert a[28..32][k - 28] == p[28..32][k - 28]; }
      else if k < 34 { }
      else if k < 36 { assert a[34..36][k - 34] == p[34..36][k - 34]; }
      else if k < 40 { assert a[38..40][k - 38] == p[38..40][k - 38]; }
      else { assert a[40..][k - 40] == p[40..][k - 40]; }
    }
    ChecksumsIgnoreOldFields(a, q, 20);
  }

  /** Segment i of the flushed frame, before checksums, agrees with the segment that was merged. */
  lemma SegmentBack(h: Packet, last: Packet, n: nat, full: nat, g: Group, p: Packet, off: nat, i: nat, isLast: bool)
    requires Eligible(h) && Eligible(p) && |last| >= 40 && 40 <= g.length == |g.buf| && n > 1
    requires GroupShape(h, last, n, full, g) && MemberShape(h, p, off, i, isLast) && PayloadAt(g.buf, off, p)
    requires isLast ==> last == p
    ensures WithChecksums(RawSegment(FlushFrame(g), 20, 20, off, |p| - 40, i, isLast), 20) == Rewritten(p, h)
  {
    hide TcpChecksumOK, AckData, FlushFrame, WithChecksums, RawSegment, Low16, Low32, Fin, Psh, OrFinPsh, ClearFinPsh, Rewritten, Be16, Be32, Coalescible, SharedHeader, PayloadAt;
    PayloadFits(g.buf, off, p);
    var f := FlushFrame(g);
    FlushHeader(g);
    EligibleHeader(h);
    EligibleHeader(p);
    RawSegmentFields(f, 20, 20, off, |p| - 40, i, isLast);
    var a := RawSegment(f, 20, 20, off, |p| - 40, i, isLast);
    FlagsBack(h[33], p[33], last[33]);
    SegmentOctets(g, f, a, h, p, off, isLast);
    FieldsCopied(f, h);
    Low16Length(|p|);
    EligibleTotalLength(p);
    JoinHeader(a, p, h);
  }

  lemma FieldsCopied(f: Packet, h: Packet)
    requires |f| >= 40 && |h| >= 40 && f[4] == h[4] && f[5] == h[5]
    requires f[24] == h[24] && f[25] == h[25] && f[26] == h[26] && f[27] == h[27]
    ensures Be16(f, 4) == Be16(h, 4) && Be32(f, 24) == Be32(h, 24)
  {
  }

  lemma EligibleTotalLength(p: Packet)
    requires Eligible(p)
    ensures 40 < |p| < 0x1_0000 && Be16(p, 2) == |p|
  {
  }

  lemma Low16Length(n: nat)
    requires n < 0x1_0000
    ensures Low16(n) == n
  {
  }

  /** The copied header slices and the payload of one cut segment. */
  lemma SegmentOctets(g: Group, f: Packet, a: Packet, h: Packet, p: Packet, off: nat, isLast: bool)
    requires |h| >= 40 && |p| == |a| >= 40 && |f| == |g.buf| >= 40
    requires SharedHeader(p, h) && PayloadAt(g.buf, off, p)
    requires forall k :: 0 <= k < 40 && k != 33 ==> g.buf[k] == h[k]
    requires forall k :: 0 <= k < |f| && k != 2 && k != 3 && k != 10 && k != 11 && k != 36 && k != 37 ==> f[k] == g.buf[k]
    requires forall k :: 0 <= k < 40 && !FixedUp(k, 20) ==> a[k] == f[k]
    requires 40 + off + (|p| - 40) <= |f| && a[40..] == f[40 + off..40 + off + (|p| - 40)]
    ensures a[..2] == p[..2] && a[6..10] == p[6..10] && a[12..24] == p[12..24] && a[28..32] == p[28..32]
    ensures a[32] == h[32] && a[34..36] == p[34..36] && a[38..40] == p[38..40] && a[40..] == p[40..]
  {
    assert a[..2] == h[..2] && a[6..10] == h[6..10] && a[12..24] == h[12..24];
    assert a[28..32] == h[28..32] && a[34..36] == h[34..36] && a[38..40] == h[38..40];
    var x, y := 40 + off, 40 + off + (|p| - 40);
    assert f[x..y] == g.buf[x..y];
  }

  /**
   GRO then TSO, for every train of two or more segments: cutting the flushed frame at the
   advertised segment size gives back the merged segments one for one, each with both
   checksums recomputed and the never-compared bits taken from the first.
   */
  lemma GroThenCut(held: seq<Packet>, i: nat)
    requires Build(held).Some? && |held| > 1 && i < |held|
    ensures var g := Build(held).value;
      && |held[0]| >= 40 && |held[i]| >= 40
      && LayoutOf(FlushFrame(g), g.gsoSize) == Frame(20, 20)
      && |Cut(FlushFrame(g), 20, 20, g.gsoSize)| == |held|
      && Cut(FlushFrame(g), 20, 20, g.gsoSize)[i] == Rewritten(held[i], held[0])
  {
    hide GroupShape, MemberShape, Eligible, PayloadAt, FlushFrame, WithChecksums, RawSegment, Rewritten, Offset, SegmentCount, Build, LayoutOf;
    var g, h, n := Build(held).value, held[0], |held|;
    FlushLayout(held);
    BuildShape(held);
    BuildMember(held, i);
    BuildMember(held, n - 1);
    var f, m := FlushFrame(g), g.gsoSize;
    SegmentOffsets(|f| - 40, m, i);
    ChunkLength(held, i);
    SegmentBack(h, held[n - 1], n, Offset(n - 1, |h| - 40), g, held[i], Offset(i, |h| - 40), i, i + 1 == n);
    assert Cut(f, 20, 20, m)[i] == Segment(f, 20, 20, m, i);
  }

  lemma ChunkLength(held: seq<Packet>, i: nat)
    requires Build(held).Some? && |held| > 1 && i < |held|
    ensures var g := Build(held).value; var m := g.gsoSize;
      |held[0]| - 40 == m && |held[i]| - 40 == Min(m, |g.buf| - 40 - Offset(i, m))
  {
    hide Eligible, PayloadAt, FlushFrame, SegmentCount, Build, LayoutOf, Low16, Low32, Offset, Fin, Psh;
    var g, n := Build(held).value, |held|;
    BuildShape(held);
    BuildMember(held, i);
    FlushLayout(held);
    SegmentOffsets(|g.buf| - 40, g.gsoSize, i);
  }

  /** segmentTSO4 itself returns the segments, or refuses when there are more than 256 of them. */
  lemma GroThenTso(held: seq<Packet>)
    requires Build(held).Some? && |held| > 1
    ensures var g := Build(held).value; var r := SegmentTSO4Spec(FlushFrame(g), FlushHdr(g).gsoSize);
      if |held| > MAX_TSO_SEGMENTS then r == Rejected(OutOfBounds)
      else r.Segmented? && |r.segs| == |held|
           && forall i :: 0 <= i < |held| ==> |held[0]| >= 40 && |held[i]| >= 40 && r.segs[i] == Rewritten(held[i], held[0])
  {
    hide FlushFrame, Rewritten, SegmentCount, Build, LayoutOf, Segment;
    var g := Build(held).value;
    FlushLayout(held);
    Low16Length(g.gsoSize);
    forall i | 0 <= i < |held|
      ensures |held[0]| >= 40 && |held[i]| >= 40
      ensures Cut(FlushFrame(g), 20, 20, g.gsoSize)[i] == Rewritten(held[i], held[0])
    {
      GroThenCut(held, i);
    }
  }

  /** Identical up to the two encodings of a zero checksum. */
  predicate NearlySame(d: Packet, p: Packet)
  {
    && |d| == |p| >= 40
    && (forall k :: 0 <= k < |p| && k != 10 && k != 11 && k != 36 && k != 37 ==> d[k] == p[k])
    && SameChecksum(Be16(d, 10), Be16(p, 10)) && SameChecksum(Be16(d, 36), Be16(p, 36))
  }

  /** The merged segment's IP checksum verified, and it agreed with h on the bits no merge rule compares. */
  predicate RulesCoverAll(p: Packet, h: Packet)
    requires |p| >= 40 && |h| >= 40
  {
    IpChecksumOK(p, 20) && p[32] == h[32] && p[33] / 64 == h[33] / 64
  }

  /** Exactly when GRO then TSO is the identity on a segment. */
  lemma RoundTripExact(p: Packet, h: Packet)
    requires Eligible(p) && |h| >= 40
    ensures NearlySame(Rewritten(p, h), p) <==> RulesCoverAll(p, h)
  {
    hide WithChecksums, IpChecksumOK, TcpChecksumOK, SameChecksum, Coalescible;
    EligibleHeader(p);
    var q := p[32 := h[32]][33 := p[33] % 64 + h[33] / 64 * 64];
    if p[32] == h[32] && p[33] / 64 == h[33] / 64 {
      assert p[33] % 64 + h[33] / 64 * 64 == p[33];
      assert q == p;
      IpFieldExact(p);
      TcpFieldExact(p);
    } else {
      var d := Rewritten(p, h);
      assert d[32] == q[32] && d[33] == q[33];
      assert q[33] / 64 == h[33] / 64;
    }
  }

  lemma IpFieldExact(p: Packet)
    requires |p| >= 40 && p[0] == 0x45
    ensures SameChecksum(Be16(WithChecksums(p, 20), 10), Be16(p, 10)) <==> IpChecksumOK(p, 20)
  {
    hide Fold, WordSum, SameChecksum, TcpSum, Be16;
    var z := Put16(p, 10, 0);
    FieldInSlice(p, 0, 20, 10);
    FieldInSlice(z, 0, 20, 10);
    assert Put16(z[..20], 10, Be16(p, 10)) == p[..20] by { PutBack(p[..20], 10); assert z[..20] == Put16(p[..20], 10, 0); }
    WordSumPut(z[..20], 10, Be16(p, 10));
    PositiveSum(z[..20]);
    VerifyingFieldIsComplement(WordSum(z[..20]), Be16(p, 10));
    SameChecksumSymmetric(Be16(p, 10), 0xffff - Fold(WordSum(z[..20])));
    TcpLeavesIpField(WithIpChecksum(p, 20));
  }

  lemma TcpLeavesIpField(q: Packet)
    requires |q| >= 40
    ensures Be16(WithTcpChecksum(q, 20), 10) == Be16(q, 10)
  {
  }

  lemma PutBack(b: Packet, off: nat)
    requires off + 2 <= |b|
    ensures Put16(Put16(b, off, 0), off, Be16(b, off)) == b
  {
    var r := Put16(Put16(b, off, 0), off, Be16(b, off));
    Be16Injective(r, b, off, off);
  }

  lemma PositiveSum(b: Packet)
    requires |b| >= 2 && b[0] > 0
    ensures WordSum(b) > 0
  {
  }

  lemma SameChecksumSymmetric(x: u16, y: u16)
    ensures SameChecksum(x, y) == SameChecksum(y, x)
  {
  }

  lemma TcpFieldExact(p: Packet)
    requires |p| >= 40
    ensures SameChecksum(Be16(WithChecksums(p, 20), 36), Be16(p, 36)) <==> TcpChecksumOK(p, 20)
  {
    hide Fold, WordSum, SameChecksum, Be16, WithIpChecksum;
    var q := WithIpChecksum(p, 20);
    var z := Put16(q, 36, 0);
    var b := p[20..];
    assert q[20..] == b && q[12..20] == p[12..20];
    assert z[20..] == Put16(b, 16, 0) && z[12..20] == p[12..20];
    assert p[20..] == p[20..|p|] && z[20..] == z[20..|z|];
    FieldInSlice(p, 20, |p|, 16);
    FieldInSlice(z, 20, |z|, 16);
    PutBack(b, 16);
    WordSumPut(z[20..], 16, Be16(p, 36));
    assert TcpSum(p, 20) == TcpSum(z, 20) + Be16(p, 36);
    VerifyingFieldIsComplement(TcpSum(z, 20), Be16(p, 36));
    SameChecksumSymmetric(Be16(p, 36), 0xffff - Fold(TcpSum(z, 20)));
  }

  /** Every coalesced frame honours the partial-checksum contract at the offsets its header advertises. */
  lemma FlushCompletes(g: Group)
    requires 40 <= g.length <= |g.buf|
    ensures var h := FlushHdr(g);
      && h.flags == VNET_NEEDS_CSUM
      && TcpChecksumOK(Completed(FlushFrame(g), h.csumStart, h.csumOffset), 20)
      && IpChecksumOK(FlushFrame(g), 20) && Be16(FlushFrame(g), 2) == Low16(g.length)
  {
    hide Fold, WordSum, Low16;
    var f0 := Put16(g.buf[..g.length], 2, Low16(g.length));
    var f := WithIpChecksum(f0, 20);
    var r := FlushFrame(g);
    IpChecksumVerifies(f0, 20);
    assert r[..20] == f[..20];
    assert r[12..20] == f[12..20];
    CompletionVerifies(r);
  }
}
