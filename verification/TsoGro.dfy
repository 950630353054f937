/**
 The two offloads are inverses (dataplane/offload_linux.go, dataplane/gro_linux.go): the segments TSO cuts a
 frame into, received in order, are coalesced back into that frame.
 */
module TsoGro {
  import opened Bytes
  import opened Checksum
  import opened Offload
  import opened Gro
  import opened GroBatch
  import opened GroExact
  import opened GroStore

  /** An ordinary TCP data frame, by its octets: no options, not a fragment, DF set, ACK set and SYN, RST and URG clear. */
  predicate DataFrame(f: Packet)
  {
    && 40 < |f| <= 65535 && f[0] == 0x45 && f[6] == 0x40 && f[7] == 0 && f[9] == 6 && f[32] / 16 == 5
    && f[33] / 16 % 2 == 1 && f[33] / 2 % 2 == 0 && f[33] / 4 % 2 == 0 && f[33] / 32 % 2 == 0
  }

  /** Header octets the cut and the flush rewrite; the flags aside, every other one comes through. */
  predicate Rewrites(k: nat) { k == 2 || k == 3 || k == 10 || k == 11 || k == 36 || k == 37 }

  /** Flags of a segment: the frame's own on the last one, without FIN and PSH before. */
  function SegFlags(f: Packet, last: bool): (b: byte)
    requires |f| >= 40
  {
    if last then f[33] else ClearFinPsh(f[33])
  }

  // ---------- flags ----------

  /** A flags octet by its parts: everything from ACK up, PSH, RST and SYN, FIN. */
  function Join(high: nat, psh: nat, mid: nat, fin: nat): (x: byte)
    requires high < 16 && psh < 2 && mid < 4 && fin < 2
  {
    16 * high + 8 * psh + 2 * mid + fin
  }

  lemma JoinParts(high: nat, psh: nat, mid: nat, fin: nat)
    requires high < 16 && psh < 2 && mid < 4 && fin < 2
    ensures var x := Join(high, psh, mid, fin);
      && x / 16 == high && x / 8 % 2 == psh && x / 2 % 4 == mid && x % 2 == fin
      && ClearFinPsh(x) == Join(high, 0, mid, 0)
  {
    var x := Join(high, psh, mid, fin);
    assert x / 8 == 2 * high + psh && x / 2 == 8 * high + 4 * psh + mid;
  }

  lemma JoinLow(high: nat, psh: nat, mid: nat, fin: nat)
    requires high < 16 && psh < 2 && mid < 4 && fin < 2
    ensures Join(high, psh, mid, fin) % 64 == Join(high % 4, psh, mid, fin)
  {
    assert high == 4 * (high / 4) + high % 4;
  }

  lemma Unjoin(x: byte) returns (high: nat, psh: nat, mid: nat, fin: nat)
    ensures high < 16 && psh < 2 && mid < 4 && fin < 2 && x == Join(high, psh, mid, fin)
  {
    high, psh, mid, fin := x / 16, x / 8 % 2, x / 2 % 4, x % 2;
    assert x / 8 == 2 * high + psh && x / 2 == 4 * (x / 8) + mid;
  }

  /** Clearing twice, folding back in, and comparing below the two unused bits. */
  lemma FlagFacts(x: byte)
    ensures var c := ClearFinPsh(x);
      && OrFinPsh(c, x) == x && OrFinPsh(c, c) == c && !Fin(c) && !Psh(c)
      && ClearFinPsh(x % 64) == ClearFinPsh(c % 64)
      && c / 16 == x / 16 && c / 2 % 4 == x / 2 % 4
  {
    hide ClearFinPsh;
    var high, psh, mid, fin := Unjoin(x);
    JoinParts(high, psh, mid, fin);
    JoinParts(high, 0, mid, 0);
    JoinLow(high, psh, mid, fin);
    JoinLow(high, 0, mid, 0);
    JoinParts(high % 4, psh, mid, fin);
    JoinParts(high % 4, 0, mid, 0);
  }

  lemma AckSurvives(f: Packet, last: bool)
    requires DataFrame(f)
    ensures AckData(SegFlags(f, last)) && (!last ==> !Fin(SegFlags(f, last)) && !Psh(SegFlags(f, last)))
  {
    hide ClearFinPsh;
    FlagFacts(f[33]);
    Quarters(f[33]);
    Halves(f[33]);
    Halves(ClearFinPsh(f[33]));
  }

  lemma Quarters(x: byte)
    ensures x / 2 % 4 == 0 <==> x / 2 % 2 == 0 && x / 4 % 2 == 0
  {
    var q := x / 2;
    assert x / 4 == q / 2;
  }

  lemma Halves(x: byte)
    ensures x / 32 == x / 16 / 2
  {
  }

  // ---------- one segment ----------

  /** p is a segment of f: number i, carrying c octets of payload from off on. */
  predicate SegmentAt(p: Packet, f: Packet, i: nat, off: nat, c: nat, last: bool)
    requires |f| >= 40
  {
    && 0 < c && 40 + off + c <= |f| && |p| == 40 + c && p[40..] == f[40 + off..40 + off + c]
    && Be16(p, 4) == Low16(Be16(f, 4) + i) && Be32(p, 24) == Low32(Be32(f, 24) + off)
    && p[33] == SegFlags(f, last)
    && Be16(p, 2) == |p| && TcpChecksumOK(p, 20)
    && forall k :: 0 <= k < 40 && !FixedUp(k, 20) ==> p[k] == f[k]
  }

  lemma CutIsSegment(f: Packet, gso: nat, i: nat)
    requires DataFrame(f) && gso > 0 && i < SegmentCount(|f| - 40, gso)
    ensures SegmentAt(Segment(f, 20, 20, gso, i), f, i, Offset(i, gso), Min(gso, |f| - 40 - Offset(i, gso)), i + 1 == SegmentCount(|f| - 40, gso))
  {
    hide Segment, SegmentCount, Offset, IpChecksumOK, TcpChecksumOK, ClearFinPsh, Be16, Be32, Low32, FixedUp;
    SegmentFields(f, 20, 20, gso, i);
    var s := Segment(f, 20, 20, gso, i);
    assert |s[40..]| == |s| - 40;
  }

  lemma SegmentEligible(p: Packet, f: Packet, i: nat, off: nat, c: nat, last: bool)
    requires DataFrame(f) && SegmentAt(p, f, i, off, c, last)
    ensures Eligible(p)
  {
    hide TcpChecksumOK, AckData, ClearFinPsh, Be32, Low16, Low32;
    AckSurvives(f, last);
    assert p[6] == f[6] && p[7] == f[7] && p[0] == f[0] && p[9] == f[9] && p[32] == f[32];
  }

  // ---------- the growing group ----------

  /** g holds the first len payload octets of f, in m segments, under f's header. */
  predicate Covers(g: Group, f: Packet, m: nat, len: nat, whole: bool)
    requires |f| >= 40
  {
    && 0 < len && 40 + len <= |f| && g.segs == m && g.length == |g.buf| == 40 + len
    && g.buf[40..] == f[40..40 + len]
    && g.nextSeq == Low32(Be32(f, 24) + len) && g.nextID == Low16(Be16(f, 4) + m)
    && g.buf[33] == SegFlags(f, whole) && (!whole ==> !g.closed)
    && forall k :: 0 <= k < 40 && !Rewrites(k) && k != 33 ==> g.buf[k] == f[k]
  }

  lemma CoversShape(g: Group, f: Packet, m: nat, len: nat)
    requires |f| >= 40 && Covers(g, f, m, len, false)
    ensures 40 <= g.length == |g.buf|
  {
  }

  lemma FirstCovers(p: Packet, f: Packet, c: nat, last: bool)
    requires DataFrame(f) && SegmentAt(p, f, 0, 0, c, last)
    ensures Covers(Start(p), f, 1, c, last) && Start(p).gsoSize == c
  {
    hide TcpChecksumOK, ClearFinPsh, Low16, Low32, Be32, Be16, Fin, Psh, AckData;
    AckSurvives(f, last);
    ZeroOffset(p, f);
    assert p[..40] + p[40..] == p;
  }

  lemma ZeroOffset(p: Packet, f: Packet)
    requires |p| >= 40 && |f| >= 40 && Be16(p, 4) == Low16(Be16(f, 4) + 0) && Be32(p, 24) == Low32(Be32(f, 24) + 0)
    ensures Be16(p, 4) == Be16(f, 4) && Be32(p, 24) == Be32(f, 24)
    ensures forall k :: 4 <= k < 6 || 24 <= k < 28 ==> p[k] == f[k]
  {
    hide Be16, Be32;
    Low32Id(Be32(f, 24));
    assert Low16(Be16(f, 4)) == Be16(f, 4);
    Be16Injective(p, f, 4, 4);
    Be32Injective(p, f, 24, 24);
    forall k | 24 <= k < 28 ensures p[k] == f[k] { assert p[k] == p[24..28][k - 24] && f[k] == f[24..28][k - 24]; }
  }

  /** The next segment merges, and the group then covers that much more. */
  lemma NextCovers(g: Group, f: Packet, m: nat, len: nat, p: Packet, c: nat, last: bool)
    requires DataFrame(f) && Covers(g, f, m, len, false) && SegmentAt(p, f, m, len, c, last)
    requires c <= g.gsoSize && (!last ==> c == g.gsoSize)
    ensures Eligible(p) && GroupKey(g) == p[12..24] && CanAppend(g, p)
    ensures Covers(Append(g, p), f, m + 1, len + c, last) && Append(g, p).gsoSize == g.gsoSize
  {
    SegmentEligible(p, f, m, len, c, last);
    NextMerges(g, f, m, len, p, c, last);
    NextGrows(g, f, m, len, p, c, last);
  }

  lemma NextMerges(g: Group, f: Packet, m: nat, len: nat, p: Packet, c: nat, last: bool)
    requires DataFrame(f) && Covers(g, f, m, len, false) && SegmentAt(p, f, m, len, c, last) && c <= g.gsoSize
    ensures GroupKey(g) == p[12..24] && CanAppend(g, p)
  {
    hide TcpChecksumOK, ClearFinPsh, Low16, Low32, Be32, Be16;
    FlagFacts(f[33]);
    assert forall k :: 0 <= k < 40 && !FixedUp(k, 20) && !Rewrites(k) && k != 33 ==> p[k] == g.buf[k];
    assert p[12..24] == g.buf[12..24] && p[28..32] == g.buf[28..32];
    assert p[34..36] == g.buf[34..36] && p[38..40] == g.buf[38..40];
    assert p[32] == f[32] && g.buf[32] == f[32];
  }

  lemma NextGrows(g: Group, f: Packet, m: nat, len: nat, p: Packet, c: nat, last: bool)
    requires DataFrame(f) && Covers(g, f, m, len, false) && SegmentAt(p, f, m, len, c, last) && (!last ==> c == g.gsoSize)
    ensures Covers(Append(g, p), f, m + 1, len + c, last) && Append(g, p).gsoSize == g.gsoSize
  {
    hide TcpChecksumOK, ClearFinPsh, OrFinPsh, Fin, Psh, Low16, Low32, Be32, Be16, AckData;
    FlagFacts(f[33]);
    AckSurvives(f, last);
    Low16Step(Be16(f, 4), m);
    Low32Step(Be32(f, 24), len, c);
    var r := Append(g, p);
    assert r.buf[40..] == g.buf[40..] + p[40..];
    assert f[40..40 + len] + f[40 + len..40 + len + c] == f[40..40 + len + c];
  }

  // ---------- the whole cut ----------

  /** Payload octets in the first m segments. */
  function Reach(f: Packet, gso: nat, m: nat): (n: int)
    requires |f| >= 40
  {
    Min(Offset(m, gso), |f| - 40)
  }

  /** The first m segments build one group that covers their share of the frame. */
  lemma {:induction false} CutBuilds(f: Packet, gso: nat, m: nat) returns (g: Group)
    requires DataFrame(f) && gso > 0 && 0 < m <= SegmentCount(|f| - 40, gso)
    ensures Build(Cut(f, 20, 20, gso)[..m]) == Some(g) && Reach(f, gso, m) > 0
    ensures Covers(g, f, m, Reach(f, gso, m), m == SegmentCount(|f| - 40, gso)) && g.gsoSize == Min(gso, |f| - 40)
    decreases m
  {
    hide Segment, SegmentCount, Offset, SegmentAt, Covers, Eligible, CanAppend, Append, Start, GroupKey, Reach;
    var segs, n := Cut(f, 20, 20, gso), SegmentCount(|f| - 40, gso);
    var p := segs[m - 1];
    if m == 1 {
      CutFirst(f, gso);
      assert segs[..1] == [p];
      BuildOfOne(p);
      g := Start(p);
    } else {
      var before := CutBuilds(f, gso, m - 1);
      CutNext(f, gso, m, before);
      assert segs[..m] == segs[..m - 1] + [p];
      BuildOneMore(segs[..m - 1], p);
      g := Append(before, p);
    }
  }

  lemma CutFirst(f: Packet, gso: nat)
    requires DataFrame(f) && gso > 0 && 0 < SegmentCount(|f| - 40, gso)
    ensures var p := Segment(f, 20, 20, gso, 0);
      && |p| >= 40 && Eligible(p) && Reach(f, gso, 1) > 0 && Start(p).gsoSize == Min(gso, |f| - 40)
      && Covers(Start(p), f, 1, Reach(f, gso, 1), 1 == SegmentCount(|f| - 40, gso))
  {
    hide Segment, SegmentCount, Offset, SegmentAt, Covers, Eligible, Start;
    var n, c := SegmentCount(|f| - 40, gso), Min(gso, |f| - 40);
    CutIsSegment(f, gso, 0);
    SegmentOffsets(|f| - 40, gso, 0);
    OffsetZero(gso);
    OffsetStep(0, gso);
    SegmentEligible(Segment(f, 20, 20, gso, 0), f, 0, 0, c, 1 == n);
    FirstCovers(Segment(f, 20, 20, gso, 0), f, c, 1 == n);
  }

  lemma CutNext(f: Packet, gso: nat, m: nat, g: Group)
    requires DataFrame(f) && gso > 0 && 1 < m <= SegmentCount(|f| - 40, gso)
    requires Reach(f, gso, m - 1) > 0 && Covers(g, f, m - 1, Reach(f, gso, m - 1), false) && g.gsoSize == Min(gso, |f| - 40)
    ensures var p := Segment(f, 20, 20, gso, m - 1);
      && |p| >= 40 && |g.buf| >= 40 && 40 <= g.length <= |g.buf| && Eligible(p) && GroupKey(g) == p[12..24] && CanAppend(g, p)
      && Reach(f, gso, m) > 0 && Append(g, p).gsoSize == g.gsoSize
      && Covers(Append(g, p), f, m, Reach(f, gso, m), m == SegmentCount(|f| - 40, gso))
  {
    hide Segment, SegmentCount, Offset, SegmentAt, Covers, Eligible, CanAppend, Append, GroupKey;
    CoversShape(g, f, m - 1, Reach(f, gso, m - 1));
    var c := Min(gso, |f| - 40 - Offset(m - 1, gso));
    CutIsSegment(f, gso, m - 1);
    SegmentOffsets(|f| - 40, gso, m - 1);
    SegmentOffsets(|f| - 40, gso, m - 2);
    OffsetStep(m - 1, gso);
    OffsetMono(m - 1, gso);
    NextCovers(g, f, m - 1, Reach(f, gso, m - 1), Segment(f, 20, 20, gso, m - 1), c, m == SegmentCount(|f| - 40, gso));
  }

  lemma OffsetMono(m: nat, gso: nat)
    requires m >= 1
    ensures Offset(m, gso) >= gso
  {
    MulLe(1, m, gso);
  }

  lemma BuildOfOne(p: Packet)
    requires Eligible(p) && |p| >= 40
    ensures Build([p]) == Some(Start(p))
  {
  }

  lemma BuildOneMore(held: seq<Packet>, p: Packet)
    requires Build(held).Some? && Eligible(p) && |p| >= 40 && |Build(held).value.buf| >= 40
    requires GroupKey(Build(held).value) == p[12..24] && CanAppend(Build(held).value, p)
    ensures Build(held + [p]) == Some(Append(Build(held).value, p))
  {
    hide Eligible, CanAppend, Append, GroupKey;
    assert (held + [p])[..|held|] == held;
  }

  // ---------- the batch ----------

  /** A train received alone is one group, nothing written yet. */
  lemma {:induction false} TrainIsGroup(train: seq<Packet>)
    requires Build(train).Some?
    ensures Process(train) == Progress(State([Build(train).value], []), true)
    decreases |train|
  {
    hide Eligible, CanAppend, Append, Start, GroupKey;
    var n := |train| - 1;
    if n == 0 {
      assert train[..0] == [];
      assert train == [train[0]];
      FirstIsGroup(train[0]);
    } else {
      BuildLast(train);
      TrainIsGroup(train[..n]);
      NextInGroup(Build(train[..n]).value, train[n]);
    }
  }

  lemma FirstIsGroup(p: Packet)
    requires Eligible(p)
    ensures !OntoEmptied([], p) && Step(State([], []), p) == State([Start(p)], [])
  {
    hide Coalescible, TcpChecksumOK, Start;
    EligibleLength(p);
  }

  lemma NextInGroup(g: Group, p: Packet)
    requires g.segs > 0 && 40 <= g.length == |g.buf| && Mergeable(g, p)
    ensures Tidy([g]) && !OntoEmptied([g], p) && Step(State([g], []), p) == State([Append(g, p)], [])
  {
    hide Coalescible, TcpChecksumOK, CanAppend, Append;
    EligibleLength(p);
    assert Find([g], p[12..24], 0) == 0;
    assert [g][0 := Append(g, p)] == [Append(g, p)];
  }

  /** out is the frame f again: every octet but the length and the checksums, and those as the kernel wants them. */
  predicate SameFrame(out: Packet, f: Packet)
    requires |f| >= 40
  {
    && |out| == |f| && (forall k :: 0 <= k < |f| && !Rewrites(k) ==> out[k] == f[k])
    && Be16(out, 2) == |out| && IpChecksumOK(out, 20) && Be16(out, 36) == Fold(PseudoSum(out, 20))
  }

  lemma FlushIsFrame(g: Group, f: Packet, m: nat)
    requires DataFrame(f) && Covers(g, f, m, |f| - 40, true)
    ensures SameFrame(FlushFrame(g), f)
  {
    hide Covers, FlushFrame, IpChecksumOK, PseudoSum, Fold, Be16;
    CoversOctets(g, f, m);
    FlushTouches(g);
  }

  lemma CoversOctets(g: Group, f: Packet, m: nat)
    requires DataFrame(f) && Covers(g, f, m, |f| - 40, true)
    ensures g.length == |g.buf| == |f| && forall k :: 0 <= k < |f| && !Rewrites(k) ==> g.buf[k] == f[k]
  {
    hide ClearFinPsh, Be16, Be32, Low16, Low32;
    forall k | 40 <= k < |f| ensures g.buf[k] == f[k] {
      assert g.buf[k] == g.buf[40..][k - 40] == f[40..|f|][k - 40];
    }
  }

  lemma FlushTouches(g: Group)
    requires 40 <= g.length == |g.buf| < 0x1_0000
    ensures var out := FlushFrame(g);
      && |out| == |g.buf| && (forall k :: 0 <= k < |out| && !Rewrites(k) ==> out[k] == g.buf[k])
      && Be16(out, 2) == |out| && IpChecksumOK(out, 20) && Be16(out, 36) == Fold(PseudoSum(out, 20))
  {
    hide Fold, WordSum, IpChecksumOK;
    assert g.buf[..g.length] == g.buf;
    var put := Put16(g.buf, 2, Low16(g.length));
    var sum := WithIpChecksum(put, 20);
    IpChecksumVerifies(put, 20);
    var out := FlushFrame(g);
    assert out[12..20] == sum[12..20] && out[..20] == sum[..20];
    IpOKSame(out, sum);
  }

  lemma IpOKSame(a: Packet, b: Packet)
    requires |a| >= 20 && |b| >= 20 && a[..20] == b[..20]
    ensures IpChecksumOK(a, 20) == IpChecksumOK(b, 20)
  {
  }

  /**
   Whatever the table held before: the segments of a data frame, received in one batch, are written as one
   super-frame that is the frame again at the same segment size, or as they came when there is only one.
   */
  lemma TsoThenGro(slots: seq<Slot>, f: Packet, gso: nat) returns (out: Packet)
    requires SlotsOk(slots) && DataFrame(f) && gso > 0
    ensures var segs := Cut(f, 20, 20, gso);
      && (|segs| <= 256 ==> SegmentTSO4Spec(f, gso) == Segmented(segs))
      && Emitted(slots, segs) ==
         (if |segs| == 1 then [Plain(segs[0])] else [Gso(VirtioNetHdr(1, 1, 40, Low16(gso), 20, 16), out)])
      && (|segs| > 1 ==> gso < 65535 && SameFrame(out, f))
  {
    hide Segment, SegmentCount, Covers, FlushFrame, Emitted, Process, SameFrame, Build;
    var segs, n := Cut(f, 20, 20, gso), SegmentCount(|f| - 40, gso);
    SegmentCountPositive(|f| - 40, gso);
    SegmentOffsets(|f| - 40, gso, n - 1);
    OffsetStep(n - 1, gso);
    var g := CutBuilds(f, gso, n);
    assert segs[..n] == segs;
    TrainIsGroup(segs);
    OneGroupWrites(slots, segs, g);
    out := segs[0];
    if n > 1 {
      SegmentOffsets(|f| - 40, gso, 0);
      OffsetZero(gso);
      out := FlushFrame(g);
      FlushIsFrame(g, f, n);
    }
  }

  lemma OneGroupWrites(slots: seq<Slot>, train: seq<Packet>, g: Group)
    requires SlotsOk(slots) && Build(train) == Some(g) && Process(train) == Progress(State([g], []), true)
    ensures g.segs == |train| > 0
    ensures Emitted(slots, train) == if |train| == 1 then [Plain(train[0])] else [Gso(FlushHdr(g), FlushFrame(g))]
  {
    hide Emitted, Process, FlushFrame, FlushHdr, Build, FlushAll, FlushWrites;
    CleanEmits(slots, train);
    OneFlush(g);
    TrainWrites(g, train);
  }

  lemma TrainWrites(g: Group, train: seq<Packet>)
    requires Build(train) == Some(g)
    ensures Flushable(g) && FlushWrites(g) == if |train| == 1 then [Plain(train[0])] else [Gso(FlushHdr(g), FlushFrame(g))]
  {
    hide Build, FlushFrame, FlushHdr;
    if |train| == 1 {
      assert train == [train[0]];
      StartIsWhole(train[0]);
    }
  }
}
