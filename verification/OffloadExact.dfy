/**
 Which frames userspace TSO cuts and which it refuses, and when a completed checksum verifies,
 said of the octets alone (dataplane/offload_linux.go).
 */
module OffloadExact {
  import opened Bytes
  import opened Checksum
  import opened Offload

  // ---------- segmentTSO4 ----------

  /** s is segment i of n, by its octets: the frame's headers of ihl and thl octets over the payload from off on. */
  predicate IsSegment(s: Packet, pkt: Packet, ihl: nat, thl: nat, gso: nat, off: nat, i: nat, n: nat)
  {
    var h := ihl + thl;
    && 20 <= ihl && 20 <= thl && h + off < |pkt| && h < |s|
    && s[h..] == pkt[h + off..Min(h + off + gso, |pkt|)]
    && Be16(s, 2) == Low16(|s|)
    && Be16(s, 4) == Low16(Be16(pkt, 4) + i)
    && Be32(s, ihl + 4) == Low32(Be32(pkt, ihl + 4) + off)
    && s[ihl + 13] == (if i + 1 == n then pkt[ihl + 13] else ClearFinPsh(pkt[ihl + 13]))
    && IpChecksumOK(s, ihl) && TcpChecksumOK(s, ihl)
    && forall k :: 0 <= k < h && !FixedUp(k, ihl) ==> s[k] == pkt[k]
  }

  /** The frame starts with a whole IPv4 header followed by at least 20 octets. */
  predicate HoldsIPv4(pkt: Packet)
  {
    |pkt| >= 20 && pkt[0] / 16 == 4 && pkt[0] % 16 >= 5 && |pkt| >= pkt[0] % 16 * 4 + 20
  }

  /** A TCP header of any length follows, and at least one octet of payload after it. */
  predicate HoldsTcpPayload(pkt: Packet)
  {
    && HoldsIPv4(pkt) && pkt[9] == 6
    && var ihl := pkt[0] % 16 * 4; var thl := pkt[ihl + 12] / 16 * 4;
       20 <= thl && ihl + thl < |pkt|
  }

  /** Octets of payload behind both headers. */
  function PayloadLen(pkt: Packet): (n: nat)
    requires HoldsTcpPayload(pkt)
    ensures 0 < n < |pkt|
  {
    var ihl := pkt[0] % 16 * 4;
    |pkt| - ihl - pkt[ihl + 12] / 16 * 4
  }

  /**
   Exactly the IPv4/TCP frames with payload are cut, options of either header included, unless that
   takes more than 256 segments; each refused frame gets the error of the first test it fails.
   */
  lemma CutIff(pkt: Packet, gso: nat)
    ensures var r := SegmentTSO4Spec(pkt, gso);
      && (r.Segmented? <==> HoldsTcpPayload(pkt) && 0 < gso && PayloadLen(pkt) <= 256 * gso)
      && (r == Rejected(NotIPv4) <==> |pkt| < 20 || pkt[0] / 16 != 4)
      && (forall x :: r == Rejected(NotTcp(x)) <==> HoldsIPv4(pkt) && pkt[9] == x != 6)
  {
    hide Cut, SegmentCount;
    if HoldsTcpPayload(pkt) && 0 < gso { CountBound(PayloadLen(pkt), gso); }
  }

  lemma CountBound(payload: nat, gso: nat)
    requires payload > 0 && gso > 0
    ensures SegmentCount(payload, gso) <= 256 <==> payload <= 256 * gso
  {
    var n := SegmentCount(payload, gso);
    SegmentCountPositive(payload, gso);
    SegmentOffsets(payload, gso, n - 1);
    OffsetStep(n - 1, gso);
    if n <= 256 { MulLe(n, 256, gso); } else { MulLe(256, n - 1, gso); }
  }

  /** And what a cut frame becomes: as many segments as its payload fills, each with every field right. */
  lemma CutIntoSegments(pkt: Packet, gso: nat)
    requires SegmentTSO4Spec(pkt, gso).Segmented?
    ensures HoldsTcpPayload(pkt) && gso > 0
    ensures var segs := SegmentTSO4Spec(pkt, gso).segs;
      var ihl := pkt[0] % 16 * 4; var thl := pkt[ihl + 12] / 16 * 4;
      && (|segs| - 1) * gso < PayloadLen(pkt) <= |segs| * gso
      && (forall i :: 0 <= i < |segs| ==> IsSegment(segs[i], pkt, ihl, thl, gso, i * gso, i, |segs|))
  {
    hide SegmentCount, Segment, IsSegment;
    CutIff(pkt, gso);
    var ihl := pkt[0] % 16 * 4;
    var thl, segs := pkt[ihl + 12] / 16 * 4, SegmentTSO4Spec(pkt, gso).segs;
    var n := SegmentCount(PayloadLen(pkt), gso);
    SegmentCountPositive(PayloadLen(pkt), gso);
    SegmentOffsets(PayloadLen(pkt), gso, n - 1);
    OffsetStep(n - 1, gso);
    forall i | 0 <= i < n ensures IsSegment(segs[i], pkt, ihl, thl, gso, i * gso, i, n) { SegmentIs(pkt, ihl, thl, gso, i); }
  }

  lemma SegmentIs(pkt: Packet, ihl: nat, thl: nat, gso: nat, i: nat)
    requires SuperFrame(pkt, ihl, thl, gso) && i < SegmentCount(|pkt| - ihl - thl, gso)
    ensures IsSegment(Segment(pkt, ihl, thl, gso, i), pkt, ihl, thl, gso, Offset(i, gso), i, SegmentCount(|pkt| - ihl - thl, gso))
  {
    hide SegmentCount, Segment, IpChecksumOK, TcpChecksumOK, FixedUp, ClearFinPsh, Be16, Be32, Low16, Low32;
    SegmentFields(pkt, ihl, thl, gso, i);
  }

  // ---------- completePartialChecksum ----------

  /** The descriptor names two octets of the packet. */
  predicate FieldFits(p: Packet, start: nat, offset: nat) { start + offset + 2 <= |p| }

  /** What the kernel leaves for the device: the field holds the folded sum pre of a pseudo-header. */
  predicate Partial(p: Packet, start: nat, offset: nat, pre: nat)
  {
    FieldFits(p, start, offset) && Be16(p, start + offset) == Fold(pre)
  }

  /** What a receiver that sums the same pseudo-header and the packet from start on checks. */
  predicate Verifies(p: Packet, start: nat, pre: nat)
    requires start <= |p|
  {
    Fold(pre + WordSum(p[start..])) == 0xffff
  }

  /** Completion touches the named field only, and nothing when the field does not fit. */
  lemma CompletedTouches(p: Packet, start: nat, offset: nat)
    ensures var q := Completed(p, start, offset);
      && |q| == |p| && (!FieldFits(p, start, offset) ==> q == p)
      && forall i :: 0 <= i < |p| && i != start + offset && i != start + offset + 1 ==> q[i] == p[i]
  {
  }

  /** At any even offset a completed checksum verifies, under any pseudo-header: TCP, UDP or another, IPv4 or IPv6. */
  lemma CompletedVerifies(p: Packet, start: nat, offset: nat, pre: nat)
    requires Partial(p, start, offset, pre) && offset % 2 == 0
    ensures Verifies(Completed(p, start, offset), start, pre)
  {
    hide Fold, WordSum, Be16;
    var b := p[start..];
    var k := FoldQuotient(pre);
    var j := FoldQuotient(WordSum(b));
    var c := 0xffff - Fold(WordSum(b));
    FieldInSlice(p, start, |p|, offset);
    assert p[start..|p|] == b;
    WordSumPut(b, offset, c);
    assert Completed(p, start, offset)[start..] == Put16(b, offset, c);
    FoldUnique(65535, k + j);
  }

  /**
   q is p with its checksum completed: the same octets but for the named field, the same altogether when the
   field does not fit, and verifying under whatever pseudo-header the field was left partial with.
   */
  ghost predicate CompletedFrom(q: Packet, p: Packet, start: nat, offset: nat)
  {
    && |q| == |p| && (!FieldFits(p, start, offset) ==> q == p)
    && (forall i :: 0 <= i < |p| && i != start + offset && i != start + offset + 1 ==> q[i] == p[i])
    && (offset % 2 == 0 ==> forall pre: nat :: Partial(p, start, offset, pre) ==> start <= |q| && Verifies(q, start, pre))
  }

  lemma CompletedIs(p: Packet, start: nat, offset: nat)
    ensures CompletedFrom(Completed(p, start, offset), p, start, offset)
  {
    hide Completed, Verifies, Fold;
    CompletedTouches(p, start, offset);
    if offset % 2 == 0 {
      forall pre: nat | Partial(p, start, offset, pre) ensures Verifies(Completed(p, start, offset), start, pre) {
        CompletedVerifies(p, start, offset, pre);
      }
    }
  }

  /** At an odd offset the field straddles two words of the sum, and some packet comes out wrong. */
  lemma OddOffsetFails(start: nat, offset: nat) returns (p: Packet)
    requires offset % 2 == 1
    ensures Partial(p, start, offset, 1) && !Verifies(Completed(p, start, offset), start, 1)
  {
    var zeros: Packet := Zeros(start);
    p := zeros + Ends(1, offset - 1, 0, 1);
    var b := p[start..];
    assert b == Ends(1, offset - 1, 0, 1);
    EndsSum(1, offset - 1, 0, 1);
    var q := Completed(p, start, offset);
    assert Fold(512) == 512 && Fold(1) == 1;
    assert q[start..] == Ends(1, offset - 1, 0xfd, 0xff);
    EndsSum(1, offset - 1, 0xfd, 0xff);
    VerifiesIff(1 + WordSum(q[start..]));
  }

  function Zeros(n: nat): (r: Packet)
    ensures |r| == n
  {
    seq(n, _ => 0)
  }

  function Ends(first: byte, between: nat, x: byte, y: byte): (r: Packet)
    ensures |r| == between + 3
  {
    [first] + Zeros(between) + [x, y]
  }

  lemma {:induction false} EndsSum(first: byte, between: nat, x: byte, y: byte)
    requires between % 2 == 0
    ensures WordSum(Ends(first, between, x, y)) == first * 0x100 + x + y * 0x100
    decreases between
  {
    var b := Ends(first, between, x, y);
    if between == 0 {
      assert b == [first, x, y] && b[2..] == [y];
    } else {
      assert b[2..] == Ends(0, between - 2, x, y);
      EndsSum(0, between - 2, x, y);
    }
  }

  /** Completion is right for every packet the kernel can leave if and only if the descriptor's offset is even. */
  lemma CompletionRightIff(start: nat, offset: nat)
    ensures (forall p, pre: nat :: Partial(p, start, offset, pre) ==> Verifies(Completed(p, start, offset), start, pre))
       <==> offset % 2 == 0
  {
    hide Fold, WordSum;
    if offset % 2 == 0 {
      forall p, pre: nat | Partial(p, start, offset, pre) ensures Verifies(Completed(p, start, offset), start, pre) {
        CompletedVerifies(p, start, offset, pre);
      }
    } else {
      var p := OddOffsetFails(start, offset);
    }
  }
}
