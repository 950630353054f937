/**
 Userspace TSO (dataplane/offload_linux.go): the virtio-net header of section 5.1.6
 of Virtio 1.1, partial-checksum completion, and cutting an IPv4/TCP super-frame into
 wire-sized segments.
 */
module Offload {
  import opened Bytes
  import opened Checksum

  const PROTO_TCP := 6
  const MAX_TSO_SEGMENTS := 256
  const VNET_HDR_LEN := 10
  const VNET_NEEDS_CSUM := 1
  const VNET_GSO_NONE := 0
  const VNET_GSO_TCPV4 := 1

  // ---------- virtio-net header ----------

  datatype VirtioNetHdr = VirtioNetHdr(flags: byte, gsoType: byte, hdrLen: u16, gsoSize: u16,
                                       csumStart: u16, csumOffset: u16)

  function Le16(b: Packet, off: nat): (r: u16)
    requires off + 2 <= |b|
  {
    b[off] as int + b[off + 1] as int * 0x100
  }

  function EncodeHdr(h: VirtioNetHdr): (r: Packet)
    ensures |r| == VNET_HDR_LEN
  {
    [h.flags, h.gsoType, h.hdrLen % 0x100, h.hdrLen / 0x100, h.gsoSize % 0x100, h.gsoSize / 0x100,
     h.csumStart % 0x100, h.csumStart / 0x100, h.csumOffset % 0x100, h.csumOffset / 0x100]
  }

  function ParseHdr(b: Packet): (h: VirtioNetHdr)
    requires |b| >= VNET_HDR_LEN
  {
    VirtioNetHdr(b[0], b[1], Le16(b, 2), Le16(b, 4), Le16(b, 6), Le16(b, 8))
  }

  lemma ParseEncoded(h: VirtioNetHdr)
    ensures ParseHdr(EncodeHdr(h)) == h
  {
    var e := EncodeHdr(h);
    assert e[2] == h.hdrLen % 0x100 && e[3] == h.hdrLen / 0x100;
    assert e[4] == h.gsoSize % 0x100 && e[5] == h.gsoSize / 0x100;
    assert e[6] == h.csumStart % 0x100 && e[7] == h.csumStart / 0x100;
    assert e[8] == h.csumOffset % 0x100 && e[9] == h.csumOffset / 0x100;
  }

  lemma Le16Octets(b: Packet, off: nat)
    requires off + 2 <= |b|
    ensures Le16(b, off) % 0x100 == b[off] && Le16(b, off) / 0x100 == b[off + 1]
  {
  }

  lemma EncodeParsed(b: Packet)
    requires |b| == VNET_HDR_LEN
    ensures EncodeHdr(ParseHdr(b)) == b
  {
    hide Le16;
    Le16Octets(b, 2);
    Le16Octets(b, 4);
    Le16Octets(b, 6);
    Le16Octets(b, 8);
  }

  /** The codec loses nothing in either direction. */
  lemma HdrRoundTrip(h: VirtioNetHdr, b: Packet)
    requires |b| == VNET_HDR_LEN
    ensures ParseHdr(EncodeHdr(h)) == h
    ensures EncodeHdr(ParseHdr(b)) == b
  {
    hide EncodeHdr, ParseHdr;
    ParseEncoded(h);
    EncodeParsed(b);
  }

  // ---------- flags ----------

  predicate Fin(f: byte) { f % 2 == 1 }

  predicate Psh(f: byte) { f / 8 % 2 == 1 }

  function FlagBits(fin: bool, psh: bool): (r: byte) { (if fin then 1 else 0) + (if psh then 8 else 0) }

  /** f &^ (FIN | PSH). */
  function ClearFinPsh(f: byte): (r: byte)
    ensures !Fin(r) && !Psh(r)
  {
    f - f % 2 - 8 * (f / 8 % 2)
  }

  /** f | (g & (FIN | PSH)). */
  function OrFinPsh(f: byte, g: byte): (r: byte)
  {
    f + FlagBits(Fin(g) && !Fin(f), Psh(g) && !Psh(f))
  }

  /** OrFinPsh onto an octet with neither flag set: the octet gains exactly g's flags, and clearing undoes it. */
  lemma OrThenClear(f: byte, g: byte)
    requires !Fin(f) && !Psh(f)
    ensures ClearFinPsh(f) == f && ClearFinPsh(OrFinPsh(f, g)) == f
    ensures Fin(OrFinPsh(f, g)) == Fin(g) && Psh(OrFinPsh(f, g)) == Psh(g)
  {
    var a, b := f / 16, f % 8 / 2;
    assert f == 16 * a + 2 * b;
    SplitFlags(a, b, Fin(g), Psh(g));
    assert OrFinPsh(f, g) == 16 * a + 2 * b + FlagBits(Fin(g), Psh(g));
  }

  lemma SplitFlags(a: nat, b: nat, fin: bool, psh: bool)
    requires a < 16 && b < 4
    ensures var x := 16 * a + 2 * b + FlagBits(fin, psh);
      x < 0x100 && x % 2 == (if fin then 1 else 0) && x / 8 % 2 == (if psh then 1 else 0)
  {
    var x := 16 * a + 2 * b + FlagBits(fin, psh);
    assert x / 2 == 8 * a + b + (if psh then 4 else 0);
    assert x / 8 == 2 * a + (if psh then 1 else 0);
  }

  // ---------- checksums ----------

  /** The pseudo-header words of an IPv4/TCP packet: addresses, protocol, TCP length. */
  function PseudoSum(p: Packet, ihl: nat): (s: nat)
    requires 20 <= ihl <= |p|
    ensures s > 0
  {
    WordSum(p[12..20]) + PROTO_TCP + (|p| - ihl)
  }

  function TcpSum(p: Packet, ihl: nat): (s: nat)
    requires 20 <= ihl <= |p|
    ensures s > 0
  {
    PseudoSum(p, ihl) + WordSum(p[ihl..])
  }

  predicate IpChecksumOK(p: Packet, ihl: nat)
    requires 20 <= ihl <= |p|
  {
    Fold(WordSum(p[..ihl])) == 0xffff
  }

  predicate TcpChecksumOK(p: Packet, ihl: nat)
    requires 20 <= ihl <= |p|
  {
    Fold(TcpSum(p, ihl)) == 0xffff
  }

  function WithIpChecksum(p: Packet, ihl: nat): (r: Packet)
    requires 20 <= ihl <= |p|
    ensures |r| == |p| && forall i :: 0 <= i < |p| && i != 10 && i != 11 ==> r[i] == p[i]
  {
    var z := Put16(p, 10, 0);
    Put16(z, 10, 0xffff - Fold(WordSum(z[..ihl])))
  }

  function WithTcpChecksum(p: Packet, ihl: nat): (r: Packet)
    requires 20 <= ihl && ihl + 20 <= |p|
    ensures |r| == |p| && forall i :: 0 <= i < |p| && i != ihl + 16 && i != ihl + 17 ==> r[i] == p[i]
  {
    var z := Put16(p, ihl + 16, 0);
    Put16(z, ihl + 16, 0xffff - Fold(TcpSum(z, ihl)))
  }

  function WithChecksums(p: Packet, ihl: nat): (r: Packet)
    requires 20 <= ihl && ihl + 20 <= |p|
    ensures |r| == |p|
    ensures forall i :: 0 <= i < |p| && i != 10 && i != 11 && i != ihl + 16 && i != ihl + 17 ==> r[i] == p[i]
  {
    WithTcpChecksum(WithIpChecksum(p, ihl), ihl)
  }

  /** Both rebuilt checksums verify, whatever the packet held before. */
  lemma ChecksumsVerify(p: Packet, ihl: nat)
    requires 20 <= ihl && ihl + 20 <= |p|
    ensures IpChecksumOK(WithChecksums(p, ihl), ihl)
    ensures TcpChecksumOK(WithChecksums(p, ihl), ihl)
  {
    IpChecksumVerifies(p, ihl);
    TcpChecksumVerifies(WithIpChecksum(p, ihl), ihl);
    assert WithChecksums(p, ihl)[..ihl] == WithIpChecksum(p, ihl)[..ihl];
  }

  lemma IpChecksumVerifies(p: Packet, ihl: nat)
    requires 20 <= ihl <= |p|
    ensures IpChecksumOK(WithIpChecksum(p, ihl), ihl)
  {
    hide WordSum, Fold, Be16;
    var z := Put16(p, 10, 0);
    ComplementVerifies(0, z[..ihl], 10) by { FieldInSlice(z, 0, ihl, 10); }
    assert WithIpChecksum(p, ihl)[..ihl] == Put16(z[..ihl], 10, 0xffff - Fold(WordSum(z[..ihl])));
  }

  lemma TcpChecksumVerifies(p: Packet, ihl: nat)
    requires 20 <= ihl && ihl + 20 <= |p|
    ensures TcpChecksumOK(WithTcpChecksum(p, ihl), ihl)
  {
    hide WordSum, Fold, Be16;
    var z := Put16(p, ihl + 16, 0);
    var r := WithTcpChecksum(p, ihl);
    assert z[ihl..] == z[ihl..|z|];
    ComplementVerifies(PseudoSum(z, ihl), z[ihl..], 16) by { FieldInSlice(z, ihl, |z|, 16); }
    assert r[ihl..] == Put16(z[ihl..], 16, 0xffff - Fold(TcpSum(z, ihl)));
    assert r[12..20] == z[12..20];
  }

  lemma FieldInSlice(p: Packet, a: nat, b: nat, off: nat)
    requires a + off + 2 <= b <= |p|
    ensures Be16(p[a..b], off) == Be16(p, a + off)
  {
  }

  /** The rebuilt checksums depend only on the octets outside the checksum fields. */
  lemma ChecksumsIgnoreOldFields(a: Packet, b: Packet, ihl: nat)
    requires 20 <= ihl && ihl + 20 <= |a| && |a| == |b|
    requires forall i :: 0 <= i < |a| && i != 10 && i != 11 && i != ihl + 16 && i != ihl + 17 ==> a[i] == b[i]
    ensures WithChecksums(a, ihl) == WithChecksums(b, ihl)
  {
    var za, zb := Put16(a, 10, 0), Put16(b, 10, 0);
    assert za[..ihl] == zb[..ihl];
    var ya, yb := Put16(WithIpChecksum(a, ihl), ihl + 16, 0), Put16(WithIpChecksum(b, ihl), ihl + 16, 0);
    assert ya == yb;
  }

  // ---------- completePartialChecksum ----------

  function Completed(p: Packet, start: int, offset: int): (r: Packet)
  {
    if start < 0 || offset < 0 || start + offset + 2 > |p| then p
    else Put16(p, start + offset, 0xffff - Fold(WordSum(p[start..])))
  }

  /**
   The NIC-offload contract: when the field holds the folded pseudo-header sum, completing it
   yields a checksum the receiver accepts, whatever the payload length or parity.
   */
  lemma CompletionVerifies(p: Packet)
    requires 40 <= |p| && Be16(p, 36) == Fold(PseudoSum(p, 20))
    ensures TcpChecksumOK(Completed(p, 20, 16), 20)
  {
    var b := p[20..];
    var pre := PseudoSum(p, 20);
    var k := FoldQuotient(pre);
    var j := FoldQuotient(WordSum(b));
    var c := 0xffff - Fold(WordSum(b));
    var r := Completed(p, 20, 16);
    assert Be16(b, 16) == Be16(p, 36);
    WordSumPut(b, 16, c);
    assert r[20..] == Put16(b, 16, c);
    assert r[12..20] == p[12..20];
    assert TcpSum(r, 20) == pre + WordSum(b) - Fold(pre) + c;
    FoldUnique(65535, k + j);
  }

  method CompletePartialChecksum(pkt: array<byte>, start: int, offset: int)
    requires pkt.Length <= 65535
    modifies pkt
    ensures pkt[..] == Completed(old(pkt[..]), start, offset)
  {
    if start < 0 || offset < 0 || start + offset + 2 > pkt.Length {
      return;
    }
    var tail := pkt[start..];
    assert tail == pkt[..][start..];
    NoOverflow(0, tail);
    var acc := OnesComplementSum(0, tail);
    assert acc == WordSum(tail);
    var f := FoldSum(acc);
    StoreBe16(pkt, start + offset, 0xffff - f);
  }

  // ---------- segmentTSO4 ----------

  datatype TsoError = NotIPv4 | OutOfBounds | NotTcp(protocol: byte)

  datatype TsoResult = Segmented(segs: seq<Packet>) | Rejected(error: TsoError)

  function HeaderLen(b: byte): (r: nat) { b / 16 * 4 }

  function InternetHeaderLen(b: byte): (r: nat) { b % 16 * 4 }

  function SegmentCount(payload: nat, gso: nat): (n: nat)
    requires gso > 0
  {
    (payload + gso - 1) / gso
  }

  /** A super-frame whose headers fit: what every step below starts from. */
  predicate SuperFrame(pkt: Packet, ihl: nat, thl: nat, gso: nat)
  {
    20 <= ihl && 20 <= thl && ihl % 4 == 0 && ihl + thl < |pkt| && 0 < gso
  }

  /** Payload octets before segment i. */
  function Offset(i: nat, gso: nat): (r: nat) { i * gso }

  lemma OffsetStep(i: nat, gso: nat)
    ensures Offset(i + 1, gso) == Offset(i, gso) + gso
  {
  }

  lemma OffsetZero(gso: nat)
    ensures Offset(0, gso) == 0
  {
  }

  /** Segment offsets stay inside the payload, and only the last segment may be short. */
  lemma SegmentOffsets(payload: nat, gso: nat, i: nat)
    requires payload > 0 && gso > 0 && i < SegmentCount(payload, gso)
    ensures Offset(i, gso) < payload
    ensures i + 1 < SegmentCount(payload, gso) ==> Offset(i, gso) + gso < payload
    ensures i + 1 == SegmentCount(payload, gso) ==> payload <= Offset(i, gso) + gso
  {
    var n := SegmentCount(payload, gso);
    var m := payload + gso - 1;
    assert m == n * gso + m % gso;
    assert (i + 1) * gso == Offset(i, gso) + gso;
    if i + 1 < n {
      MulLe(i + 2, n, gso);
      assert (i + 2) * gso == Offset(i, gso) + gso + gso;
    } else {
      assert i + 1 == n;
    }
  }

  lemma MulLe(a: nat, b: nat, c: nat)
    requires a <= b
    ensures a * c <= b * c
  {
    assert b * c == a * c + (b - a) * c;
  }

  /** One segment before its checksums are rebuilt: `chunk` payload octets from offset `off`. */
  function RawSegment(pkt: Packet, ihl: nat, thl: nat, off: nat, chunk: nat, i: nat, last: bool): (r: Packet)
    requires 20 <= ihl && 20 <= thl && ihl + thl + off + chunk <= |pkt|
    ensures |r| == ihl + thl + chunk
  {
    var h := ihl + thl;
    var s0 := pkt[..h] + pkt[h + off..h + off + chunk];
    var s1 := Put16(s0, 2, Low16(h + chunk));
    var s2 := Put16(s1, 4, Low16(Be16(pkt, 4) + i));
    var s3 := Put32(s2, ihl + 4, Low32(Be32(pkt, ihl + 4) + off));
    if last then s3 else s3[ihl + 13 := ClearFinPsh(s3[ihl + 13])]
  }

  lemma RawSegmentFields(pkt: Packet, ihl: nat, thl: nat, off: nat, chunk: nat, i: nat, last: bool)
    requires 20 <= ihl && 20 <= thl && ihl + thl + off + chunk <= |pkt|
    ensures var s, h := RawSegment(pkt, ihl, thl, off, chunk, i, last), ihl + thl;
      && s[h..] == pkt[h + off..h + off + chunk]
      && Be16(s, 2) == Low16(|s|)
      && Be16(s, 4) == Low16(Be16(pkt, 4) + i)
      && Be32(s, ihl + 4) == Low32(Be32(pkt, ihl + 4) + off)
      && s[ihl + 13] == (if last then pkt[ihl + 13] else ClearFinPsh(pkt[ihl + 13]))
      && forall k :: 0 <= k < h && !FixedUp(k, ihl) ==> s[k] == pkt[k]
  {
  }

  /** Header octets that segmentation rewrites; all others are copied. */
  predicate FixedUp(k: nat, ihl: nat)
  {
    2 <= k < 6 || k == 10 || k == 11 || ihl + 4 <= k < ihl + 8 || k == ihl + 13 || k == ihl + 16 || k == ihl + 17
  }

  /** Segment i of the cut at gso octets of payload. */
  function Segment(pkt: Packet, ihl: nat, thl: nat, gso: nat, i: nat): (r: Packet)
    requires SuperFrame(pkt, ihl, thl, gso) && i < SegmentCount(|pkt| - ihl - thl, gso)
    ensures |r| >= ihl + thl
  {
    var payload := |pkt| - ihl - thl;
    SegmentOffsets(payload, gso, i);
    WithChecksums(RawSegment(pkt, ihl, thl, Offset(i, gso), Min(gso, payload - Offset(i, gso)), i,
                             i + 1 == SegmentCount(payload, gso)), ihl)
  }

  /** The whole cut, with no bound on the number of segments. */
  function Cut(pkt: Packet, ihl: nat, thl: nat, gso: nat): (r: seq<Packet>)
    requires SuperFrame(pkt, ihl, thl, gso)
    ensures |r| == SegmentCount(|pkt| - ihl - thl, gso)
  {
    seq(SegmentCount(|pkt| - ihl - thl, gso), i requires 0 <= i < SegmentCount(|pkt| - ihl - thl, gso) =>
      Segment(pkt, ihl, thl, gso, i))
  }

  /** Where a super-frame's headers end, or why it cannot be cut. */
  datatype Layout = Frame(ihl: nat, thl: nat) | Malformed(error: TsoError)

  function LayoutOf(pkt: Packet, gso: nat): (r: Layout)
    ensures r.Frame? ==> SuperFrame(pkt, r.ihl, r.thl, gso)
  {
    if |pkt| < 20 || pkt[0] / 16 != 4 then Malformed(NotIPv4)
    else
      var ihl := InternetHeaderLen(pkt[0]);
      if ihl < 20 || |pkt| < ihl + 20 then Malformed(OutOfBounds)
      else if pkt[9] != PROTO_TCP then Malformed(NotTcp(pkt[9]))
      else
        var thl := HeaderLen(pkt[ihl + 12]);
        if thl < 20 || |pkt| <= ihl + thl || gso == 0 then Malformed(OutOfBounds) else Frame(ihl, thl)
  }

  function SegmentTSO4Spec(pkt: Packet, gso: nat): (r: TsoResult)
  {
    match LayoutOf(pkt, gso)
    case Malformed(e) => Rejected(e)
    case Frame(ihl, thl) =>
      if SegmentCount(|pkt| - ihl - thl, gso) > MAX_TSO_SEGMENTS then Rejected(OutOfBounds)
      else Segmented(Cut(pkt, ihl, thl, gso))
  }

  /**
   Every field of every segment: length, consecutive IP ID and sequence number with their
   wrap-around, FIN and PSH on the last segment only, payload slice, two checksums that
   verify, and every other header octet copied.
   */
  lemma SegmentFields(pkt: Packet, ihl: nat, thl: nat, gso: nat, i: nat)
    requires SuperFrame(pkt, ihl, thl, gso) && i < SegmentCount(|pkt| - ihl - thl, gso)
    ensures var s, h, last := Segment(pkt, ihl, thl, gso, i), ihl + thl, i + 1 == SegmentCount(|pkt| - ihl - thl, gso);
      && 0 <= Offset(i, gso) < |pkt| - h
      && s[h..] == pkt[h + Offset(i, gso)..h + Offset(i, gso) + Min(gso, |pkt| - h - Offset(i, gso))]
      && Be16(s, 2) == Low16(|s|)
      && Be16(s, 4) == Low16(Be16(pkt, 4) + i)
      && Be32(s, ihl + 4) == Low32(Be32(pkt, ihl + 4) + Offset(i, gso))
      && s[ihl + 13] == (if last then pkt[ihl + 13] else ClearFinPsh(pkt[ihl + 13]))
      && IpChecksumOK(s, ihl) && TcpChecksumOK(s, ihl)
      && forall k :: 0 <= k < h && !FixedUp(k, ihl) ==> s[k] == pkt[k]
  {
    hide Offset, RawSegment, WithChecksums, SegmentCount, IpChecksumOK, TcpChecksumOK, FixedUp, ClearFinPsh, Be16, Be32, Low16, Low32;
    var payload := |pkt| - ihl - thl;
    SegmentOffsets(payload, gso, i);
    var chunk := Min(gso, payload - Offset(i, gso));
    var last := i + 1 == SegmentCount(payload, gso);
    SegmentAtFields(pkt, ihl, thl, Offset(i, gso), chunk, i, last);
  }

  lemma SegmentAtFields(pkt: Packet, ihl: nat, thl: nat, off: nat, chunk: nat, i: nat, last: bool)
    requires 20 <= ihl && 20 <= thl && ihl % 4 == 0 && ihl + thl + off + chunk <= |pkt|
    ensures var s, h := WithChecksums(RawSegment(pkt, ihl, thl, off, chunk, i, last), ihl), ihl + thl;
      && s[h..] == pkt[h + off..h + off + chunk]
      && Be16(s, 2) == Low16(|s|)
      && Be16(s, 4) == Low16(Be16(pkt, 4) + i)
      && Be32(s, ihl + 4) == Low32(Be32(pkt, ihl + 4) + off)
      && s[ihl + 13] == (if last then pkt[ihl + 13] else ClearFinPsh(pkt[ihl + 13]))
      && IpChecksumOK(s, ihl) && TcpChecksumOK(s, ihl)
      && forall k :: 0 <= k < h && !FixedUp(k, ihl) ==> s[k] == pkt[k]
  {
    hide RawSegment, WithChecksums, IpChecksumOK, TcpChecksumOK, ClearFinPsh, Low16, Low32;
    var raw := RawSegment(pkt, ihl, thl, off, chunk, i, last);
    RawSegmentFields(pkt, ihl, thl, off, chunk, i, last);
    ChecksumsVerify(raw, ihl);
    var s := WithChecksums(raw, ihl);
    assert s[ihl + thl..] == raw[ihl + thl..];
  }

  /** All the payloads of the first n segments, in order. */
  function Payloads(segs: seq<Packet>, h: nat): (r: Packet)
    requires forall s :: s in segs ==> h <= |s|
  {
    if segs == [] then [] else Payloads(segs[..|segs| - 1], h) + segs[|segs| - 1][h..]
  }

  /** Nothing is lost, duplicated or reordered: the segments' payloads concatenate to the super-frame's. */
  lemma PayloadConserved(pkt: Packet, ihl: nat, thl: nat, gso: nat)
    requires SuperFrame(pkt, ihl, thl, gso)
    ensures Payloads(Cut(pkt, ihl, thl, gso), ihl + thl) == pkt[ihl + thl..]
  {
    hide Offset, Segment, Payloads;
    var segs := Cut(pkt, ihl, thl, gso);
    SegmentCountPositive(|pkt| - ihl - thl, gso);
    PrefixConserved(pkt, ihl, thl, gso, |segs|);
    assert segs[..|segs|] == segs;
    SegmentOffsets(|pkt| - ihl - thl, gso, |segs| - 1);
    OffsetStep(|segs| - 1, gso);
  }

  lemma SegmentCountPositive(payload: nat, gso: nat)
    requires payload > 0 && gso > 0
    ensures SegmentCount(payload, gso) > 0
  {
    var m := payload + gso - 1;
    assert m == SegmentCount(payload, gso) * gso + m % gso;
  }

  /** Where the payload of the first n segments ends. */
  function EndOf(payload: nat, gso: nat, n: nat): (r: nat) { Min(Offset(n, gso), payload) }

  lemma SegmentPayload(pkt: Packet, ihl: nat, thl: nat, gso: nat, i: nat)
    requires SuperFrame(pkt, ihl, thl, gso) && i < SegmentCount(|pkt| - ihl - thl, gso)
    ensures var h := ihl + thl; var a, b := EndOf(|pkt| - h, gso, i), EndOf(|pkt| - h, gso, i + 1);
      a <= b <= |pkt| - h && |Segment(pkt, ihl, thl, gso, i)| >= h && Segment(pkt, ihl, thl, gso, i)[h..] == pkt[h + a..h + b]
  {
    hide Offset, Segment, SegmentCount, IpChecksumOK, TcpChecksumOK, FixedUp, ClearFinPsh, Be16, Be32, Low16, Low32;
    SegmentFields(pkt, ihl, thl, gso, i);
    OffsetStep(i, gso);
  }

  lemma SliceJoin(pkt: Packet, h: nat, a: nat, b: nat)
    requires a <= b && h + b <= |pkt|
    ensures pkt[h..h + b] == pkt[h..h + a] + pkt[h + a..h + b]
  {
  }

  lemma {:induction false} PrefixConserved(pkt: Packet, ihl: nat, thl: nat, gso: nat, n: nat)
    requires SuperFrame(pkt, ihl, thl, gso) && n <= SegmentCount(|pkt| - ihl - thl, gso)
    ensures Payloads(Cut(pkt, ihl, thl, gso)[..n], ihl + thl)
         == pkt[ihl + thl..ihl + thl + EndOf(|pkt| - ihl - thl, gso, n)]
    decreases n
  {
    hide Offset, Segment, SegmentCount;
    if n == 0 {
      OffsetZero(gso);
    } else {
      hide EndOf;
      var segs, h := Cut(pkt, ihl, thl, gso), ihl + thl;
      PrefixConserved(pkt, ihl, thl, gso, n - 1);
      SegmentPayload(pkt, ihl, thl, gso, n - 1);
      assert segs[..n][..n - 1] == segs[..n - 1];
      SliceJoin(pkt, h, EndOf(|pkt| - h, gso, n - 1), EndOf(|pkt| - h, gso, n));
    }
  }

  /** The copy and the fixed-up fields of one segment, in a fresh buffer. */
  method FillSegment(pkt: Packet, ihl: nat, thl: nat, off: nat, chunk: nat, i: nat, last: bool) returns (seg: array<byte>)
    requires 20 <= ihl && 20 <= thl && ihl + thl + off + chunk <= |pkt|
    ensures fresh(seg) && seg[..] == RawSegment(pkt, ihl, thl, off, chunk, i, last)
  {
    hide Low16, Low32, Be16, Be32, Put32;
    var h := ihl + thl;
    seg := new byte[h + chunk](k requires 0 <= k < h + chunk => if k < h then pkt[k] else pkt[off + k]);
    assert seg[..] == pkt[..h] + pkt[h + off..h + off + chunk];
    StoreBe16(seg, 2, Low16(h + chunk));
    StoreBe16(seg, 4, Low16(Be16(pkt, 4) + i));
    StoreBe32(seg, ihl + 4, Low32(Be32(pkt, ihl + 4) + off));
    if !last {
      seg[ihl + 13] := ClearFinPsh(seg[ihl + 13]);
    }
  }

  /** One turn of segmentTSO4's loop: build segment i, then both its checksums. */
  method BuildSegment(pkt: Packet, ihl: nat, thl: nat, off: nat, chunk: nat, i: nat, last: bool) returns (r: Packet)
    requires |pkt| <= 65535
    requires 20 <= ihl && 20 <= thl && ihl % 4 == 0 && ihl + thl + off + chunk <= |pkt|
    ensures r == WithChecksums(RawSegment(pkt, ihl, thl, off, chunk, i, last), ihl)
  {
    hide RawSegment, WithIpChecksum, WithTcpChecksum;
    var seg := FillSegment(pkt, ihl, thl, off, chunk, i, last);
    assert seg.Length == |seg[..]|;
    StoreIpChecksum(seg, ihl);
    StoreTcpChecksum(seg, ihl);
    r := seg[..];
  }

  /** The rebuilt IPv4 checksum goes into seg; no other octet changes. */
  method StoreIpChecksum(seg: array<byte>, ihl: nat)
    requires 20 <= ihl <= seg.Length <= 65535
    modifies seg
    ensures seg[..] == WithIpChecksum(old(seg[..]), ihl)
  {
    hide WordSum, Fold, Be16;
    StoreBe16(seg, 10, 0);
    var hdr := seg[..ihl];
    assert hdr == seg[..][..ihl];
    NoOverflow(0, hdr);
    var acc := OnesComplementSum(0, hdr);
    var f := FoldSum(acc);
    StoreBe16(seg, 10, 0xffff - f);
  }

  /** The TCP sum of a segment, as the code adds it up: addresses, protocol and length, then the segment. */
  method SumTcp(z: Packet, ihl: nat) returns (acc: u32)
    requires 20 <= ihl && ihl + 20 <= |z| <= 65535
    ensures acc == TcpSum(z, ihl)
  {
    hide WordSum;
    var addrs, l4 := z[12..20], z[ihl..];
    AddressSum(addrs);
    acc := OnesComplementSum(0, addrs);
    acc := acc + PROTO_TCP + (|z| - ihl);
    NoOverflow(acc, l4);
    acc := OnesComplementSum(acc, l4);
  }

  lemma AddressSum(addrs: Packet)
    requires |addrs| == 8
    ensures Low32(0 + WordSum(addrs)) == WordSum(addrs) <= 0x4_0000
  {
    hide WordSum;
    WordSumBound(addrs);
  }

  /** The rebuilt TCP checksum, likewise. */
  method StoreTcpChecksum(seg: array<byte>, ihl: nat)
    requires 20 <= ihl && ihl + 20 <= seg.Length <= 65535
    modifies seg
    ensures seg[..] == WithTcpChecksum(old(seg[..]), ihl)
  {
    hide TcpSum, Fold, Be16;
    StoreBe16(seg, ihl + 16, 0);
    var acc := SumTcp(seg[..], ihl);
    var f := FoldSum(acc);
    StoreBe16(seg, ihl + 16, 0xffff - f);
  }

  /** segmentTSO4 on a frame that fits runVnet's 65535-octet read buffer. */
  method SegmentTSO4(pkt: Packet, hdr: VirtioNetHdr) returns (r: TsoResult)
    requires |pkt| <= 65535
    ensures r == SegmentTSO4Spec(pkt, hdr.gsoSize)
  {
    hide SegmentCount, Cut;
    if |pkt| < 20 || pkt[0] / 16 != 4 {
      return Rejected(NotIPv4);
    }
    var ihl := InternetHeaderLen(pkt[0]);
    if ihl < 20 || |pkt| < ihl + 20 {
      return Rejected(OutOfBounds);
    }
    if pkt[9] != PROTO_TCP {
      return Rejected(NotTcp(pkt[9]));
    }
    var thl := HeaderLen(pkt[ihl + 12]);
    if thl < 20 || |pkt| < ihl + thl {
      return Rejected(OutOfBounds);
    }
    var payload, gso := |pkt| - ihl - thl, hdr.gsoSize;
    if gso <= 0 || payload == 0 {
      return Rejected(OutOfBounds);
    }
    var nseg := SegmentCount(payload, gso);
    if nseg > MAX_TSO_SEGMENTS {
      return Rejected(OutOfBounds);
    }
    var segs := CutLoop(pkt, ihl, thl, gso, nseg);
    r := Segmented(segs);
  }

  method CutLoop(pkt: Packet, ihl: nat, thl: nat, gso: nat, nseg: nat) returns (segs: seq<Packet>)
    requires |pkt| <= 65535 && SuperFrame(pkt, ihl, thl, gso) && nseg == SegmentCount(|pkt| - ihl - thl, gso)
    ensures segs == Cut(pkt, ihl, thl, gso)
  {
    hide Offset, SegmentCount, RawSegment, WithChecksums;
    segs := [];
    for i := 0 to nseg
      invariant |segs| == i
      invariant forall k :: 0 <= k < i ==> segs[k] == Segment(pkt, ihl, thl, gso, k)
    {
      SegmentOffsets(|pkt| - ihl - thl, gso, i);
      var off := Offset(i, gso);
      var chunk := Min(gso, |pkt| - ihl - thl - off);
      var seg := BuildSegment(pkt, ihl, thl, off, chunk, i, i == nseg - 1);
      segs := segs + [seg];
    }
  }
}
