/**
 Path-MTU replies (dataplane/icmp.go, dataplane/icmp6.go): recognising a packet that will not
 fit, the ICMPv4 and ICMPv6 answers (section 4 of RFC 1191, section 3.2 of RFC 4443), and
 reading the advertised MTU back.
 */
module Icmp {
  import opened Bytes
  import opened Checksum
  import opened Offload

  const MIN_IPV6_MTU := 1280

  predicate NeedsFragmentation(p: Packet, mtu: int)
  {
    |p| > mtu && |p| >= 1 &&
    if p[0] / 16 == 4 then |p| >= 20 && p[6] / 64 % 2 == 1
    else p[0] / 16 == 6 && |p| >= 40
  }

  /** putICMPChecksum over a message whose pseudo-header sums to pre (0 for ICMPv4). */
  function WithIcmpChecksum(m: Packet, pre: nat): (r: Packet)
    requires |m| >= 4
    ensures |r| == |m| && forall i :: 0 <= i < |m| && i != 2 && i != 3 ==> r[i] == m[i]
  {
    var z := Put16(m, 2, 0);
    Put16(z, 2, 0xffff - Fold(pre + WordSum(z)))
  }

  lemma IcmpChecksumVerifies(m: Packet, pre: nat)
    requires |m| >= 4
    ensures Fold(pre + WordSum(WithIcmpChecksum(m, pre))) == 0xffff
  {
    hide Fold, WordSum, Be16;
    ComplementVerifies(pre, Put16(m, 2, 0), 2);
  }

  // ---------- ICMPv4 ----------

  /** An IPv4 header an error can be built for. */
  predicate QuotableV4(p: Packet)
  {
    |p| >= 20 && p[0] / 16 == 4 && InternetHeaderLen(p[0]) >= 20 && InternetHeaderLen(p[0]) <= |p|
  }

  function QuoteLen(p: Packet): (n: nat)
    requires QuotableV4(p)
    ensures 20 <= n <= |p| && n <= 68
  {
    Min(InternetHeaderLen(p[0]) + 8, |p|)
  }

  function V4Header(p: Packet): (r: Packet)
    requires QuotableV4(p)
    ensures |r| == 20
  {
    [0x45, 0] + Word(28 + QuoteLen(p)) + [0, 0, 0, 0, 64, 1, 0, 0] + p[16..20] + p[12..16]
  }

  /** A 16-bit field on its own. */
  function Word(v: u16): (r: Packet)
    ensures |r| == 2 && Be16(r, 0) == v
  {
    [v / 0x100, v % 0x100]
  }

  function V4Message(p: Packet, mtu: nat): (r: Packet)
    requires QuotableV4(p)
    ensures |r| == 8 + QuoteLen(p)
  {
    [3, 4, 0, 0, 0, 0] + Word(Low16(mtu)) + p[..QuoteLen(p)]
  }

  function FragNeededV4(p: Packet, mtu: nat): (r: Packet)
    requires QuotableV4(p)
    ensures |r| == 28 + QuoteLen(p)
  {
    WithIpChecksum(V4Header(p), 20) + WithIcmpChecksum(V4Message(p, mtu), 0)
  }

  // ---------- ICMPv6 ----------

  predicate QuotableV6(p: Packet) { |p| >= 40 && p[0] / 16 == 6 }

  function QuoteLenV6(p: Packet): (n: nat) { Min(|p|, MIN_IPV6_MTU - 40 - 8) }

  /** Addresses, message length and next header: the words the ICMPv6 checksum adds to the message. */
  function PseudoV6(src: Packet, dst: Packet, len: nat): (s: nat)
    requires len < 0x1_0000
  {
    WordSum(src + dst + [0, 0] + Word(len) + [0, 0, 0, 58])
  }

  function V6Message(p: Packet, mtu: nat): (r: Packet)
    requires QuotableV6(p)
    ensures |r| == 8 + QuoteLenV6(p)
  {
    var m := Low32(Max(mtu, MIN_IPV6_MTU));
    [2, 0, 0, 0] + Word(m / 0x1_0000) + Word(m % 0x1_0000) + p[..QuoteLenV6(p)]
  }

  function FragNeededV6(p: Packet, mtu: nat): (r: Packet)
    requires QuotableV6(p)
    ensures |r| == 48 + QuoteLenV6(p)
  {
    var len := 8 + QuoteLenV6(p);
    V6Header(p) + WithIcmpChecksum(V6Message(p, mtu), PseudoV6(p[24..40], p[8..24], len))
  }

  function FragNeeded(p: Packet, mtu: nat): (r: Option<Packet>)
  {
    if |p| >= 1 && p[0] / 16 == 6 then if QuotableV6(p) then Some(FragNeededV6(p, mtu)) else None
    else if QuotableV4(p) then Some(FragNeededV4(p, mtu)) else None
  }

  /** The next-hop MTU of an ICMPv4 fragmentation-needed message; None when it is not one, or advertises nothing. */
  function ParseFragNeeded(p: Packet): (m: Option<nat>)
  {
    if |p| < 20 || p[0] / 16 != 4 || p[9] != 1 then None
    else
      var ihl := InternetHeaderLen(p[0]);
      if ihl < 20 || |p| < ihl + 8 || p[ihl] != 3 || p[ihl + 1] != 4 then None
      else if Be16(p, ihl + 6) == 0 then None
      else Some(Be16(p, ihl + 6))
  }

  // ---------- what the replies say ----------

  /** DF is one bit of octet 6, and only an IPv4 packet without it may still be fragmented on the way. */
  lemma TooBigIff(p: Packet, mtu: int)
    ensures NeedsFragmentation(p, mtu) <==>
      && mtu < |p| && |p| >= 20
      && ((p[0] / 16 == 4 && (p[6] as bv8) & 0x40 != 0) || (p[0] / 16 == 6 && |p| >= 40))
  {
    if |p| >= 20 { DontFragment(p[6]); }
  }

  lemma DontFragment(b: byte)
    ensures (b as bv8) & 0x40 != 0 <==> b / 64 % 2 == 1
  {
    var v := b as bv8;
    assert v & 0x40 == ((v >> 6) & 1) << 6;
  }

  lemma QuoteIs(p: Packet)
    requires QuotableV4(p)
    ensures QuoteLen(p) == Min(p[0] % 16 * 4 + 8, |p|)
  {
  }

  /**
   The ICMPv4 reply, destination unreachable for want of fragmentation: addresses swapped, the offending header
   and eight octets of its payload quoted, both checksums verifying.
   */
  lemma ReplyV4(p: Packet, mtu: nat)
    requires QuotableV4(p)
    ensures var r, q := FragNeededV4(p, mtu), Min(p[0] % 16 * 4 + 8, |p|);
      && r[..2] == [0x45, 0] && r[4..10] == [0, 0, 0, 0, 64, 1] && r[20] == 3 && r[21] == 4 && r[24] == 0 && r[25] == 0
      && r[12..16] == p[16..20] && r[16..20] == p[12..16]
      && Be16(r, 2) == |r|
      && r[28..] == p[..q]
      && IpChecksumOK(r, 20) && Fold(WordSum(r[20..])) == 0xffff
  {
    hide Fold, WordSum, WithIcmpChecksum, WithIpChecksum, QuoteLen;
    QuoteIs(p);
    var h, m := V4Header(p), V4Message(p, mtu);
    var r := FragNeededV4(p, mtu);
    IpChecksumVerifies(h, 20);
    IcmpChecksumVerifies(m, 0);
    assert r[..20] == WithIpChecksum(h, 20) && r[20..] == WithIcmpChecksum(m, 0);
    assert WithIpChecksum(h, 20)[..20] == WithIpChecksum(h, 20);
    assert h[12..16] == p[16..20] && h[16..20] == p[12..16];
    assert r[12..16] == h[12..16] && r[16..20] == h[16..20];
    assert r[2] == h[2] && r[3] == h[3] && h[2..4] == Word(28 + QuoteLen(p));
    assert h[2] == h[2..4][0] && h[3] == h[2..4][1];
    assert r[28..] == r[20..][8..] == m[8..];
  }

  /** Every packet that is too big is answered, an IPv4 one as long as its header is whole; the answer is of its own family. */
  lemma AnswersIff(p: Packet, mtu: nat)
    ensures FragNeeded(p, mtu) ==
      if |p| >= 40 && p[0] / 16 == 6 then Some(FragNeededV6(p, mtu))
      else if |p| >= 20 && p[0] / 16 == 4 && 20 <= p[0] % 16 * 4 <= |p| then Some(FragNeededV4(p, mtu))
      else None
  {
    hide FragNeededV4, FragNeededV6;
  }

  /** Reading the reply back returns the MTU exactly when the field can carry it. */
  lemma PmtuRoundTrip(p: Packet, mtu: nat)
    requires QuotableV4(p)
    ensures ParseFragNeeded(FragNeededV4(p, mtu)) == Some(mtu) <==> 1 <= mtu <= 65535
    ensures ParseFragNeeded(FragNeededV4(p, mtu)) == if Low16(mtu) == 0 then None else Some(Low16(mtu))
  {
    hide Fold, WordSum, WithIcmpChecksum, WithIpChecksum, QuoteLen;
    var h, m := V4Header(p), V4Message(p, mtu);
    var r := FragNeededV4(p, mtu);
    assert r[0] == h[0] == 0x45 && r[9] == h[9] == 1;
    assert r[20] == m[0] == 3 && r[21] == m[1] == 4;
    assert m[6..8] == Word(Low16(mtu));
    assert r[26] == m[6] == m[6..8][0] && r[27] == m[7] == m[6..8][1];
  }

  /** An advertised MTU is read out of any destination-unreachable, fragmentation-needed message, whatever options its IPv4 header has. */
  lemma ParsesIff(p: Packet, m: nat)
    ensures ParseFragNeeded(p) == Some(m) <==>
      && |p| >= 28 && p[0] / 16 == 4 && p[0] % 16 >= 5 && p[9] == 1
      && var at := p[0] % 16 * 4; |p| >= at + 8 && p[at] == 3 && p[at + 1] == 4 && Be16(p, at + 6) == m > 0
  {
  }

  /** The ICMPv6 reply, packet too big: all of the packet that 1280 octets leave room for, advertising at least 1280, swapped, and verifying under its pseudo-header. */
  lemma ReplyV6(p: Packet, mtu: nat)
    requires QuotableV6(p)
    ensures var r, q := FragNeededV6(p, mtu), Min(|p|, 1232);
      && |r| == 48 + q <= 1280
      && r[..4] == [0x60, 0, 0, 0] && r[6..8] == [58, 64] && r[40] == 2 && r[41] == 0
      && r[8..24] == p[24..40] && r[24..40] == p[8..24]
      && Be16(r, 4) == |r| - 40
      && Be32(r, 44) == Low32(Max(mtu, MIN_IPV6_MTU))
      && r[48..] == p[..q]
      && Fold(PseudoV6(r[8..24], r[24..40], |r| - 40) + WordSum(r[40..])) == 0xffff
  {
    hide Fold, WordSum, WithIcmpChecksum, PseudoV6;
    var len, m := 8 + QuoteLenV6(p), V6Message(p, mtu);
    var r := FragNeededV6(p, mtu);
    IcmpChecksumVerifies(m, PseudoV6(p[24..40], p[8..24], len));
    assert r[40..] == WithIcmpChecksum(m, PseudoV6(p[24..40], p[8..24], len));
    assert r[8..24] == p[24..40] && r[24..40] == p[8..24];
    assert r[4..6] == Word(len) && r[4] == r[4..6][0] && r[5] == r[4..6][1];
    assert r[48..] == r[40..][8..] == m[8..];
    var a := Low32(Max(mtu, MIN_IPV6_MTU));
    assert m[4..6] == Word(a / 0x1_0000) && m[6..8] == Word(a % 0x1_0000);
    assert r[44] == m[4] == m[4..6][0] && r[45] == m[5] == m[4..6][1];
    assert r[46] == m[6] == m[6..8][0] && r[47] == m[7] == m[6..8][1];
  }

  // ---------- the builders ----------

  /** Zero the field, sum the slice [lo, hi) onto pre, store the complement: the three put-checksum functions. */
  method StoreChecksum(out: array<byte>, lo: nat, hi: nat, field: nat, pre: u32)
    requires lo <= field && field + 2 <= hi <= out.Length <= 65535 && pre <= 0x1000_0000
    modifies out
    ensures var z := Put16(old(out[..]), field, 0);
      out[..] == Put16(z, field, 0xffff - Fold(pre + WordSum(z[lo..hi])))
  {
    hide Fold, WordSum, Be16;
    StoreBe16(out, field, 0);
    var part := out[lo..hi];
    assert part == out[..][lo..hi];
    NoOverflow(pre, part);
    var sum := ChecksumAccumulate(pre, part);
    var c := ChecksumFold(sum);
    StoreBe16(out, field, c);
  }

  lemma PutLeft(a: Packet, b: Packet, off: nat, v: u16)
    requires off + 2 <= |a|
    ensures Put16(a + b, off, v) == Put16(a, off, v) + b
  {
  }

  lemma PutRight(a: Packet, b: Packet, off: nat, v: u16)
    requires off + 2 <= |b|
    ensures Put16(a + b, |a| + off, v) == a + Put16(b, off, v)
  {
  }

  /** The checksum of the left part of a buffer leaves the right part alone. */
  lemma ChecksumLeft(h: Packet, m: Packet)
    requires |h| == 20
    ensures var z := Put16(h + m, 10, 0);
      Put16(z, 10, 0xffff - Fold(0 + WordSum(z[0..20]))) == WithIpChecksum(h, 20) + m
  {
    hide Fold, WordSum, Put16;
    var z := Put16(h, 10, 0);
    PutLeft(h, m, 10, 0);
    assert (z + m)[0..20] == z == z[..20];
    PutLeft(z, m, 10, 0xffff - Fold(WordSum(z)));
  }

  lemma ChecksumRight(h: Packet, m: Packet, pre: nat)
    requires |m| >= 4
    ensures var z := Put16(h + m, |h| + 2, 0);
      Put16(z, |h| + 2, 0xffff - Fold(pre + WordSum(z[|h|..|h| + |m|]))) == h + WithIcmpChecksum(m, pre)
  {
    hide Fold, WordSum, Put16;
    var z := Put16(m, 2, 0);
    PutRight(h, m, 2, 0);
    assert (h + z)[|h|..|h| + |m|] == z;
    PutRight(h, z, 2, 0xffff - Fold(pre + WordSum(z)));
  }

  method FillV4Header(out: array<byte>, pkt: Packet)
    requires QuotableV4(pkt) && out.Length == 28 + QuoteLen(pkt) && forall i :: 0 <= i < out.Length ==> out[i] == 0
    modifies out
    ensures out[..20] == V4Header(pkt) && forall i :: 20 <= i < out.Length ==> out[i] == 0
  {
    hide QuoteLen;
    out[0] := 0x45;
    StoreBe16(out, 2, out.Length);
    assert out[..][2] == out.Length / 0x100 && out[..][3] == out.Length % 0x100;
    out[8] := 64;
    out[9] := 1;
    forall k | 12 <= k < 16 { out[k] := pkt[k + 4]; }
    forall k | 16 <= k < 20 { out[k] := pkt[k - 4]; }
  }

  method FillV4Message(out: array<byte>, pkt: Packet, mtu: nat)
    requires QuotableV4(pkt) && out.Length == 28 + QuoteLen(pkt) && forall i :: 20 <= i < out.Length ==> out[i] == 0
    modifies out
    ensures out[..20] == old(out[..20]) && out[20..] == V4Message(pkt, mtu)
  {
    hide QuoteLen, Low16;
    out[20] := 3;
    out[21] := 4;
    var m := Low16(mtu);
    StoreBe16(out, 26, m);
    assert out[..][26] == m / 0x100 && out[..][27] == m % 0x100;
    forall k | 28 <= k < out.Length { out[k] := pkt[k - 28]; }
  }

  /** FragNeeded's IPv4 half, filling its reply buffer in place. */
  method BuildFragNeededV4(pkt: Packet, mtu: nat) returns (r: Packet)
    requires QuotableV4(pkt)
    ensures r == FragNeededV4(pkt, mtu)
  {
    hide Fold, WordSum, WithIcmpChecksum, WithIpChecksum, Put16, V4Header, V4Message;
    var quote := QuoteLen(pkt);
    var out := new byte[28 + quote](_ => 0);
    FillV4Header(out, pkt);
    FillV4Message(out, pkt, mtu);
    ghost var h, m := V4Header(pkt), V4Message(pkt, mtu);
    assert out[..] == out[..20] + out[20..];
    StoreChecksum(out, 0, 20, 10, 0);
    ChecksumLeft(h, m);
    StoreChecksum(out, 20, 28 + quote, 22, 0);
    ChecksumRight(WithIpChecksum(h, 20), m, 0);
    r := out[..];
  }

  /** The outer IPv6 header of the reply. */
  function V6Header(pkt: Packet): (r: Packet)
    requires QuotableV6(pkt)
    ensures |r| == 40
  {
    [0x60, 0, 0, 0] + Word(8 + QuoteLenV6(pkt)) + [58, 64] + pkt[24..40] + pkt[8..24]
  }

  method FillV6Header(out: array<byte>, pkt: Packet)
    requires QuotableV6(pkt) && out.Length == 48 + QuoteLenV6(pkt) && forall i :: 0 <= i < out.Length ==> out[i] == 0
    modifies out
    ensures out[..40] == V6Header(pkt) && forall i :: 40 <= i < out.Length ==> out[i] == 0
  {
    out[0] := 0x60;
    var len := out.Length - 40;
    StoreBe16(out, 4, len);
    assert out[..][4] == len / 0x100 && out[..][5] == len % 0x100;
    out[6] := 58;
    out[7] := 64;
    forall k | 8 <= k < 24 { out[k] := pkt[k + 16]; }
    forall k | 24 <= k < 40 { out[k] := pkt[k - 16]; }
  }

  method FillV6Message(out: array<byte>, pkt: Packet, mtu: nat)
    requires QuotableV6(pkt) && out.Length == 48 + QuoteLenV6(pkt) && forall i :: 40 <= i < out.Length ==> out[i] == 0
    modifies out
    ensures out[..40] == old(out[..40]) && out[40..] == V6Message(pkt, mtu)
  {
    hide Low32;
    out[40] := 2;
    var m := Low32(Max(mtu, MIN_IPV6_MTU));
    var hi, lo := m / 0x1_0000, m % 0x1_0000;
    StoreBe16(out, 44, hi);
    assert out[..][44] == hi / 0x100 && out[..][45] == hi % 0x100;
    StoreBe16(out, 46, lo);
    assert out[..][46] == lo / 0x100 && out[..][47] == lo % 0x100;
    assert out[..][44] == hi / 0x100 && out[..][45] == hi % 0x100;
    forall k | 48 <= k < out.Length { out[k] := pkt[k - 48]; }
  }

  /** fragNeededV6, with its pseudo-header buffer. */
  method BuildFragNeededV6(pkt: Packet, mtu: nat) returns (r: Packet)
    requires QuotableV6(pkt)
    ensures r == FragNeededV6(pkt, mtu)
  {
    hide Fold, WordSum, WithIcmpChecksum, Put16, V6Message, Word, Low32;
    var len := 8 + QuoteLenV6(pkt);
    var out := new byte[40 + len](_ => 0);
    FillV6Header(out, pkt);
    FillV6Message(out, pkt, mtu);
    ghost var h, msg := V6Header(pkt), V6Message(pkt, mtu);
    assert out[..] == out[..40] + out[40..];
    var pseudo := pkt[24..40] + pkt[8..24] + [0, 0] + Word(len) + [0, 0, 0, 58];
    WordSumBound(pseudo);
    NoOverflow(0, pseudo);
    Low32Id(WordSum(pseudo));
    var pre := ChecksumAccumulate(0, pseudo);
    StoreChecksum(out, 40, 40 + len, 42, pre);
    ChecksumRight(h, msg, pre);
    r := out[..];
  }
}
