/**
 The Internet checksum of section 1 of RFC 1071: the 32-bit accumulators of the
 offload code and of the ICMP code, carry folding, and the algebra modulo 65535
 every other module relies on.
 */
module Checksum {
  import opened Bytes

  /** The mathematical sum of b's big-endian 16-bit words, an odd last octet padded with zero. */
  function WordSum(b: Packet): (s: nat)
  {
    if |b| == 0 then 0
    else if |b| == 1 then b[0] as int * 0x100
    else Be16(b, 0) + WordSum(b[2..])
  }

  /** Folding carries back in until 16 bits remain. */
  function Fold(acc: nat): (r: u16)
  {
    if acc < 0x1_0000 then acc else Fold(acc % 0x1_0000 + acc / 0x1_0000)
  }

  /** Folding is reduction modulo 65535 that never turns a nonzero sum into zero. */
  lemma {:induction false} FoldIsResidue(acc: nat)
    ensures Fold(acc) == if acc == 0 then 0 else (acc - 1) % 65535 + 1
    decreases acc
  {
    if acc >= 0x1_0000 {
      var next := acc % 0x1_0000 + acc / 0x1_0000;
      FoldIsResidue(next);
      assert acc == next + 65535 * (acc / 0x1_0000);
      ShiftResidue(next - 1, acc / 0x1_0000);
    }
  }

  lemma ShiftResidue(a: nat, k: nat)
    ensures (a + 65535 * k) % 65535 == a % 65535
  {
    var q, m := a / 65535, a % 65535;
    assert a + 65535 * k == (q + k) * 65535 + m;
  }

  /** The same fact with the quotient named: the form the proofs use. */
  lemma FoldQuotient(acc: nat) returns (k: nat)
    ensures acc == Fold(acc) + 65535 * k
    ensures Fold(acc) == 0 <==> acc == 0
  {
    hide Fold;
    FoldIsResidue(acc);
    k := if acc == 0 then 0 else (acc - 1) / 65535;
  }

  /** And its converse: a decomposition with a nonzero 16-bit remainder is the fold. */
  lemma FoldUnique(r: nat, k: nat)
    requires 1 <= r <= 65535
    ensures Fold(r + 65535 * k) == r
  {
    hide Fold;
    FoldIsResidue(r + 65535 * k);
    ShiftResidue(r - 1, k);
    assert r + 65535 * k - 1 == r - 1 + 65535 * k;
  }

  /** A sum verifies exactly when it is a positive multiple of 65535. */
  lemma VerifiesIff(acc: nat)
    ensures Fold(acc) == 0xffff <==> acc > 0 && acc % 65535 == 0
  {
    FoldIsResidue(acc);
  }

  /** Rewriting one aligned word moves the sum by exactly the difference. */
  lemma {:induction false} WordSumPut(b: Packet, off: nat, v: u16)
    requires off % 2 == 0 && off + 2 <= |b|
    ensures WordSum(Put16(b, off, v)) == WordSum(b) - Be16(b, off) + v
    decreases off
  {
    var r := Put16(b, off, v);
    if off == 0 {
      assert r[2..] == b[2..];
    } else {
      assert r[2..] == Put16(b[2..], off - 2, v);
      WordSumPut(b[2..], off - 2, v);
    }
  }

  lemma {:induction false} WordSumBound(b: Packet)
    ensures WordSum(b) <= 65535 * ((|b| + 1) / 2)
    decreases |b|
  {
    if |b| >= 2 { WordSumBound(b[2..]); }
  }

  /** The 32-bit accumulator of any buffer an IP length field can describe, plus a pseudo-header, does not wrap. */
  lemma NoOverflow(acc: nat, b: Packet)
    requires acc <= 0x1000_0000 && |b| <= 0x1_0000
    ensures acc + WordSum(b) < 0x1_0000_0000
  {
    WordSumBound(b);
  }

  /** Storing the complement of the folded sum over a zeroed aligned word makes the whole verify. */
  lemma ComplementVerifies(pre: nat, b: Packet, off: nat)
    requires off % 2 == 0 && off + 2 <= |b| && Be16(b, off) == 0
    ensures Fold(pre + WordSum(Put16(b, off, 0xffff - Fold(pre + WordSum(b))))) == 0xffff
  {
    hide Fold, WordSum, Be16, Put16;
    var s := pre + WordSum(b);
    WordSumPut(b, off, 0xffff - Fold(s));
    var k := FoldQuotient(s);
    FoldUnique(65535, k);
  }

  /** The two encodings of one's-complement zero denote the same sum. */
  predicate SameChecksum(x: u16, y: u16) { x % 65535 == y % 65535 }

  /** A field that verifies is the recomputed complement, up to the encoding of zero; and conversely. */
  lemma VerifyingFieldIsComplement(s: nat, c: u16)
    requires s > 0
    ensures Fold(s + c) == 0xffff <==> SameChecksum(c, 0xffff - Fold(s))
  {
    hide Fold;
    var k := FoldQuotient(s);
    var f := Fold(s);
    if f + c == 65535 {
      FoldUnique(65535, k);
    } else if f + c < 65535 {
      FoldUnique(f + c, k);
    } else {
      FoldUnique(f + c - 65535, k + 1);
    }
  }

  /** Wrapping early or late leaves the same 32 bits. */
  lemma WrapStep(a: nat, w: nat, rest: nat)
    ensures Low32(Low32(a + w) + rest) == Low32(a + (w + rest))
  {
  }

  lemma Low32Id(a: u32)
    ensures Low32(a) == a
  {
  }

  /** onesComplementSum: consume the slice two octets at a time, on a wrapping 32-bit accumulator. */
  method OnesComplementSum(acc0: u32, b: Packet) returns (acc: u32)
    ensures acc == Low32(acc0 + WordSum(b))
  {
    hide Low32, Be16;
    acc := acc0;
    var rest := b;
    while |rest| >= 2
      invariant Low32(acc + WordSum(rest)) == Low32(acc0 + WordSum(b))
      decreases |rest|
    {
      WrapStep(acc, Be16(rest, 0), WordSum(rest[2..]));
      acc := Low32(acc + Be16(rest, 0));
      rest := rest[2..];
    }
    Low32Id(acc);
    if |rest| == 1 {
      acc := Low32(acc + rest[0] as int * 0x100);
    }
  }

  /** foldSum. */
  method FoldSum(acc0: u32) returns (r: u16)
    ensures r == Fold(acc0)
    ensures r == if acc0 == 0 then 0 else (acc0 - 1) % 65535 + 1
  {
    var acc: u32 := acc0;
    while acc / 0x1_0000 != 0
      invariant Fold(acc) == Fold(acc0)
      decreases acc
    {
      acc := acc % 0x1_0000 + acc / 0x1_0000;
    }
    FoldIsResidue(acc0);
    r := acc;
  }

  /** checksumAccumulate: the index-driven twin of OnesComplementSum, with the same result. */
  method ChecksumAccumulate(sum0: u32, b: Packet) returns (sum: u32)
    ensures sum == Low32(sum0 + WordSum(b))
  {
    hide Low32, Be16;
    sum := sum0;
    var i := 0;
    assert b[0..] == b;
    while i + 1 < |b|
      invariant 0 <= i <= |b| && i % 2 == 0
      invariant Low32(sum + WordSum(b[i..])) == Low32(sum0 + WordSum(b))
    {
      var rest := b[i..];
      assert rest[2..] == b[i + 2..];
      FirstWord(b, i);
      WrapStep(sum, Be16(b, i), WordSum(b[i + 2..]));
      sum := Low32(sum + Be16(b, i));
      i := i + 2;
    }
    Low32Id(sum);
    if |b| % 2 == 1 {
      assert b[i..] == [b[|b| - 1]];
      sum := Low32(sum + b[|b| - 1] as int * 0x100);
    }
  }

  lemma FirstWord(b: Packet, i: nat)
    requires i + 2 <= |b|
    ensures WordSum(b[i..]) == Be16(b, i) + WordSum(b[i + 2..])
  {
    assert b[i..][2..] == b[i + 2..];
  }

  /** checksumFold: the folded sum, complemented. */
  method ChecksumFold(sum0: u32) returns (r: u16)
    ensures r == 0xffff - Fold(sum0)
  {
    var sum: u32 := sum0;
    while sum / 0x1_0000 != 0
      invariant Fold(sum) == Fold(sum0)
      decreases sum
    {
      sum := sum % 0x1_0000 + sum / 0x1_0000;
    }
    r := 0xffff - sum;
  }
}
