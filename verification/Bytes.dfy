/** Octets, big-endian fields and the few bit operations the data plane performs on headers. */
module Bytes {

  type byte = x: int | 0 <= x < 0x100
  type u16 = x: int | 0 <= x < 0x1_0000
  type u32 = x: int | 0 <= x < 0x1_0000_0000

  type Packet = seq<byte>

  datatype Option<+T> = None | Some(value: T)

  /** uint16(x) and uint32(x): what a Go conversion or wrapping addition keeps. */
  function Low16(x: nat): (r: u16) { x % 0x1_0000 }

  function Low32(x: nat): (r: u32) { x % 0x1_0000_0000 }

  function Min(a: int, b: int): (r: int) { if a < b then a else b }

  function Max(a: int, b: int): (r: int) { if a < b then b else a }

  function Be16(b: Packet, off: nat): (r: u16)
    requires off + 2 <= |b|
  {
    b[off] as int * 0x100 + b[off + 1] as int
  }

  function Be32(b: Packet, off: nat): (r: u32)
    requires off + 4 <= |b|
  {
    Be16(b, off) * 0x1_0000 + Be16(b, off + 2)
  }

  function Put16(b: Packet, off: nat, v: u16): (r: Packet)
    requires off + 2 <= |b|
    ensures |r| == |b| && Be16(r, off) == v
    ensures forall i :: 0 <= i < |b| && i != off && i != off + 1 ==> r[i] == b[i]
  {
    b[off := v / 0x100][off + 1 := v % 0x100]
  }

  function Put32(b: Packet, off: nat, v: u32): (r: Packet)
    requires off + 4 <= |b|
    ensures |r| == |b| && Be32(r, off) == v
    ensures forall i :: 0 <= i < |b| && !(off <= i < off + 4) ==> r[i] == b[i]
  {
    Put16(Put16(b, off, v / 0x1_0000), off + 2, v % 0x1_0000)
  }

  /** A 16-bit field names its two octets uniquely, so equal fields mean equal octets. */
  lemma Be16Injective(a: Packet, b: Packet, i: nat, j: nat)
    requires i + 2 <= |a| && j + 2 <= |b|
    requires Be16(a, i) == Be16(b, j)
    ensures a[i] == b[j] && a[i + 1] == b[j + 1]
  {
  }

  lemma Be32Injective(a: Packet, b: Packet, i: nat, j: nat)
    requires i + 4 <= |a| && j + 4 <= |b|
    requires Be32(a, i) == Be32(b, j)
    ensures a[i..i + 4] == b[j..j + 4]
  {
    assert Be16(a, i) == Be16(b, j) && Be16(a, i + 2) == Be16(b, j + 2);
    Be16Injective(a, b, i, j);
    Be16Injective(a, b, i + 2, j + 2);
    assert a[i..i + 4] == [a[i], a[i + 1], a[i + 2], a[i + 3]];
    assert b[j..j + 4] == [b[j], b[j + 1], b[j + 2], b[j + 3]];
  }

  /** Writes v big-endian into a buffer in place. */
  method StoreBe16(a: array<byte>, off: nat, v: u16)
    requires off + 2 <= a.Length
    modifies a
    ensures a[..] == Put16(old(a[..]), off, v)
  {
    a[off] := v / 0x100;
    a[off + 1] := v % 0x100;
  }

  method StoreBe32(a: array<byte>, off: nat, v: u32)
    requires off + 4 <= a.Length
    modifies a
    ensures a[..] == Put32(old(a[..]), off, v)
  {
    StoreBe16(a, off, v / 0x1_0000);
    StoreBe16(a, off + 2, v % 0x1_0000);
  }
}
