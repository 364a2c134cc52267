/** Big-endian integers at positions of a byte sequence. */
module Bytes {
  import opened Machine

  const TWO_16 := 0x1_0000
  const TWO_32 := 0x1_0000_0000
  const TWO_64 := 0x1_0000_0000_0000_0000

  function U16At(data: seq<Byte>, pos: nat): (n: nat)
    requires pos + 2 <= |data|
    ensures n < TWO_16
  {
    256 * (data[pos] as nat) + (data[pos + 1] as nat)
  }

  function U32At(data: seq<Byte>, pos: nat): (n: nat)
    requires pos + 4 <= |data|
    ensures n < TWO_32
  {
    U16At(data, pos) * TWO_16 + U16At(data, pos + 2)
  }

  function U64At(data: seq<Byte>, pos: nat): (n: nat)
    requires pos + 8 <= |data|
    ensures n < TWO_64
  {
    U32At(data, pos) * TWO_32 + U32At(data, pos + 4)
  }

  function Put16(n: nat): (bytes: seq<Byte>)
    ensures |bytes| == 2
  {
    [n / 256 % 256, n % 256]
  }

  function Put32(n: nat): (bytes: seq<Byte>)
    ensures |bytes| == 4
  {
    Put16(n / TWO_16) + Put16(n % TWO_16)
  }

  function Put64(n: nat): (bytes: seq<Byte>)
    ensures |bytes| == 8
  {
    Put32(n / TWO_32) + Put32(n % TWO_32)
  }

  /** A number is read where it is written, and only there. */
  lemma Read16(data: seq<Byte>, pos: nat, n: nat)
    requires pos + 2 <= |data| && n < TWO_16
    ensures data[pos..pos + 2] == Put16(n) <==> U16At(data, pos) == n
  {
    var part := data[pos..pos + 2];
    assert part == [data[pos], data[pos + 1]];
    assert part == Put16(n) <==> part[0] == n / 256 && part[1] == n % 256;
  }

  lemma Read32(data: seq<Byte>, pos: nat, n: nat)
    requires pos + 4 <= |data| && n < TWO_32
    ensures data[pos..pos + 4] == Put32(n) <==> U32At(data, pos) == n
  {
    Read16(data, pos, n / TWO_16);
    Read16(data, pos + 2, n % TWO_16);
    assert data[pos..pos + 4] == data[pos..pos + 2] + data[pos + 2..pos + 4];
    assert data[pos..pos + 4] == Put32(n) ==>
      data[pos..pos + 2] == Put32(n)[..2] == Put16(n / TWO_16) && data[pos + 2..pos + 4] == Put32(n)[2..] == Put16(n % TWO_16);
  }

  lemma Read64(data: seq<Byte>, pos: nat, n: nat)
    requires pos + 8 <= |data| && n < TWO_64
    ensures data[pos..pos + 8] == Put64(n) <==> U64At(data, pos) == n
  {
    Read32(data, pos, n / TWO_32);
    Read32(data, pos + 4, n % TWO_32);
    assert data[pos..pos + 8] == data[pos..pos + 4] + data[pos + 4..pos + 8];
    assert data[pos..pos + 8] == Put64(n) ==>
      data[pos..pos + 4] == Put64(n)[..4] == Put32(n / TWO_32) && data[pos + 4..pos + 8] == Put64(n)[4..] == Put32(n % TWO_32);
  }

  lemma Associative(a: seq<Byte>, b: seq<Byte>, c: seq<Byte>)
    ensures a + b + c == a + (b + c)
  {
  }

  /** The byte `k` places on. */
  function Digit(data: seq<Byte>, pos: nat, k: nat): nat
    requires pos + k < |data|
  {
    data[pos + k]
  }

  /** The first byte counts most. */
  lemma BigEndian(data: seq<Byte>, pos: nat)
    ensures pos + 2 <= |data| ==> U16At(data, pos) == 0x100 * Digit(data, pos, 0) + Digit(data, pos, 1)
    ensures pos + 4 <= |data| ==>
      (U32At(data, pos)
       == 0x100_0000 * Digit(data, pos, 0) + 0x1_0000 * Digit(data, pos, 1) + 0x100 * Digit(data, pos, 2)
          + Digit(data, pos, 3))
    ensures pos + 8 <= |data| ==>
      (U64At(data, pos)
       == 0x100_0000_0000_0000 * Digit(data, pos, 0) + 0x1_0000_0000_0000 * Digit(data, pos, 1)
          + 0x100_0000_0000 * Digit(data, pos, 2) + 0x1_0000_0000 * Digit(data, pos, 3)
          + 0x100_0000 * Digit(data, pos, 4) + 0x1_0000 * Digit(data, pos, 5)
          + 0x100 * Digit(data, pos, 6) + Digit(data, pos, 7))
  {
  }
}
