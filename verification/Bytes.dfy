/** Bytes and the big-endian numbers of the wire formats. */
module Bytes {

  type Byte = x: int | 0 <= x < 256

  type Data = seq<Byte>

  lemma Assoc(a: Data, b: Data, c: Data)
    ensures (a + b) + c == a + (b + c)
  {
  }

  function U8(b: Byte): (n: nat)
    ensures n < 256
  {
    b
  }

  function U16(hi: Byte, lo: Byte): (n: nat)
    ensures n < 0x1_0000
  {
    256 * hi + lo
  }

  function Put16(n: nat): (b: Data)
    requires n < 0x1_0000
    ensures |b| == 2 && U16(b[0], b[1]) == n
  {
    [n / 256, n % 256]
  }

  function U24(a: Byte, b: Byte, c: Byte): (n: nat)
    ensures n < 0x100_0000
  {
    0x1_0000 * a + U16(b, c)
  }

  lemma Put16Of(hi: Byte, lo: Byte)
    ensures Put16(U16(hi, lo)) == [hi, lo]
  {
  }

  function U32(b: Data): (n: nat)
    requires |b| == 4
    ensures n < 0x1_0000_0000
  {
    0x1_0000 * U16(b[0], b[1]) + U16(b[2], b[3])
  }

  function Put32(n: nat): (b: Data)
    requires n < 0x1_0000_0000
    ensures |b| == 4 && U32(b) == n
  {
    Put16(n / 0x1_0000) + Put16(n % 0x1_0000)
  }

  function U64(b: Data): (n: nat)
    requires |b| == 8
    ensures n < 0x1_0000_0000_0000_0000
  {
    0x1_0000_0000 * U32(b[..4]) + U32(b[4..])
  }

  function Put64(n: nat): (b: Data)
    requires n < 0x1_0000_0000_0000_0000
    ensures |b| == 8 && U64(b) == n
  {
    var hi, lo := Put32(n / 0x1_0000_0000), Put32(n % 0x1_0000_0000);
    assert (hi + lo)[..4] == hi && (hi + lo)[4..] == lo;
    hi + lo
  }

  lemma Put32Of(b: Data)
    requires |b| == 4
    ensures Put32(U32(b)) == b
  {
    var hi, lo := U16(b[0], b[1]), U16(b[2], b[3]);
    assert U32(b) / 0x1_0000 == hi && U32(b) % 0x1_0000 == lo;
    Put16Of(b[0], b[1]);
    Put16Of(b[2], b[3]);
  }

  lemma Put64Of(b: Data)
    requires |b| == 8
    ensures Put64(U64(b)) == b
  {
    var hi, lo := U32(b[..4]), U32(b[4..]);
    assert U64(b) / 0x1_0000_0000 == hi && U64(b) % 0x1_0000_0000 == lo;
    Put32Of(b[..4]);
    Put32Of(b[4..]);
    assert b == b[..4] + b[4..];
  }

  // ---------------------------------------------------------------- exclusive or, bit by bit

  function Power2(n: nat): nat {
    if n == 0 then 1 else 2 * Power2(n - 1)
  }

  /** The lowest bit of the exclusive or. */
  function XorBit(a: nat, b: nat): (bit: nat)
    ensures bit < 2
  {
    if a % 2 == b % 2 then 0 else 1
  }

  function XorBits(n: nat, a: nat, b: nat): (x: nat)
    ensures x < Power2(n)
  {
    if n == 0 then 0 else XorBit(a, b) + 2 * XorBits(n - 1, a / 2, b / 2)
  }

  lemma XorBitTwice(a: nat, b: nat, high: nat)
    ensures var x := XorBit(a, b) + 2 * high; x / 2 == high && XorBit(x, b) == a % 2
  {
  }

  lemma {:induction false} XorBitsTwice(n: nat, a: nat, b: nat)
    requires a < Power2(n)
    ensures XorBits(n, XorBits(n, a, b), b) == a
  {
    if n > 0 {
      XorBitTwice(a, b, XorBits(n - 1, a / 2, b / 2));
      XorBitsTwice(n - 1, a / 2, b / 2);
    }
  }

  function Xor(a: Byte, b: Byte): Byte {
    assert Power2(8) == 256;
    XorBits(8, a, b)
  }

  lemma XorTwice(a: Byte, b: Byte)
    ensures Xor(Xor(a, b), b) == a
  {
    assert Power2(8) == 256;
    XorBitsTwice(8, a, b);
  }
}
