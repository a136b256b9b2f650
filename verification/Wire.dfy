/** Big-endian 32-bit fields, as every header and integer goes on the wire. */
module Wire {
  import opened Basics

  function Pack32(x: nat32): (b: Bytes)
    ensures |b| == 4
  {
    [x / 0x100_0000 % 256, x / 0x1_0000 % 256, x / 0x100 % 256, x % 256]
  }

  function Unpack32(b: Bytes): (x: nat32)
    requires |b| == 4
  {
    b[0] as int * 0x100_0000 + b[1] as int * 0x1_0000 + b[2] as int * 0x100 + b[3] as int
  }

  lemma Pack32RoundTrip(x: nat32)
    ensures Unpack32(Pack32(x)) == x
  {
    Digit(x, x / 0x100, x % 0x100);
    Quotients(x);
  }

  lemma Digit(x: nat, q: nat, r: nat)
    requires q == x / 0x100 && r == x % 0x100
    ensures x == 0x100 * q + r
  {
  }

  /** Successive division by 256. */
  lemma Quotients(x: nat32)
    ensures x / 0x100 == 0x100 * (x / 0x1_0000) + x / 0x100 % 0x100
    ensures x / 0x1_0000 == 0x100 * (x / 0x100_0000) + x / 0x1_0000 % 0x100
    ensures x / 0x100_0000 % 0x100 == x / 0x100_0000
  {
    assert x / 0x1_0000 == x / 0x100 / 0x100;
    assert x / 0x100_0000 == x / 0x1_0000 / 0x100;
  }

  /** Any four bytes are the packing of what they read as. */
  lemma Unpack32RoundTrip(b: Bytes)
    requires |b| == 4
    ensures Pack32(Unpack32(b)) == b
  {
    var x: nat32 := Unpack32(b);
    var q1 := b[0] as int * 0x1_0000 + b[1] as int * 0x100 + b[2] as int;
    var q2 := b[0] as int * 0x100 + b[1] as int;
    LastDigit(x, q1, b[3]);
    LastDigit(q1, q2, b[2]);
    LastDigit(q2, b[0], b[1]);
    assert x / 0x1_0000 == x / 0x100 / 0x100;
    assert x / 0x100_0000 == x / 0x1_0000 / 0x100;
  }

  lemma LastDigit(x: nat, q: nat, r: Byte)
    requires x == 0x100 * q + r as int
    ensures x / 0x100 == q && x % 0x100 == r
  {
  }

  /** A message with its length in front, as the connection sends it. */
  function SetLength(m: Bytes): (p: Bytes)
    requires 4 <= |m| < WORD
    ensures |p| == |m|
  {
    Pack32(|m|) + m[4..]
  }

  lemma LengthInFront(m: Bytes)
    requires 4 <= |m| < WORD
    ensures Unpack32(SetLength(m)[..4]) == |m| && SetLength(m)[4..] == m[4..]
  {
    assert SetLength(m)[..4] == Pack32(|m|);
    Pack32RoundTrip(|m|);
  }
}
