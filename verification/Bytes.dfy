/**
 Octet strings and the fixed-width integer layouts the wire formats use.
 An octet is an integer in 0..255, so `as u16`, `to_be_bytes` and friends are
 written out as arithmetic.
 */
module Bytes {
  type Byte = b: int | 0 <= b < 256
  type Octets = seq<Byte>

  const U16_LIMIT: nat := 0x1_0000
  const U64_LIMIT: nat := 0x1_0000_0000_0000_0000

  function Zeros(n: nat): (z: Octets)
    ensures |z| == n
    ensures forall i :: 0 <= i < n ==> z[i] == 0
  {
    seq(n, _ => 0)
  }

  // ---- little endian u16 -------------------------------------------------

  /** `(n as u16).to_le_bytes()`: the cast keeps only the low 16 bits. */
  function U16Le(n: nat): Octets {
    [n % 256, (n / 256) % 256]
  }

  function FromU16Le(lo: Byte, hi: Byte): nat {
    lo + 256 * hi
  }

  lemma {:induction false} U16Remainder(n: nat, q: nat, r: nat)
    requires n == U16_LIMIT * q + r && r < U16_LIMIT
    ensures n % U16_LIMIT == r
  {
  }

  lemma {:induction false} U16LeTruncates(n: nat)
    ensures FromU16Le(U16Le(n)[0], U16Le(n)[1]) == n % U16_LIMIT
  {
    var lo, mid, hi := n % 256, (n / 256) % 256, n / 256 / 256;
    assert n / 256 == 256 * hi + mid;
    assert n == 256 * (256 * hi + mid) + lo;
    U16Remainder(n, hi, 256 * mid + lo);
  }

  // ---- big endian --------------------------------------------------------

  function Pow256(w: nat): (p: nat)
    ensures p > 0
  {
    if w == 0 then 1 else 256 * Pow256(w - 1)
  }

  /** The big-endian layout of `n` on exactly `w` octets. */
  function BigEndian(n: nat, w: nat): (b: Octets)
    ensures |b| == w
  {
    if w == 0 then [] else BigEndian(n / 256, w - 1) + [n % 256]
  }

  function FromBigEndian(b: Octets): nat {
    if b == [] then 0 else 256 * FromBigEndian(b[..|b| - 1]) + b[|b| - 1]
  }

  lemma {:induction false} BigEndianRoundTrip(n: nat, w: nat)
    requires n < Pow256(w)
    ensures FromBigEndian(BigEndian(n, w)) == n
  {
    if w > 0 {
      assert n / 256 < Pow256(w - 1);
      BigEndianRoundTrip(n / 256, w - 1);
      assert BigEndian(n, w)[..w - 1] == BigEndian(n / 256, w - 1);
    }
  }

  lemma {:induction false} FromBigEndianRoundTrip(b: Octets)
    ensures FromBigEndian(b) < Pow256(|b|)
    ensures BigEndian(FromBigEndian(b), |b|) == b
  {
    if b != [] {
      var front := b[..|b| - 1];
      FromBigEndianRoundTrip(front);
      assert FromBigEndian(b) / 256 == FromBigEndian(front);
    }
  }

  lemma {:induction false} WidthLimits()
    ensures Pow256(2) == U16_LIMIT
    ensures Pow256(8) == U64_LIMIT
  {
  }

  // ---- xor ---------------------------------------------------------------

  /** Bitwise exclusive or of the low `bits` bits. */
  function XorBits(a: nat, b: nat, bits: nat): (r: nat) {
    if bits == 0 then 0
    else (if a % 2 != b % 2 then 1 else 0) + 2 * XorBits(a / 2, b / 2, bits - 1)
  }

  lemma {:induction false} XorBitsFits(a: nat, b: nat, bits: nat, limit: nat)
    requires limit == Pow2(bits)
    ensures XorBits(a, b, bits) < limit
  {
    if bits > 0 {
      XorBitsFits(a / 2, b / 2, bits - 1, Pow2(bits - 1));
    }
  }

  function Pow2(n: nat): (p: nat)
    ensures p > 0
  {
    if n == 0 then 1 else 2 * Pow2(n - 1)
  }

  lemma {:induction false} XorBitsInvolutive(a: nat, b: nat, bits: nat)
    requires a < Pow2(bits)
    ensures XorBits(XorBits(a, b, bits), b, bits) == a
  {
    if bits > 0 {
      XorBitsInvolutive(a / 2, b / 2, bits - 1);
      var x := XorBits(a, b, bits);
      assert x / 2 == XorBits(a / 2, b / 2, bits - 1);
    }
  }

  function Xor(a: Byte, b: Byte): Byte {
    assert Pow2(8) == 256 by {
      assert Pow2(4) == 16;
      assert Pow2(8) == 16 * Pow2(4);
    }
    XorBitsFits(a, b, 8, 256);
    XorBits(a, b, 8)
  }

  lemma {:induction false} XorInvolutive(a: Byte, b: Byte)
    ensures Xor(Xor(a, b), b) == a
  {
    assert Pow2(4) == 16;
    assert Pow2(8) == 16 * Pow2(4);
    XorBitsInvolutive(a, b, 8);
  }
}
