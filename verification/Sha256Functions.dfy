/**
 The functions of SHA-256 held against section 4.1.2 of FIPS 180-4, bit by bit.
 */
module Sha256Functions {
  import opened Sha256

  /** `Ch` is `y` where `x` has ones and `z` where it has zeros. */
  lemma ChBits(x: bv32, y: bv32, z: bv32)
    ensures Ch(x, y, z) & x == y & x && Ch(x, y, z) & !x == z & !x
  {
  }

  /** `Maj` is `x` where `x` and `y` agree, and `z` where they do not. */
  lemma MajBits(x: bv32, y: bv32, z: bv32)
    ensures Maj(x, y, z) & !(x ^ y) == x & !(x ^ y) && Maj(x, y, z) & (x ^ y) == z & (x ^ y)
  {
  }

  /** The four sigmas are sums of rotations and, in the schedule, a shift. */
  lemma SigmasAre(x: bv32)
    ensures BigSigma0(x) == x.RotateRight(2) ^ x.RotateRight(13) ^ x.RotateRight(22)
    ensures BigSigma1(x) == x.RotateRight(6) ^ x.RotateRight(11) ^ x.RotateRight(25)
    ensures LittleSigma0(x) == x.RotateRight(7) ^ x.RotateRight(18) ^ (x >> 3)
    ensures LittleSigma1(x) == x.RotateRight(17) ^ x.RotateRight(19) ^ (x >> 10)
  {
  }

  /** Rotating by one takes every bit one place down and the lowest to the top; sums go bit by bit. */
  lemma RotationBit(x: bv32, i: bv6)
    requires i < 32
    ensures (x.RotateRight(1) >> i) & 1 == (x >> ((i + 1) & 31)) & 1
  {
  }

  lemma SumBit(x: bv32, y: bv32, z: bv32, i: bv6)
    requires i < 32
    ensures ((x ^ y ^ z) >> i) & 1 == ((x >> i) & 1) ^ ((y >> i) & 1) ^ ((z >> i) & 1)
  {
  }
}
