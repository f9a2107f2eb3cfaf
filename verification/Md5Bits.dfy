/** The functions of RFC 1321, section 3.4, bit by bit, and the rotation. */
module Md5Bits {
  import opened Md5

  /** Where the bits of x are one, F has those of y. */
  lemma FOnes(x: Word, y: Word, z: Word, bits: Word)
    requires x & bits == bits
    ensures F(x, y, z) & bits == y & bits
  {
  }

  /** Where they are zero, those of z. */
  lemma FZeros(x: Word, y: Word, z: Word, bits: Word)
    requires x & bits == 0
    ensures F(x, y, z) & bits == z & bits
  {
  }

  /** Where the bits of z are one, G has those of x. */
  lemma GOnes(x: Word, y: Word, z: Word, bits: Word)
    requires z & bits == bits
    ensures G(x, y, z) & bits == x & bits
  {
  }

  lemma GZeros(x: Word, y: Word, z: Word, bits: Word)
    requires z & bits == 0
    ensures G(x, y, z) & bits == y & bits
  {
  }

  /** H has the bits of x where y and z agree, and the opposite ones where they differ. */
  lemma HAgree(x: Word, y: Word, z: Word, bits: Word)
    requires y & bits == z & bits
    ensures H(x, y, z) & bits == x & bits
  {
  }

  lemma HDiffer(x: Word, y: Word, z: Word, bits: Word)
    requires y & bits == !z & bits
    ensures H(x, y, z) & bits == !x & bits
  {
  }

  /** I has the bits of y where z has ones and x zeros, and the opposite ones elsewhere. */
  lemma ISame(x: Word, y: Word, z: Word, bits: Word)
    requires x & bits == 0 && z & bits == bits
    ensures I(x, y, z) & bits == y & bits
  {
  }

  lemma IOpposite(x: Word, y: Word, z: Word, bits: Word)
    requires (x | !z) & bits == bits
    ensures I(x, y, z) & bits == !y & bits
  {
  }

  /** F chooses by the bits of x between those of y and z, G by those of z between those of x and y; H counts
      ones; I has the opposite of y but where x has zeros and z ones. `bits` may be any one bit, or several. */
  lemma Mixes(x: Word, y: Word, z: Word, bits: Word)
    ensures x & bits == bits ==> F(x, y, z) & bits == y & bits
    ensures x & bits == 0 ==> F(x, y, z) & bits == z & bits
    ensures z & bits == bits ==> G(x, y, z) & bits == x & bits
    ensures z & bits == 0 ==> G(x, y, z) & bits == y & bits
    ensures y & bits == z & bits ==> H(x, y, z) & bits == x & bits
    ensures y & bits == !z & bits ==> H(x, y, z) & bits == !x & bits
    ensures x & bits == 0 && z & bits == bits ==> I(x, y, z) & bits == y & bits
    ensures (x | !z) & bits == bits ==> I(x, y, z) & bits == !y & bits
  {
    hide F, G, H, I;
    if x & bits == bits { FOnes(x, y, z, bits); }
    if x & bits == 0 { FZeros(x, y, z, bits); }
    if z & bits == bits { GOnes(x, y, z, bits); }
    if z & bits == 0 { GZeros(x, y, z, bits); }
    if y & bits == z & bits { HAgree(x, y, z, bits); }
    if y & bits == !z & bits { HDiffer(x, y, z, bits); }
    if x & bits == 0 && z & bits == bits { ISame(x, y, z, bits); }
    if (x | !z) & bits == bits { IOpposite(x, y, z, bits); }
  }

  // ---------- rotation ----------

  lemma Rotated4(x: Word)
    ensures RotateLeft(x, 4) & 0xf == x >> 28 && RotateLeft(x, 4) >> 4 == x & 0xfffffff
  {
  }

  lemma Rotated5(x: Word)
    ensures RotateLeft(x, 5) & 0x1f == x >> 27 && RotateLeft(x, 5) >> 5 == x & 0x7ffffff
  {
  }

  lemma Rotated6(x: Word)
    ensures RotateLeft(x, 6) & 0x3f == x >> 26 && RotateLeft(x, 6) >> 6 == x & 0x3ffffff
  {
  }

  lemma Rotated7(x: Word)
    ensures RotateLeft(x, 7) & 0x7f == x >> 25 && RotateLeft(x, 7) >> 7 == x & 0x1ffffff
  {
  }

  lemma Rotated9(x: Word)
    ensures RotateLeft(x, 9) & 0x1ff == x >> 23 && RotateLeft(x, 9) >> 9 == x & 0x7fffff
  {
  }

  lemma Rotated10(x: Word)
    ensures RotateLeft(x, 10) & 0x3ff == x >> 22 && RotateLeft(x, 10) >> 10 == x & 0x3fffff
  {
  }

  lemma Rotated11(x: Word)
    ensures RotateLeft(x, 11) & 0x7ff == x >> 21 && RotateLeft(x, 11) >> 11 == x & 0x1fffff
  {
  }

  lemma Rotated12(x: Word)
    ensures RotateLeft(x, 12) & 0xfff == x >> 20 && RotateLeft(x, 12) >> 12 == x & 0xfffff
  {
  }

  lemma Rotated14(x: Word)
    ensures RotateLeft(x, 14) & 0x3fff == x >> 18 && RotateLeft(x, 14) >> 14 == x & 0x3ffff
  {
  }

  lemma Rotated15(x: Word)
    ensures RotateLeft(x, 15) & 0x7fff == x >> 17 && RotateLeft(x, 15) >> 15 == x & 0x1ffff
  {
  }

  lemma Rotated16(x: Word)
    ensures RotateLeft(x, 16) & 0xffff == x >> 16 && RotateLeft(x, 16) >> 16 == x & 0xffff
  {
  }

  lemma Rotated17(x: Word)
    ensures RotateLeft(x, 17) & 0x1ffff == x >> 15 && RotateLeft(x, 17) >> 17 == x & 0x7fff
  {
  }

  lemma Rotated20(x: Word)
    ensures RotateLeft(x, 20) & 0xfffff == x >> 12 && RotateLeft(x, 20) >> 20 == x & 0xfff
  {
  }

  lemma Rotated21(x: Word)
    ensures RotateLeft(x, 21) & 0x1fffff == x >> 11 && RotateLeft(x, 21) >> 21 == x & 0x7ff
  {
  }

  lemma Rotated22(x: Word)
    ensures RotateLeft(x, 22) & 0x3fffff == x >> 10 && RotateLeft(x, 22) >> 22 == x & 0x3ff
  {
  }

  lemma Rotated23(x: Word)
    ensures RotateLeft(x, 23) & 0x7fffff == x >> 9 && RotateLeft(x, 23) >> 23 == x & 0x1ff
  {
  }

  /** A rotation by s brings the high s bits down and the others up by s, for each s of the four rounds. */
  lemma Rotates(x: Word)
    ensures RotateLeft(x, 4) & 0xf == x >> 28 && RotateLeft(x, 4) >> 4 == x & 0xfffffff
    ensures RotateLeft(x, 5) & 0x1f == x >> 27 && RotateLeft(x, 5) >> 5 == x & 0x7ffffff
    ensures RotateLeft(x, 6) & 0x3f == x >> 26 && RotateLeft(x, 6) >> 6 == x & 0x3ffffff
    ensures RotateLeft(x, 7) & 0x7f == x >> 25 && RotateLeft(x, 7) >> 7 == x & 0x1ffffff
    ensures RotateLeft(x, 9) & 0x1ff == x >> 23 && RotateLeft(x, 9) >> 9 == x & 0x7fffff
    ensures RotateLeft(x, 10) & 0x3ff == x >> 22 && RotateLeft(x, 10) >> 10 == x & 0x3fffff
    ensures RotateLeft(x, 11) & 0x7ff == x >> 21 && RotateLeft(x, 11) >> 11 == x & 0x1fffff
    ensures RotateLeft(x, 12) & 0xfff == x >> 20 && RotateLeft(x, 12) >> 12 == x & 0xfffff
    ensures RotateLeft(x, 14) & 0x3fff == x >> 18 && RotateLeft(x, 14) >> 14 == x & 0x3ffff
    ensures RotateLeft(x, 15) & 0x7fff == x >> 17 && RotateLeft(x, 15) >> 15 == x & 0x1ffff
    ensures RotateLeft(x, 16) & 0xffff == x >> 16 && RotateLeft(x, 16) >> 16 == x & 0xffff
    ensures RotateLeft(x, 17) & 0x1ffff == x >> 15 && RotateLeft(x, 17) >> 17 == x & 0x7fff
    ensures RotateLeft(x, 20) & 0xfffff == x >> 12 && RotateLeft(x, 20) >> 20 == x & 0xfff
    ensures RotateLeft(x, 21) & 0x1fffff == x >> 11 && RotateLeft(x, 21) >> 21 == x & 0x7ff
    ensures RotateLeft(x, 22) & 0x3fffff == x >> 10 && RotateLeft(x, 22) >> 22 == x & 0x3ff
    ensures RotateLeft(x, 23) & 0x7fffff == x >> 9 && RotateLeft(x, 23) >> 23 == x & 0x1ff
  {
    hide RotateLeft;
    Rotated4(x); Rotated5(x); Rotated6(x); Rotated7(x);
    Rotated9(x); Rotated10(x); Rotated11(x); Rotated12(x);
    Rotated14(x); Rotated15(x); Rotated16(x); Rotated17(x);
    Rotated20(x); Rotated21(x); Rotated22(x); Rotated23(x);
  }

  /** The registers start with the bytes 01 23 45 67 89 ab cd ef and the same backwards. */
  lemma InitBytes()
    ensures Output(Init()) == [0x01, 0x23, 0x45, 0x67, 0x89, 0xab, 0xcd, 0xef, 0xfe, 0xdc, 0xba, 0x98, 0x76, 0x54, 0x32, 0x10]
  {
  }
}
