/** The MAKE_IP_PARAMETERS macro: four address bytes packed into one 32-bit word. */
module IpParameters {

  /** Byte `i` of `w`, counting from the least-significant byte. */
  function ByteAt(w: bv32, i: nat): bv8
    requires i < 4
  {
    ((if i == 0 then w else if i == 1 then w >> 8 else if i == 2 then w >> 16 else w >> 24) & 0xFF) as bv8
  }

  /** `a` lands in bits 0-7, `b` in 8-15, `c` in 16-23 and `d` in 24-31. */
  function MakeIpParameters(a: bv8, b: bv8, c: bv8, d: bv8): (r: bv32)
    ensures ByteAt(r, 0) == a && ByteAt(r, 1) == b && ByteAt(r, 2) == c && ByteAt(r, 3) == d
  {
    ((d as bv32) << 24) | ((c as bv32) << 16) | ((b as bv32) << 8) | (a as bv32)
  }

  /** Packing the four bytes of any word gives that word back. */
  lemma MakeIpParametersOfBytes(w: bv32)
    ensures MakeIpParameters(ByteAt(w, 0), ByteAt(w, 1), ByteAt(w, 2), ByteAt(w, 3)) == w
  {
  }
}
