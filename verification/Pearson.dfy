/** The salted three-byte mapping, over any 256-entry substitution table. */
module Pearson {

  type Table = t: seq<bv8> | |t| == 256 witness seq(256, _ => 0)

  /** The salt's own table lookup has already been done by the caller. */
  function FastBMapping(v: Table, ms: bv8, i: bv8, j: bv8, k: bv8): bv8 {
    v[(v[(v[(ms ^ i) as int] ^ j) as int] ^ k) as int]
  }
}
