/** Tables written sixteen entries a row. */
module TlshRows {

  predicate SixteenWide(rows: seq<seq<bv8>>) {
    |rows| == 16 && forall r :: 0 <= r < 16 ==> |rows[r]| == 16
  }

  function Flatten(rows: seq<seq<bv8>>): (v: seq<bv8>)
    requires SixteenWide(rows)
    ensures |v| == 256 && forall k :: 0 <= k < 256 ==> v[k] == rows[k / 16][k % 16]
  {
    seq(256, k requires 0 <= k < 256 => rows[k / 16][k % 16])
  }

  lemma {:induction false} DivMod(r: nat, c: nat)
    requires c < 16
    ensures (16 * r + c) / 16 == r && (16 * r + c) % 16 == c
  {
  }

  lemma {:induction false} FlatEntry(rows: seq<seq<bv8>>, r: nat, c: nat)
    requires SixteenWide(rows) && r < 16 && c < 16
    ensures Flatten(rows)[16 * r + c] == rows[r][c]
  {
    DivMod(r, c);
  }
}

/** The substitution table of the TLSH engine. */
module TlshTables {
  import opened TlshRows

  /** Pearson's sample permutation, sixteen entries a row. */
  const V_ROWS: seq<seq<bv8>> := [
    [1, 87, 49, 12, 176, 178, 102, 166, 121, 193, 6, 84, 249, 230, 44, 163],
    [14, 197, 213, 181, 161, 85, 218, 80, 64, 239, 24, 226, 236, 142, 38, 200],
    [110, 177, 104, 103, 141, 253, 255, 50, 77, 101, 81, 18, 45, 96, 31, 222],
    [25, 107, 190, 70, 86, 237, 240, 34, 72, 242, 20, 214, 244, 227, 149, 235],
    [97, 234, 57, 22, 60, 250, 82, 175, 208, 5, 127, 199, 111, 62, 135, 248],
    [174, 169, 211, 58, 66, 154, 106, 195, 245, 171, 17, 187, 182, 179, 0, 243],
    [132, 56, 148, 75, 128, 133, 158, 100, 130, 126, 91, 13, 153, 246, 216, 219],
    [119, 68, 223, 78, 83, 88, 201, 99, 122, 11, 92, 32, 136, 114, 52, 10],
    [138, 30, 48, 183, 156, 35, 61, 26, 143, 74, 251, 94, 129, 162, 63, 152],
    [170, 7, 115, 167, 241, 206, 3, 150, 55, 59, 151, 220, 90, 53, 23, 131],
    [125, 173, 15, 238, 79, 95, 89, 16, 105, 137, 225, 224, 217, 160, 37, 123],
    [118, 73, 2, 157, 46, 116, 9, 145, 134, 228, 207, 212, 202, 215, 69, 229],
    [27, 188, 67, 124, 168, 252, 42, 4, 29, 108, 21, 247, 19, 205, 39, 203],
    [233, 40, 186, 147, 198, 192, 155, 33, 164, 191, 98, 204, 165, 180, 117, 76],
    [140, 36, 210, 172, 41, 54, 159, 8, 185, 232, 113, 196, 231, 47, 146, 120],
    [51, 65, 28, 144, 254, 221, 93, 189, 194, 139, 112, 43, 71, 109, 184, 209]
  ]

  lemma {:induction false} RowsAreSixteenWide()
    ensures SixteenWide(V_ROWS)
  {
  }

  function VTable(): (v: seq<bv8>)
    ensures |v| == 256
  {
    RowsAreSixteenWide();
    Flatten(V_ROWS)
  }

  lemma {:induction false} Entry(v: seq<bv8>, r: nat, c: nat)
    requires v == VTable() && r < 16 && c < 16
    ensures SixteenWide(V_ROWS) && v[16 * r + c] == V_ROWS[r][c]
  {
    RowsAreSixteenWide();
    FlatEntry(V_ROWS, r, c);
  }
}

/** The six bucket hits and the checksum as the salted mapping that their constants were precomputed
    from. */
module TlshSalts {
  import opened Pearson
  import opened TlshStream

  /** Four lookups: the salt, and then the three bytes in turn. */
  function BMapping(v: Table, salt: nat, i: bv8, j: bv8, k: bv8): bv8
    requires salt < 256
  {
    FastBMapping(v, v[salt], i, j, k)
  }

  /** The table entries of the salts in use. */
  predicate Salted(v: Table) {
    v[0] == 1 && v[2] == 49 && v[3] == 12 && v[5] == 178 && v[7] == 166 && v[11] == 84 && v[13] == 230
  }

  /** A window hits one bucket for each pair of its four older bytes, with the newest in front; the
      salts are the first six primes. */
  lemma {:induction false} SixHitsAreSalted(v: Table, w: seq<bv8>)
    requires Salted(v) && |w| == 5
    ensures SixHits(v, w) ==
      [BMapping(v, 2, w[4], w[3], w[2]) as int, BMapping(v, 3, w[4], w[3], w[1]) as int,
       BMapping(v, 5, w[4], w[2], w[1]) as int, BMapping(v, 7, w[4], w[2], w[0]) as int,
       BMapping(v, 11, w[4], w[3], w[0]) as int, BMapping(v, 13, w[4], w[1], w[0]) as int]
  {
  }

  /** From the fifth byte on, each byte and the one before it are folded into the checksum with salt 0. */
  lemma {:induction false} ChecksumIsSalted(v: Table, data: seq<bv8>, x: bv8)
    requires Salted(v)
    ensures ChecksumOf(v, data + [x]) ==
              if |data| < 4 then 0 else BMapping(v, 0, x, data[|data| - 1], ChecksumOf(v, data))
  {
    assert (data + [x])[..|data|] == data;
  }
}

/** The salts and the counter wrap, with the real table. */
module TlshWrapWitness {
  import opened Pearson
  import opened TlshStream
  import opened TlshRows
  import opened TlshTables
  import opened TlshSalts
  import opened TlshWrap

  lemma {:induction false} PearsonIsSalted(v: Table)
    requires v == VTable()
    ensures Salted(v)
  {
    Entry(v, 0, 0);
    Entry(v, 0, 2);
    Entry(v, 0, 3);
    Entry(v, 0, 5);
    Entry(v, 0, 7);
    Entry(v, 0, 11);
    Entry(v, 0, 13);
  }

  lemma {:induction false} PearsonIsHot(v: Table)
    requires v == VTable()
    ensures HotTable(v)
  {
    Entry(v, 0, 2);
    Entry(v, 1, 7);
    Entry(v, 1, 10);
    Entry(v, 2, 0);
    Entry(v, 3, 15);
    Entry(v, 4, 14);
    Entry(v, 5, 10);
    Entry(v, 6, 1);
    Entry(v, 6, 5);
    Entry(v, 6, 7);
    Entry(v, 7, 6);
    Entry(v, 7, 11);
    Entry(v, 7, 15);
    Entry(v, 8, 10);
    Entry(v, 9, 8);
    Entry(v, 9, 11);
    Entry(v, 10, 8);
    Entry(v, 10, 13);
    Entry(v, 11, 0);
    Entry(v, 12, 13);
    Entry(v, 13, 3);
    Entry(v, 14, 4);
    Entry(v, 14, 13);
    Entry(v, 15, 0);
    Entry(v, 15, 6);
  }

  lemma {:induction false} PearsonPhases(v: Table)
    requires v == VTable()
    ensures HotPhases(v)
  {
    PearsonIsHot(v);
    TableIsHot(v);
  }
}
