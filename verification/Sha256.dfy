/** SHA-256 as published: FIPS 180-4, sections 5.1.1, 5.2.1 and 6.2.2. The word operations and
    the constants are parameters here; Sha256Words supplies the standard's own. */
module Sha256Spec {

  const BLOCK := 64

  type Word = bv32
  type Words8 = h: seq<Word> | |h| == 8 witness seq(8, _ => 0)
  type Words64 = k: seq<Word> | |k| == 64 witness seq(64, _ => 0)
  type Block = b: seq<bv8> | |b| == BLOCK witness seq(BLOCK, _ => 0)

  datatype Params = Params(
    add: (Word, Word) -> Word,
    pack: (bv8, bv8, bv8, bv8) -> Word,
    ch: (Word, Word, Word) -> Word,
    maj: (Word, Word, Word) -> Word,
    bigSigma0: Word -> Word,
    bigSigma1: Word -> Word,
    smallSigma0: Word -> Word,
    smallSigma1: Word -> Word,
    k: Words64,
    h0: Words8)

  function Add4(add: (Word, Word) -> Word, a: Word, b: Word, c: Word, d: Word): Word {
    add(add(add(a, b), c), d)
  }

  // Section 5.2.1: a block is sixteen big-endian words.
  function WordAt(p: Params, b: Block, i: nat): Word
    requires i < 16
  {
    p.pack(b[4 * i], b[4 * i + 1], b[4 * i + 2], b[4 * i + 3])
  }

  /** The standard lists these four summands in the opposite order; see NextWordOrder. */
  function NextWord(p: Params, s: seq<Word>): Word
    requires |s| >= 16
  {
    var t := |s|;
    Add4(p.add, s[t - 16], p.smallSigma0(s[t - 15]), s[t - 7], p.smallSigma1(s[t - 2]))
  }

  lemma {:induction false} NextWordOrder(p: Params, s: seq<Word>)
    requires |s| >= 16 && forall a, b, c, d :: Add4(p.add, a, b, c, d) == Add4(p.add, d, c, b, a)
    ensures var t := |s|;
            NextWord(p, s) == Add4(p.add, p.smallSigma1(s[t - 2]), s[t - 7], p.smallSigma0(s[t - 15]), s[t - 16])
  {
  }

  // Section 6.2.2, step 1: the first t words of the message schedule.
  function Schedule(p: Params, b: Block, t: nat): (s: seq<Word>)
    ensures |s| == t
  {
    if t == 0 then []
    else if t <= 16 then Schedule(p, b, t - 1) + [WordAt(p, b, t - 1)]
    else Schedule(p, b, t - 1) + [NextWord(p, Schedule(p, b, t - 1))]
  }

  datatype Vars = Vars(a: Word, b: Word, c: Word, d: Word, e: Word, f: Word, g: Word, h: Word)

  // Section 6.2.2, step 3.
  function Round(p: Params, v: Vars, k: Word, w: Word): Vars {
    var t1 := p.add(Add4(p.add, v.h, p.bigSigma1(v.e), p.ch(v.e, v.f, v.g), k), w);
    var t2 := p.add(p.bigSigma0(v.a), p.maj(v.a, v.b, v.c));
    Vars(p.add(t1, t2), v.a, v.b, v.c, p.add(v.d, t1), v.e, v.f, v.g)
  }

  function Rounds(p: Params, w: seq<Word>, v: Vars, t: nat): Vars
    requires t <= |w| && t <= |p.k|
  {
    if t == 0 then v else Round(p, Rounds(p, w, v, t - 1), p.k[t - 1], w[t - 1])
  }

  function Open(h: Words8): Vars {
    Vars(h[0], h[1], h[2], h[3], h[4], h[5], h[6], h[7])
  }

  // Section 6.2.2, step 4.
  function AddBack(p: Params, h: Words8, v: Vars): Words8 {
    [p.add(h[0], v.a), p.add(h[1], v.b), p.add(h[2], v.c), p.add(h[3], v.d),
     p.add(h[4], v.e), p.add(h[5], v.f), p.add(h[6], v.g), p.add(h[7], v.h)]
  }

  function Compress(p: Params, h: Words8, b: Block): Words8 {
    AddBack(p, h, Rounds(p, Schedule(p, b, |p.k|), Open(h), |p.k|))
  }

  type Compression = (Words8, Block) -> Words8

  function CompressWith(p: Params): Compression {
    (h: Words8, b: Block) => Compress(p, h, b)
  }

  /** f is the compression of p. Only a mention of that compression brings f in. */
  ghost predicate Implements(f: Compression, p: Params) {
    forall h: Words8, b: Block {:trigger Compress(p, h, b)} :: f(h, b) == Compress(p, h, b)
  }

  /** Folding a compression over a whole number of blocks. */
  function Fold(f: Compression, h: Words8, data: seq<bv8>): Words8
    requires |data| % BLOCK == 0
  {
    if data == [] then h
    else f(Fold(f, h, data[..|data| - BLOCK]), data[|data| - BLOCK..])
  }

  function Zeros(n: nat): (z: seq<bv8>)
    ensures |z| == n
  {
    if n == 0 then [] else Zeros(n - 1) + [0]
  }

  /** How many zero bytes follow the 0x80 byte of an n-byte message. */
  function PadZeros(n: nat): (z: nat)
    ensures z < BLOCK && (n + 1 + z) % BLOCK == 56
  {
    (119 - n % BLOCK) % BLOCK
  }

  function Pow256(i: nat): (p: nat)
    ensures p > 0
  {
    if i == 0 then 1 else 256 * Pow256(i - 1)
  }

  /** The low 64 bits of n, big-endian. */
  function LengthBytes(n: nat): (s: seq<bv8>)
    ensures |s| == 8
  {
    seq(8, i requires 0 <= i < 8 => ByteOf(n, 7 - i))
  }

  function ByteOf(n: nat, i: nat): bv8 {
    ((n / Pow256(i)) % 256) as bv8
  }

  // Section 5.1.1.
  function Pad(msg: seq<bv8>): (p: seq<bv8>)
    ensures |p| % BLOCK == 0
  {
    msg + [0x80] + Zeros(PadZeros(|msg|)) + LengthBytes(8 * |msg|)
  }

  function WordBytes(x: Word): (s: seq<bv8>)
    ensures |s| == 4
  {
    [(x >> 24) as bv8, ((x >> 16) & 0xFF) as bv8, ((x >> 8) & 0xFF) as bv8, (x & 0xFF) as bv8]
  }

  function DigestBytes(h: seq<Word>): (s: seq<bv8>)
    ensures |s| == 4 * |h|
  {
    if h == [] then [] else DigestBytes(h[..|h| - 1]) + WordBytes(h[|h| - 1])
  }

  function Sha256(p: Params, msg: seq<bv8>): (s: seq<bv8>)
    ensures |s| == 32
  {
    DigestBytes(Fold(CompressWith(p), p.h0, Pad(msg)))
  }

  lemma {:induction false} PadQuotient(n: nat) returns (q: nat)
    ensures n + 1 + PadZeros(n) == 64 * q + 56
  {
    q := (n + 1 + PadZeros(n)) / BLOCK;
  }

  lemma {:induction false} BitQuotient(bits: nat) returns (m: nat)
    requires bits % 512 == 448
    ensures bits == 512 * m + 448
  {
    m := bits / 512;
  }

  /** The zero bits after the one bit are the fewest that complete 448 bits modulo 512. */
  lemma {:induction false} FewestZeroBits(n: nat, bits: nat)
    requires (8 * n + 1 + bits) % 512 == 448
    ensures 7 + 8 * PadZeros(n) <= bits
    ensures (8 * n + 1 + (7 + 8 * PadZeros(n))) % 512 == 448
  {
    var z := PadZeros(n);
    var q := PadQuotient(n);
    var m := BitQuotient(8 * n + 1 + bits);
    assert bits == 7 + 8 * z + 512 * (m - q);
    assert 8 * n + 1 + (7 + 8 * z) == 512 * q + 448;
  }
}

/** The standard's word operations and constants: FIPS 180-4, sections 3.2, 4.1.2, 4.2.2, 5.3.3. */
module Sha256Words {
  import opened Sha256Spec

  function Rotr(x: Word, n: bv6): Word
    requires 0 < n < 32
  {
    (x >> n) | (x << (32 - n))
  }

  function Add(x: Word, y: Word): Word { x + y }

  function Pack(a: bv8, b: bv8, c: bv8, d: bv8): Word {
    ((a as bv32) << 24) | ((b as bv32) << 16) | ((c as bv32) << 8) | (d as bv32)
  }

  function Ch(x: Word, y: Word, z: Word): Word { (x & y) ^ ((!x) & z) }

  function Maj(x: Word, y: Word, z: Word): Word { (x & y) ^ (x & z) ^ (y & z) }

  function BigSigma0(x: Word): Word { Rotr(x, 2) ^ Rotr(x, 13) ^ Rotr(x, 22) }

  function BigSigma1(x: Word): Word { Rotr(x, 6) ^ Rotr(x, 11) ^ Rotr(x, 25) }

  function SmallSigma0(x: Word): Word { Rotr(x, 7) ^ Rotr(x, 18) ^ (x >> 3) }

  function SmallSigma1(x: Word): Word { Rotr(x, 17) ^ Rotr(x, 19) ^ (x >> 10) }

  const K0: Words8 := [0x428a2f98, 0x71374491, 0xb5c0fbcf, 0xe9b5dba5, 0x3956c25b, 0x59f111f1, 0x923f82a4, 0xab1c5ed5]
  const K1: Words8 := [0xd807aa98, 0x12835b01, 0x243185be, 0x550c7dc3, 0x72be5d74, 0x80deb1fe, 0x9bdc06a7, 0xc19bf174]
  const K2: Words8 := [0xe49b69c1, 0xefbe4786, 0x0fc19dc6, 0x240ca1cc, 0x2de92c6f, 0x4a7484aa, 0x5cb0a9dc, 0x76f988da]
  const K3: Words8 := [0x983e5152, 0xa831c66d, 0xb00327c8, 0xbf597fc7, 0xc6e00bf3, 0xd5a79147, 0x06ca6351, 0x14292967]
  const K4: Words8 := [0x27b70a85, 0x2e1b2138, 0x4d2c6dfc, 0x53380d13, 0x650a7354, 0x766a0abb, 0x81c2c92e, 0x92722c85]
  const K5: Words8 := [0xa2bfe8a1, 0xa81a664b, 0xc24b8b70, 0xc76c51a3, 0xd192e819, 0xd6990624, 0xf40e3585, 0x106aa070]
  const K6: Words8 := [0x19a4c116, 0x1e376c08, 0x2748774c, 0x34b0bcb5, 0x391c0cb3, 0x4ed8aa4a, 0x5b9cca4f, 0x682e6ff3]
  const K7: Words8 := [0x748f82ee, 0x78a5636f, 0x84c87814, 0x8cc70208, 0x90befffa, 0xa4506ceb, 0xbef9a3f7, 0xc67178f2]

  function RoundConstants(): Words64 {
    K0 + K1 + K2 + K3 + K4 + K5 + K6 + K7
  }

  function InitialHash(): Words8 {
    [0x6a09e667, 0xbb67ae85, 0x3c6ef372, 0xa54ff53a, 0x510e527f, 0x9b05688c, 0x1f83d9ab, 0x5be0cd19]
  }

  function Fips(): Params {
    Params(Add, Pack, Ch, Maj, BigSigma0, BigSigma1, SmallSigma0, SmallSigma1, RoundConstants(), InitialHash())
  }

  lemma {:induction false} AddCommutes(x: Word, y: Word)
    ensures Add(x, y) == Add(y, x)
  {
  }

  lemma {:induction false} SumAssociates(x: Word, y: Word, z: Word)
    ensures (x + y) + z == x + (y + z)
  {
  }

  lemma {:induction false} AddAssociates(x: Word, y: Word, z: Word)
    ensures Add(Add(x, y), z) == Add(x, Add(y, z))
  {
    SumAssociates(x, y, z);
    assert Add(x, y) == x + y && Add(y, z) == y + z;
    assert Add(x + y, z) == (x + y) + z && Add(x, y + z) == x + (y + z);
  }

  ghost predicate Commutes<T(!new)>(add: (T, T) -> T) {
    forall x, y :: add(x, y) == add(y, x)
  }

  ghost predicate Associates<T(!new)>(add: (T, T) -> T) {
    forall x, y, z :: add(add(x, y), z) == add(x, add(y, z))
  }

  lemma {:induction false} Reorder<T(!new)>(add: (T, T) -> T, a: T, b: T, c: T, d: T)
    requires Commutes(add) && Associates(add)
    ensures add(add(add(a, b), c), d) == add(add(add(d, c), b), a)
  {
    assert add(d, add(c, add(b, a))) == add(add(d, c), add(b, a)) == add(add(add(d, c), b), a);
    assert add(add(a, b), c) == add(c, add(b, a));
  }

  /** Addition modulo 2^32 may be reordered, so the schedule is the standard's. */
  lemma {:induction false} FipsSums()
    ensures forall a, b, c, d :: Add4(Add, a, b, c, d) == Add4(Add, d, c, b, a)
  {
    forall x, y ensures Add(x, y) == Add(y, x) {
      AddCommutes(x, y);
    }
    forall x, y, z ensures Add(Add(x, y), z) == Add(x, Add(y, z)) {
      AddAssociates(x, y, z);
    }
    SumsReorder(Add);
  }

  lemma {:induction false} SumsReorder(add: (Word, Word) -> Word)
    requires Commutes(add) && Associates(add)
    ensures forall a, b, c, d :: Add4(add, a, b, c, d) == Add4(add, d, c, b, a)
  {
    forall a, b, c, d ensures Add4(add, a, b, c, d) == Add4(add, d, c, b, a) {
      Reorder(add, a, b, c, d);
    }
  }

  /** The rotation assembled from two shifts is the rotation of the word. */
  lemma {:induction false} RotrRotates(x: Word)
    ensures Rotr(x, 2) == x.RotateRight(2) && Rotr(x, 6) == x.RotateRight(6) && Rotr(x, 7) == x.RotateRight(7)
    ensures Rotr(x, 11) == x.RotateRight(11) && Rotr(x, 13) == x.RotateRight(13) && Rotr(x, 17) == x.RotateRight(17)
    ensures Rotr(x, 18) == x.RotateRight(18) && Rotr(x, 19) == x.RotateRight(19) && Rotr(x, 22) == x.RotateRight(22)
    ensures Rotr(x, 25) == x.RotateRight(25)
  {
  }
}

/** The streaming implementation: a 64-byte buffer filled across calls, and the padding done
    by feeding bytes through the same entry point. */
module Sha256Stream {
  import opened Sha256Spec
  import Seqs

  const U64 := 0x1_0000_0000_0000_0000

  method LoadWords(p: Params, block: Block, w: array<Word>)
    requires w.Length >= 16
    modifies w
    ensures w[..16] == Schedule(p, block, 16)
  {
    for i := 0 to 16
      invariant w[..i] == Schedule(p, block, i)
    {
      w[i] := p.pack(block[i * 4], block[i * 4 + 1], block[i * 4 + 2], block[i * 4 + 3]);
      assert w[..i + 1] == w[..i] + [w[i]];
    }
  }

  /** One more word of the schedule, from the sixteen before it. */
  method StoreNext(p: Params, w: array<Word>, i: nat)
    requires 16 <= i < w.Length
    modifies w
    ensures w[..i + 1] == old(w[..i]) + [NextWord(p, old(w[..i]))]
  {
    var s0 := p.smallSigma0(w[i - 15]);
    var s1 := p.smallSigma1(w[i - 2]);
    w[i] := p.add(p.add(p.add(w[i - 16], s0), w[i - 7]), s1);
  }

  method ExtendWords(p: Params, block: Block, w: array<Word>)
    requires w.Length >= 16 && w[..16] == Schedule(p, block, 16)
    modifies w
    ensures w[..] == Schedule(p, block, w.Length)
  {
    for i := 16 to w.Length
      invariant w[..i] == Schedule(p, block, i)
    {
      StoreNext(p, w, i);
    }
    assert w[..] == w[..w.Length];
  }

  method Expand(p: Params, block: Block) returns (w: array<Word>)
    ensures fresh(w) && w[..] == Schedule(p, block, |p.k|)
  {
    w := new Word[|p.k|];
    LoadWords(p, block, w);
    ExtendWords(p, block, w);
  }

  method RunRounds(p: Params, w: seq<Word>, v: Vars) returns (r: Vars)
    requires |w| == 64
    ensures r == Rounds(p, w, v, |p.k|)
  {
    var a, b, c, d, e, f, g, h := v.a, v.b, v.c, v.d, v.e, v.f, v.g, v.h;
    for i := 0 to |p.k|
      invariant Vars(a, b, c, d, e, f, g, h) == Rounds(p, w, v, i)
    {
      var s1 := p.bigSigma1(e);
      var ch := p.ch(e, f, g);
      var temp1 := p.add(p.add(p.add(p.add(h, s1), ch), p.k[i]), w[i]);
      var s0 := p.bigSigma0(a);
      var maj := p.maj(a, b, c);
      var temp2 := p.add(s0, maj);
      h := g;
      g := f;
      f := e;
      e := p.add(d, temp1);
      d := c;
      c := b;
      b := a;
      a := p.add(temp1, temp2);
    }
    r := Vars(a, b, c, d, e, f, g, h);
  }

  method Transform(p: Params, state: array<Word>, block: Block)
    requires state.Length == 8
    modifies state
    ensures state[..] == Compress(p, old(state[..]), block)
  {
    var w := Expand(p, block);
    var v := RunRounds(p, w[..], Open(state[..]));
    AddInto(p, state, v);
  }

  method AddFour(p: Params, state: array<Word>, at: nat, a: Word, b: Word, c: Word, d: Word)
    requires at + 4 <= state.Length
    modifies state
    ensures state[at..at + 4] == [p.add(old(state[at]), a), p.add(old(state[at + 1]), b),
                                  p.add(old(state[at + 2]), c), p.add(old(state[at + 3]), d)]
    ensures state[..at] == old(state[..at]) && state[at + 4..] == old(state[at + 4..])
  {
    state[at] := p.add(state[at], a);
    state[at + 1] := p.add(state[at + 1], b);
    state[at + 2] := p.add(state[at + 2], c);
    state[at + 3] := p.add(state[at + 3], d);
  }

  method AddInto(p: Params, state: array<Word>, v: Vars)
    requires state.Length == 8
    modifies state
    ensures state[..] == AddBack(p, old(state[..]), v)
  {
    AddFour(p, state, 0, v.a, v.b, v.c, v.d);
    assert state[4..8] == old(state[..])[4..8];
    assert forall k :: 4 <= k < 8 ==> state[4..8][k - 4] == old(state[k]);
    ghost var low := state[..4];
    AddFour(p, state, 4, v.e, v.f, v.g, v.h);
    assert state[..] == low + state[4..8];
  }

  lemma {:induction false} FoldSnoc(f: Compression, h: Words8, data: seq<bv8>, block: Block)
    requires |data| % BLOCK == 0
    ensures |data + block| % BLOCK == 0
    ensures Fold(f, h, data + block) == f(Fold(f, h, data), block)
  {
    assert (data + block)[..|data + block| - BLOCK] == data;
    assert (data + block)[|data + block| - BLOCK..] == block;
  }

  lemma {:induction false} BitsGrow(bitlen: nat, fed: seq<bv8>, piece: seq<bv8>)
    requires bitlen == Low64(8 * |fed|)
    ensures Low64(bitlen + 8 * |piece|) == Low64(8 * |fed + piece|)
  {
    Low64Add(8 * |fed|, 8 * |piece|);
  }

  method Copy(buffer: array<bv8>, at: nat, piece: seq<bv8>)
    requires at + |piece| <= buffer.Length
    modifies buffer
    ensures buffer[..at + |piece|] == old(buffer[..at]) + piece
  {
    forall k | 0 <= k < |piece| {
      buffer[at + k] := piece[k];
    }
  }

  /** The low 64 bits of a bit count. */
  function Low64(n: nat): nat {
    if n < U64 then n else Low64(n - U64)
  }

  lemma {:induction false} Low64Add(a: nat, b: nat)
    ensures Low64(Low64(a) + b) == Low64(a + b)
    decreases a
  {
    if a >= U64 {
      Low64Add(a - U64, b);
    }
  }

  /** The context. `fed` is every byte accepted, `done` those of the blocks compressed. */
  class Context {
    const p: Params
    ghost const f: Compression
    var state: array<Word>
    var bitlen: nat
    var buffer: array<bv8>
    var buflen: nat
    ghost var done: seq<bv8>
    ghost var fed: seq<bv8>

    ghost predicate Consistent()
      reads this, state, buffer
    {
      && Implements(f, p)
      && state.Length == 8 && buffer.Length == BLOCK && buflen <= BLOCK
      && |done| % BLOCK == 0
      && state[..] == Fold(f, p.h0, done)
      && fed == done + buffer[..buflen]
      && bitlen == Low64(8 * |fed|)
    }

    ghost predicate Valid()
      reads this, state, buffer
    {
      Consistent() && buflen < BLOCK
    }

    constructor (params: Params)
      ensures p == params && f == CompressWith(params) && Valid() && fed == [] && fresh(state) && fresh(buffer)
    {
      p := params;
      f := CompressWith(params);
      state := new Word[8](i requires 0 <= i < 8 => params.h0[i]);
      buffer := new bv8[BLOCK];
      bitlen, buflen, done, fed := 0, 0, [], [];
      new;
      assert state[..] == params.h0;
    }

    /** Copies a piece that fits into the buffer. */
    method Fill(piece: seq<bv8>)
      requires Consistent() && buflen + |piece| <= BLOCK
      modifies this, buffer
      ensures Consistent() && state == old(state) && buffer == old(buffer)
      ensures fed == old(fed) + piece
    {
      Copy(buffer, buflen, piece);
      BitsGrow(bitlen, fed, piece);
      Seqs.Assoc(done, old(buffer[..buflen]), piece);
      buflen := buflen + |piece|;
      fed := fed + piece;
      bitlen := Low64(bitlen + 8 * |piece|);
    }

    /** Compresses a full buffer. */
    method Flush()
      requires Consistent() && buflen == BLOCK
      modifies this, state
      ensures Valid() && state == old(state) && buffer == old(buffer)
      ensures fed == old(fed)
    {
      FoldSnoc(f, p.h0, done, buffer[..]);
      Transform(p, state, buffer[..]);
      done := done + buffer[..];
      buflen := 0;
    }

    method Absorb(piece: seq<bv8>)
      requires Valid() && buflen + |piece| <= BLOCK
      modifies this, state, buffer
      ensures Valid() && state == old(state) && buffer == old(buffer)
      ensures fed == old(fed) + piece
    {
      Fill(piece);
      if buflen == BLOCK {
        Flush();
      }
    }

    method Update(data: seq<bv8>)
      requires Valid()
      modifies this, state, buffer
      ensures Valid() && state == old(state) && buffer == old(buffer)
      ensures fed == old(fed) + data
    {
      var i: nat := 0;
      assert data[0..] == data;
      while i < |data|
        invariant i <= |data|
        invariant Valid() && state == old(state) && buffer == old(buffer)
        invariant fed + data[i..] == old(fed) + data
      {
        var take := if BLOCK - buflen > |data| - i then |data| - i else BLOCK - buflen;
        Seqs.SplitAt(fed, data[i..], take);
        assert data[i..][take..] == data[i + take..];
        Absorb(data[i..][..take]);
        i := i + take;
      }
      assert fed + [] == fed;
    }
  }

  // ----- finalization

  lemma {:induction false} Position(done: nat, buflen: nat)
    requires done % BLOCK == 0 && buflen < BLOCK
    ensures (done + buflen) % BLOCK == buflen
  {
  }

  /** The padding stops at the first count of zeros that reaches position 56, and no sooner. */
  lemma {:induction false} StopsAtPadding(n: nat, j: nat)
    requires j <= PadZeros(n)
    ensures (n + 1 + j) % BLOCK == 56 <==> j == PadZeros(n)
  {
    var z := PadZeros(n);
    assert z - j < BLOCK;
    if (n + 1 + j) % BLOCK == 56 {
      var q, r := (n + 1 + j) / BLOCK, (n + 1 + z) / BLOCK;
      assert z - j == BLOCK * (r - q);
    }
  }

  /** Position 56 of the buffer is reached exactly with the last zero. */
  lemma {:induction false} EightBytesLeft(done: nat, buflen: nat, n: nat, j: nat)
    requires done % BLOCK == 0 && buflen < BLOCK && done + buflen == n + 1 + j && j <= PadZeros(n)
    ensures buflen == 56 <==> j == PadZeros(n)
  {
    Position(done, buflen);
    StopsAtPadding(n, j);
  }

  /** One padding byte. */
  method FeedZero(c: Context, ghost start: seq<bv8>, ghost j: nat)
    requires c.Valid() && c.fed == start + Zeros(j)
    modifies c, c.state, c.buffer
    ensures c.Valid() && c.state == old(c.state) && c.buffer == old(c.buffer)
    ensures c.fed == start + Zeros(j + 1)
  {
    Seqs.Assoc(start, Zeros(j), [0]);
    c.Update([0]);
  }

  /** Zeros, fed until eight bytes are left in the buffer; `start` is an n-byte message and 0x80. */
  method FeedZeros(c: Context, ghost start: seq<bv8>, ghost n: nat)
    requires c.Valid() && c.fed == start && |start| == n + 1
    modifies c, c.state, c.buffer
    ensures c.Valid() && c.state == old(c.state) && c.buffer == old(c.buffer) && c.buflen == 56
    ensures c.fed == start + Zeros(PadZeros(n))
  {
    ghost var j: nat := 0;
    EightBytesLeft(|c.done|, c.buflen, n, j);
    while c.buflen != 56
      invariant j <= PadZeros(n) && (c.buflen == 56 <==> j == PadZeros(n))
      invariant c.Valid() && c.state == old(c.state) && c.buffer == old(c.buffer)
      invariant c.fed == start + Zeros(j)
      decreases PadZeros(n) - j
    {
      FeedZero(c, start, j);
      j := j + 1;
      assert |c.fed| == |c.done| + c.buflen;
      EightBytesLeft(|c.done|, c.buflen, n, j);
    }
  }

  /** The 0x80 byte and the zeros. */
  method PadContext(c: Context)
    requires c.Valid()
    modifies c, c.state, c.buffer
    ensures c.Valid() && c.state == old(c.state) && c.buffer == old(c.buffer) && c.buflen == 56
    ensures c.fed == old(c.fed) + [0x80] + Zeros(PadZeros(|old(c.fed)|))
  {
    ghost var fed := c.fed;
    c.Update([0x80]);
    FeedZeros(c, fed + [0x80], |fed|);
  }

  method LengthField(bitlen: nat) returns (lenbytes: seq<bv8>)
    ensures lenbytes == LengthBytes(bitlen)
  {
    lenbytes := [];
    for i := 0 to 8
      invariant |lenbytes| == i
      invariant forall k :: 0 <= k < i ==> lenbytes[k] == ByteOf(bitlen, 7 - k)
    {
      lenbytes := lenbytes + [ByteOf(bitlen, 7 - i)];
    }
  }

  method Serialize(state: seq<Word>) returns (digest: seq<bv8>)
    ensures digest == DigestBytes(state)
  {
    digest := [];
    assert state[..0] == [];
    for i := 0 to |state|
      invariant digest == DigestBytes(state[..i])
    {
      assert state[..i + 1][..i] == state[..i];
      digest := digest + WordBytes(state[i]);
    }
    assert state[..|state|] == state;
  }

  /** The digest of everything fed. The length field is the count saved before padding. */
  method Final(c: Context) returns (digest: seq<bv8>)
    requires c.Valid() && c.f == CompressWith(c.p) && 8 * |c.fed| < U64
    modifies c, c.state, c.buffer
    ensures digest == Sha256(c.p, old(c.fed))
  {
    ghost var msg := c.fed;
    var bitlen := c.bitlen;
    PadContext(c);
    var lenbytes := LengthField(bitlen);
    Copy(c.buffer, 56, lenbytes);
    ghost var block := c.buffer[..];
    assert block == c.buffer[..56 + |lenbytes|];
    assert c.done + block == Pad(msg) by {
      Seqs.Assoc(c.done, old(c.buffer)[..56], lenbytes);
    }
    FoldSnoc(c.f, c.p.h0, c.done, block);
    Transform(c.p, c.state, c.buffer[..]);
    digest := Serialize(c.state[..]);
  }

  /** Whatever the split into update calls, the digest is that of the concatenation. */
  method HashChunks(p: Params, chunks: seq<seq<bv8>>) returns (digest: seq<bv8>)
    requires 8 * |Seqs.Flatten(chunks)| < U64
    ensures digest == Sha256(p, Seqs.Flatten(chunks))
  {
    var c := new Context(p);
    for i := 0 to |chunks|
      invariant c.Valid() && fresh(c) && fresh(c.state) && fresh(c.buffer)
      invariant c.p == p && c.f == CompressWith(p)
      invariant c.fed == Seqs.Flatten(chunks[..i])
    {
      assert chunks[..i + 1][..i] == chunks[..i];
      c.Update(chunks[i]);
    }
    assert chunks[..|chunks|] == chunks;
    digest := Final(c);
  }
}
