/** What the byte fields of SHA-256 mean as numbers: FIPS 180-4, sections 3.1, 5.1.1 and 6.2.2. */
module Sha256Bytes {
  import opened Octets
  import opened Quotients
  import opened Sha256Spec
  import Sha256Words

  /** A word parsed from four bytes has their value. */
  lemma {:induction false} PackValue(a: bv8, b: bv8, c: bv8, d: bv8)
    ensures Sha256Words.Pack(a, b, c, d) as int == Value([a, b, c, d])
  {
    BitsOfFour(a, b, c, d, Sha256Words.Pack(a, b, c, d));
    ValueOfFour(a, b, c, d);
  }

  lemma {:induction false} PackOfBytes(x: Word)
    ensures var s := WordBytes(x); Sha256Words.Pack(s[0], s[1], s[2], s[3]) == x
  {
  }

  /** The four bytes of a word have its value. */
  lemma {:induction false} WordValue(x: Word)
    ensures Value(WordBytes(x)) == x as int
  {
    var s := WordBytes(x);
    PackOfBytes(x);
    PackValue(s[0], s[1], s[2], s[3]);
    assert s == [s[0], s[1], s[2], s[3]];
  }

  /** Word i of a block is the number that its bytes 4i to 4i + 3 spell. */
  lemma {:induction false} BlockWordValue(b: Block, i: nat)
    requires i < 16
    ensures WordAt(Sha256Words.Fips(), b, i) as int == Value(b[4 * i..4 * i + 4])
  {
    PackValue(b[4 * i], b[4 * i + 1], b[4 * i + 2], b[4 * i + 3]);
    assert b[4 * i..4 * i + 4] == [b[4 * i], b[4 * i + 1], b[4 * i + 2], b[4 * i + 3]];
  }

  /** Bytes 4i to 4i + 3 of the digest spell word i of the hash. */
  lemma {:induction false} DigestWordValue(h: seq<Word>, i: nat)
    requires i < |h|
    ensures Value(DigestBytes(h)[4 * i..4 * i + 4]) == h[i] as int
  {
    var front := h[..|h| - 1];
    if i < |front| {
      DigestWordValue(front, i);
      assert DigestBytes(h)[4 * i..4 * i + 4] == DigestBytes(front)[4 * i..4 * i + 4];
    } else {
      WordValue(h[i]);
      assert DigestBytes(h)[4 * i..4 * i + 4] == WordBytes(h[i]);
    }
  }

  lemma {:induction false} ByteOfValue(n: nat, i: nat)
    ensures ByteOf(n, i) as int == (n / Pow256(i)) % 256
  {
    ByteBack((n / Pow256(i)) % 256);
  }

  /** A number below 256 has one byte. */
  lemma {:induction false} SmallNumber(n: nat, i: nat, b: bv8)
    requires n < 256 && b as int == n
    ensures ByteOf(n, i) == if i == 0 then b else 0
  {
    ByteOfValue(n, i);
    if i == 0 {
      OneDigit(n);
      SameByte(ByteOf(n, i), b);
    } else {
      PowersAreLarge(i);
      NoDigit(n, Pow256(i));
      SameByte(ByteOf(n, i), 0);
    }
  }

  lemma {:induction false} PowersAreLarge(i: nat)
    requires i > 0
    ensures Pow256(i) >= 256
  {
    assert Pow256(i) == 256 * Pow256(i - 1);
  }

  /** One more byte of the length field. */
  lemma {:induction false} PrefixNext(n: nat, i: nat, front: nat)
    requires i < 8 && Value(LengthBytes(n)[..i]) == front
    ensures Value(LengthBytes(n)[..i + 1]) == 256 * front + (n / Pow256(7 - i)) % 256
  {
    ByteOfValue(n, 7 - i);
    ValueSnoc(LengthBytes(n)[..i], LengthBytes(n)[i]);
    assert LengthBytes(n)[..i + 1] == LengthBytes(n)[..i] + [LengthBytes(n)[i]];
  }

  /** The first i bytes of the length field spell what is above the others. */
  lemma {:induction false} LengthPrefix(n: nat, i: nat)
    requires n < Pow256(8) && i <= 8
    ensures Value(LengthBytes(n)[..i]) == n / Pow256(8 - i)
  {
    if i == 0 {
      QuotientIs(n, Pow256(8), 0, n);
    } else {
      LengthPrefix(n, i - 1);
      PrefixNext(n, i - 1, n / Pow256(9 - i));
      NextDigit(n, Pow256(8 - i));
    }
  }

  lemma {:induction false} EightBytes()
    ensures Pow256(8) == 0x1_0000_0000_0000_0000
  {
  }

  lemma {:induction false} WholeLength(n: nat, i: nat, p: nat)
    requires n < Pow256(8) && i == 8 && p == Pow256(8 - i)
    ensures p == 1 && Value(LengthBytes(n)) == n
  {
    LengthPrefix(n, i);
    assert LengthBytes(n)[..i] == LengthBytes(n);
    QuotientIs(n, p, n, 0);
  }

  /** The length field spells the number of bits, most significant byte first. */
  lemma {:induction false} LengthValue(n: nat)
    requires n < 0x1_0000_0000_0000_0000
    ensures Value(LengthBytes(n)) == n
  {
    EightBytes();
    WholeLength(n, 8, 1);
  }

  lemma {:induction false} ZerosAreZero(n: nat, j: nat)
    requires j < n
    ensures Zeros(n)[j] == 0
  {
    if j < n - 1 {
      ZerosAreZero(n - 1, j);
    }
  }

  /** What a padded message looks like: the message, the byte 0x80, zeros, and eight bytes that spell
      the number of bits of the message; in all a multiple of 64 bytes, and less than 73 more. */
  lemma {:induction false} PadShape(msg: seq<bv8>, j: nat)
    requires 8 * |msg| < 0x1_0000_0000_0000_0000
    ensures |Pad(msg)| % 64 == 0 && |msg| + 9 <= |Pad(msg)| <= |msg| + 72
    ensures Pad(msg)[..|msg|] == msg && Pad(msg)[|msg|] == 0x80
    ensures |msg| < j < |Pad(msg)| - 8 ==> Pad(msg)[j] == 0
    ensures Value(Pad(msg)[|Pad(msg)| - 8..]) == 8 * |msg|
  {
    LengthValue(8 * |msg|);
    assert Pad(msg)[|Pad(msg)| - 8..] == LengthBytes(8 * |msg|);
    if |msg| < j < |Pad(msg)| - 8 {
      ZerosAreZero(PadZeros(|msg|), j - |msg| - 1);
    }
  }
}
