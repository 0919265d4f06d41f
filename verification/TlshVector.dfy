/** Known answers: the three digests of the repository's own test, their bytes as the reader finds
    them, and the two scores that were taken from the original library. */
module TlshVector {
  import opened Options
  import opened Text
  import opened TlshCodec
  import opened TlshDistance

  // ----- sixteen characters at a time

  predicate SpellsByte(hi: char, lo: char, x: bv8) {
    IsHex(hi) && IsHex(lo) && JoinNibbles(hi, lo) == x
  }

  predicate SpellsAt(p: string, x: seq<bv8>, i: nat)
    requires |p| == 16 && |x| == 8 && i < 8
  {
    x[7 - i] >> 4 < 16 && p[2 * i] == HexChar(x[7 - i] >> 4) && p[2 * i + 1] == HexChar(x[7 - i] & 0x0F)
  }

  /** Sixteen characters that spell eight bytes, the last byte first. */
  predicate Spells(p: string, x: seq<bv8>) {
    && |p| == 16 && |x| == 8
    && SpellsAt(p, x, 0) && SpellsAt(p, x, 1) && SpellsAt(p, x, 2) && SpellsAt(p, x, 3)
    && SpellsAt(p, x, 4) && SpellsAt(p, x, 5) && SpellsAt(p, x, 6) && SpellsAt(p, x, 7)
  }

  ghost predicate AllSpelled(p: string, x: seq<bv8>) {
    |p| == 16 && |x| == 8 && forall i: nat :: i < 8 ==> SpellsAt(p, x, i)
  }

  ghost predicate PieceAt(s: string, at: nat, x: seq<bv8>) {
    at + 16 <= |s| && AllSpelled(s[at..at + 16], x)
  }

  lemma {:induction false} SpelledPiece(p: string, x: seq<bv8>)
    requires Spells(p, x)
    ensures AllSpelled(p, x)
  {
    forall i: nat | i < 8 ensures SpellsAt(p, x, i) {
      assert i == 0 || i == 1 || i == 2 || i == 3 || i == 4 || i == 5 || i == 6 || i == 7;
    }
  }

  /** The head: three bytes whose nibbles are swapped. */
  predicate Heads(p: string, d: Digest) {
    && |p| == 6 && Canonical(d)
    && SpellsByte(p[1], p[0], d.checksum) && SpellsByte(p[3], p[2], d.lvalue)
    && SpellsByte('0', p[4], d.q1ratio) && SpellsByte('0', p[5], d.q2ratio)
  }

  lemma {:induction false} SwappedPair(hi: char, lo: char, x: bv8)
    requires SpellsByte(lo, hi, x)
    ensures IsHex(hi) && IsHex(lo) && SwapByte(JoinNibbles(hi, lo)) == x
  {
    HexCharOfNibble(hi);
    HexCharOfNibble(lo);
    SwapBits(HexNibble(hi), HexNibble(lo));
  }

  lemma {:induction false} SwapBits(h: bv8, l: bv8)
    requires h < 16 && l < 16
    ensures SwapByte((h << 4) | l) == (l << 4) | h
  {
  }

  lemma {:induction false} RatioPair(hi: char, lo: char, q: bv8, p: bv8)
    requires SpellsByte('0', hi, q) && SpellsByte('0', lo, p)
    ensures IsHex(hi) && IsHex(lo)
    ensures LowNibble(SwapByte(JoinNibbles(hi, lo))) == q && HighNibble(SwapByte(JoinNibbles(hi, lo))) == p
  {
    HexCharOfNibble(hi);
    HexCharOfNibble(lo);
    RatioBits(HexNibble(hi), HexNibble(lo));
  }

  lemma {:induction false} RatioBits(h: bv8, l: bv8)
    requires h < 16 && l < 16
    ensures (0 << 4) | h == h && (0 << 4) | l == l
    ensures LowNibble(SwapByte((h << 4) | l)) == h && HighNibble(SwapByte((h << 4) | l)) == l
  {
  }

  lemma {:induction false} HeadIs(s: string, d: Digest)
    requires IsDigestText(s) && Heads(s[..6], d)
    ensures var raw := RawOf(s);
      && SwapByte(raw[0]) == d.checksum && SwapByte(raw[1]) == d.lvalue
      && LowNibble(SwapByte(raw[2])) == d.q1ratio && HighNibble(SwapByte(raw[2])) == d.q2ratio
  {
    SwappedPair(s[0], s[1], d.checksum);
    SwappedPair(s[2], s[3], d.lvalue);
    RatioPair(s[4], s[5], d.q1ratio, d.q2ratio);
  }

  /** A text of a head and four pieces is read as the digest they spell, its body back to front. */
  lemma {:induction false} TextIs(s: string, d: Digest, a: seq<bv8>, b: seq<bv8>, c: seq<bv8>, e: seq<bv8>)
    requires |s| == 70 && Heads(s[..6], d) && d.code == a + b + c + e
    requires PieceAt(s, 6, e) && PieceAt(s, 22, c) && PieceAt(s, 38, b) && PieceAt(s, 54, a)
    ensures Decode(s) == Some(d)
  {
    TextIsHex(s, d, a, b, c, e);
    HeadIs(s, d);
    var raw := RawOf(s);
    forall i | 0 <= i < 32 ensures Reversed(raw[3..])[i] == d.code[i] {
      BodyByte(s, a, b, c, e, i);
    }
    assert Reversed(raw[3..]) == d.code;
  }

  lemma {:induction false} PieceByte(s: string, at: nat, x: seq<bv8>, i: nat)
    requires PieceAt(s, at, x) && i < 8
    ensures SpellsByte(s[at + 2 * i], s[at + 2 * i + 1], x[7 - i])
  {
    assert SpellsAt(s[at..at + 16], x, i);
    ByteToTextToByte(x[7 - i]);
    assert s[at..at + 16][2 * i] == s[at + 2 * i] && s[at..at + 16][2 * i + 1] == s[at + 2 * i + 1];
  }

  lemma {:induction false} FourPieces(a: seq<bv8>, b: seq<bv8>, c: seq<bv8>, e: seq<bv8>, i: nat)
    requires |a| == 8 && |b| == 8 && |c| == 8 && |e| == 8 && i < 32
    ensures (a + b + c + e)[i] ==
              if i < 8 then a[i] else if i < 16 then b[i - 8] else if i < 24 then c[i - 16] else e[i - 24]
  {
  }

  lemma {:induction false} BodyByte(s: string, a: seq<bv8>, b: seq<bv8>, c: seq<bv8>, e: seq<bv8>, i: nat)
    requires |s| == 70 && i < 32
    requires PieceAt(s, 6, e) && PieceAt(s, 22, c) && PieceAt(s, 38, b) && PieceAt(s, 54, a)
    ensures SpellsByte(s[68 - 2 * i], s[69 - 2 * i], (a + b + c + e)[i])
  {
    FourPieces(a, b, c, e, i);
    if i < 8 {
      PieceByte(s, 54, a, 7 - i);
    } else if i < 16 {
      PieceByte(s, 38, b, 15 - i);
    } else if i < 24 {
      PieceByte(s, 22, c, 23 - i);
    } else {
      PieceByte(s, 6, e, 31 - i);
    }
  }

  lemma {:induction false} TextIsHex(s: string, d: Digest, a: seq<bv8>, b: seq<bv8>, c: seq<bv8>, e: seq<bv8>)
    requires |s| == 70 && Heads(s[..6], d)
    requires PieceAt(s, 6, e) && PieceAt(s, 22, c) && PieceAt(s, 38, b) && PieceAt(s, 54, a)
    ensures IsDigestText(s)
  {
    forall k | 0 <= k < 70 ensures IsHex(s[k]) {
      if k < 6 {
        assert s[k] == s[..6][k];
      } else {
        BodyByte(s, a, b, c, e, 34 - k / 2);
      }
    }
  }

  // ----- eight bytes at a time

  lemma {:induction false} BodySnoc(x: seq<bv8>, y: seq<bv8>, a: bv8, b: bv8)
    requires |x| == |y|
    ensures BodyDiff(x + [a], y + [b]) == BodyDiff(x, y) + ByteDiff(a, b)
  {
    assert (x + [a])[..|x|] == x && (y + [b])[..|y|] == y;
  }

  lemma {:induction false} BodyFour(x: seq<bv8>, y: seq<bv8>)
    requires |x| == 4 && |y| == 4
    ensures BodyDiff(x, y) == ByteDiff(x[0], y[0]) + ByteDiff(x[1], y[1]) + ByteDiff(x[2], y[2]) + ByteDiff(x[3], y[3])
  {
    assert x[..4] == x && y[..4] == y;
    for n := 0 to 4
      invariant BodyDiff(x[..n], y[..n]) ==
                  (if n > 0 then ByteDiff(x[0], y[0]) else 0) + (if n > 1 then ByteDiff(x[1], y[1]) else 0)
                  + (if n > 2 then ByteDiff(x[2], y[2]) else 0) + (if n > 3 then ByteDiff(x[3], y[3]) else 0)
    {
      BodySnoc(x[..n], y[..n], x[n], y[n]);
      assert x[..n + 1] == x[..n] + [x[n]] && y[..n + 1] == y[..n] + [y[n]];
    }
  }

  lemma {:induction false} BodyConcat(x: seq<bv8>, y: seq<bv8>, u: seq<bv8>, v: seq<bv8>)
    requires |x| == |y| && |u| == |v|
    ensures BodyDiff(x + u, y + v) == BodyDiff(x, y) + BodyDiff(u, v)
  {
    var n := |u|;
    if n == 0 {
      assert x + u == x && y + v == y;
    } else {
      assert u == u[..n - 1] + [u[n - 1]] && v == v[..n - 1] + [v[n - 1]];
      assert x + u == x + u[..n - 1] + [u[n - 1]] && y + v == y + v[..n - 1] + [v[n - 1]];
      BodyConcat(x, y, u[..n - 1], v[..n - 1]);
      BodySnoc(x + u[..n - 1], y + v[..n - 1], u[n - 1], v[n - 1]);
    }
  }

  // ----- the three digests

  const A0: seq<bv8> := [0xb5, 0x06, 0xcf, 0x34, 0x17, 0x5c, 0x20, 0x83]
  const A1: seq<bv8> := [0x51, 0x74, 0x50, 0x30, 0xf6, 0x13, 0x53, 0x04]
  const A2: seq<bv8> := [0x8a, 0xec, 0xd1, 0x72, 0x75, 0x5e, 0x43, 0x0c]
  const A3: seq<bv8> := [0x04, 0xe9, 0x16, 0x95, 0x11, 0x65, 0xf6, 0xc4]
  const B0: seq<bv8> := [0xfa, 0x47, 0xcf, 0x34, 0x27, 0x5c, 0x20, 0x93]
  const B1: seq<bv8> := [0x91, 0x78, 0x50, 0x31, 0xfb, 0x13, 0xa3, 0x48]
  const B2: seq<bv8> := [0x9a, 0xfc, 0xd2, 0xb2, 0x75, 0x9e, 0x43, 0x0d]
  const B3: seq<bv8> := [0x08, 0xea, 0x1a, 0x96, 0x15, 0x69, 0xf6, 0xc5]
  const C0: seq<bv8> := [0x26, 0x67, 0x53, 0x48, 0x20, 0x01, 0x48, 0x9f]
  const C1: seq<bv8> := [0xc5, 0xe6, 0xa9, 0x5e, 0xdb, 0x35, 0x0a, 0x20]
  const C2: seq<bv8> := [0x72, 0x58, 0xe9, 0x6f, 0x69, 0x69, 0xf2, 0xfe]
  const C3: seq<bv8> := [0x30, 0x93, 0x7e, 0x64, 0x5b, 0x4d, 0x83, 0x3c]

  function TextA(): string {
    "6DF023" + "C4F665119516E904" + "0C435E7572D1EC8A" + "045313F630507451" + "83205C1734CF06B5"
  }

  function DigestA(): Digest {
    Digest(214, 15, 2, 3, A0 + A1 + A2 + A3)
  }

  function TextB(): string {
    "BFF0FE" + "C5F66915961AEA08" + "0D439E75B2D2FC9A" + "48A313FB31507891" + "93205C2734CF47FA"
  }

  function DigestB(): Digest {
    Digest(251, 15, 15, 14, B0 + B1 + B2 + B3)
  }

  function TextC(): string {
    "8901AB" + "3C834D5B647E9330" + "FEF269696FE95872" + "200A35DB5EA9E6C5" + "9F48012048536726"
  }

  function DigestC(): Digest {
    Digest(152, 16, 10, 11, C0 + C1 + C2 + C3)
  }

  lemma {:induction false} ReadsParts(s: string, d: Digest, h: string, p: string, q: string, r: string, t: string,
                                      a: seq<bv8>, b: seq<bv8>, c: seq<bv8>, e: seq<bv8>)
    requires s == h + p + q + r + t && Heads(h, d) && d.code == a + b + c + e
    requires AllSpelled(p, e) && AllSpelled(q, c) && AllSpelled(r, b) && AllSpelled(t, a)
    ensures Decode(s) == Some(d)
  {
    assert s[..6] == h && s[6..22] == p && s[22..38] == q && s[38..54] == r && s[54..70] == t;
    TextIs(s, d, a, b, c, e);
  }

  lemma {:induction false} SpellsA0()
    ensures AllSpelled("83205C1734CF06B5", A0)
  {
    SpelledPiece("83205C1734CF06B5", A0);
  }

  lemma {:induction false} SpellsA1()
    ensures AllSpelled("045313F630507451", A1)
  {
    SpelledPiece("045313F630507451", A1);
  }

  lemma {:induction false} SpellsA2()
    ensures AllSpelled("0C435E7572D1EC8A", A2)
  {
    SpelledPiece("0C435E7572D1EC8A", A2);
  }

  lemma {:induction false} SpellsA3()
    ensures AllSpelled("C4F665119516E904", A3)
  {
    SpelledPiece("C4F665119516E904", A3);
  }

  lemma {:induction false} HeadA()
    ensures Heads("6DF023", DigestA())
  {
  }

  lemma {:induction false} ReadsA()
    ensures Decode(TextA()) == Some(DigestA())
  {
    HeadA();
    SpellsA0();
    SpellsA1();
    SpellsA2();
    SpellsA3();
    ReadsParts(TextA(), DigestA(), "6DF023", "C4F665119516E904", "0C435E7572D1EC8A",
               "045313F630507451", "83205C1734CF06B5", A0, A1, A2, A3);
  }

  lemma {:induction false} SpellsB0()
    ensures AllSpelled("93205C2734CF47FA", B0)
  {
    SpelledPiece("93205C2734CF47FA", B0);
  }

  lemma {:induction false} SpellsB1()
    ensures AllSpelled("48A313FB31507891", B1)
  {
    SpelledPiece("48A313FB31507891", B1);
  }

  lemma {:induction false} SpellsB2()
    ensures AllSpelled("0D439E75B2D2FC9A", B2)
  {
    SpelledPiece("0D439E75B2D2FC9A", B2);
  }

  lemma {:induction false} SpellsB3()
    ensures AllSpelled("C5F66915961AEA08", B3)
  {
    SpelledPiece("C5F66915961AEA08", B3);
  }

  lemma {:induction false} HeadB()
    ensures Heads("BFF0FE", DigestB())
  {
  }

  lemma {:induction false} ReadsB()
    ensures Decode(TextB()) == Some(DigestB())
  {
    HeadB();
    SpellsB0();
    SpellsB1();
    SpellsB2();
    SpellsB3();
    ReadsParts(TextB(), DigestB(), "BFF0FE", "C5F66915961AEA08", "0D439E75B2D2FC9A",
               "48A313FB31507891", "93205C2734CF47FA", B0, B1, B2, B3);
  }

  lemma {:induction false} SpellsC0()
    ensures AllSpelled("9F48012048536726", C0)
  {
    SpelledPiece("9F48012048536726", C0);
  }

  lemma {:induction false} SpellsC1()
    ensures AllSpelled("200A35DB5EA9E6C5", C1)
  {
    SpelledPiece("200A35DB5EA9E6C5", C1);
  }

  lemma {:induction false} SpellsC2()
    ensures AllSpelled("FEF269696FE95872", C2)
  {
    SpelledPiece("FEF269696FE95872", C2);
  }

  lemma {:induction false} SpellsC3()
    ensures AllSpelled("3C834D5B647E9330", C3)
  {
    SpelledPiece("3C834D5B647E9330", C3);
  }

  lemma {:induction false} HeadC()
    ensures Heads("8901AB", DigestC())
  {
  }

  lemma {:induction false} ReadsC()
    ensures Decode(TextC()) == Some(DigestC())
  {
    HeadC();
    SpellsC0();
    SpellsC1();
    SpellsC2();
    SpellsC3();
    ReadsParts(TextC(), DigestC(), "8901AB", "3C834D5B647E9330", "FEF269696FE95872",
               "200A35DB5EA9E6C5", "9F48012048536726", C0, C1, C2, C3);
  }

  lemma {:induction false} BodyEight(x: seq<bv8>, y: seq<bv8>)
    requires |x| == 8 && |y| == 8
    ensures BodyDiff(x, y) ==
              ByteDiff(x[0], y[0]) + ByteDiff(x[1], y[1]) + ByteDiff(x[2], y[2]) + ByteDiff(x[3], y[3])
              + ByteDiff(x[4], y[4]) + ByteDiff(x[5], y[5]) + ByteDiff(x[6], y[6]) + ByteDiff(x[7], y[7])
  {
    BodyFour(x[..4], y[..4]);
    BodyFour(x[4..], y[4..]);
    BodyConcat(x[..4], y[..4], x[4..], y[4..]);
    assert x == x[..4] + x[4..] && y == y[..4] + y[4..];
  }

  lemma {:induction false} BodyPieces(a: seq<bv8>, b: seq<bv8>, c: seq<bv8>, d: seq<bv8>,
                                      s: seq<bv8>, t: seq<bv8>, u: seq<bv8>, v: seq<bv8>)
    requires |a| == |s| && |b| == |t| && |c| == |u| && |d| == |v|
    ensures BodyDiff(a + b + c + d, s + t + u + v)
         == BodyDiff(a, s) + BodyDiff(b, t) + BodyDiff(c, u) + BodyDiff(d, v)
  {
    BodyConcat(a, s, b, t);
    BodyConcat(a + b, s + t, c, u);
    BodyConcat(a + b + c, s + t + u, d, v);
  }

  lemma {:induction false} AB0()
    ensures BodyDiff(A0, B0) == 7
  {
    assert ByteDiff(0xb5, 0xfa) == 3 && ByteDiff(0x6, 0x47) == 2;
    assert ByteDiff(0xcf, 0xcf) == 0 && ByteDiff(0x34, 0x34) == 0;
    assert ByteDiff(0x17, 0x27) == 1 && ByteDiff(0x5c, 0x5c) == 0;
    assert ByteDiff(0x20, 0x20) == 0 && ByteDiff(0x83, 0x93) == 1;
    BodyEight(A0, B0);
  }

  lemma {:induction false} AB1()
    ensures BodyDiff(A1, B1) == 9
  {
    assert ByteDiff(0x51, 0x91) == 1 && ByteDiff(0x74, 0x78) == 1;
    assert ByteDiff(0x50, 0x50) == 0 && ByteDiff(0x30, 0x31) == 1;
    assert ByteDiff(0xf6, 0xfb) == 2 && ByteDiff(0x13, 0x13) == 0;
    assert ByteDiff(0x53, 0xa3) == 2 && ByteDiff(0x4, 0x48) == 2;
    BodyEight(A1, B1);
  }

  lemma {:induction false} AB2()
    ensures BodyDiff(A2, B2) == 6
  {
    assert ByteDiff(0x8a, 0x9a) == 1 && ByteDiff(0xec, 0xfc) == 1;
    assert ByteDiff(0xd1, 0xd2) == 1 && ByteDiff(0x72, 0xb2) == 1;
    assert ByteDiff(0x75, 0x75) == 0 && ByteDiff(0x5e, 0x9e) == 1;
    assert ByteDiff(0x43, 0x43) == 0 && ByteDiff(0xc, 0xd) == 1;
    BodyEight(A2, B2);
  }

  lemma {:induction false} AB3()
    ensures BodyDiff(A3, B3) == 7
  {
    assert ByteDiff(0x4, 0x8) == 1 && ByteDiff(0xe9, 0xea) == 1;
    assert ByteDiff(0x16, 0x1a) == 1 && ByteDiff(0x95, 0x96) == 1;
    assert ByteDiff(0x11, 0x15) == 1 && ByteDiff(0x65, 0x69) == 1;
    assert ByteDiff(0xf6, 0xf6) == 0 && ByteDiff(0xc4, 0xc5) == 1;
    BodyEight(A3, B3);
  }

  lemma {:induction false} AC0()
    ensures BodyDiff(A0, C0) == 54
  {
    assert ByteDiff(0xb5, 0x26) == 4 && ByteDiff(0x6, 0x67) == 4;
    assert ByteDiff(0xcf, 0x53) == 9 && ByteDiff(0x34, 0x48) == 8;
    assert ByteDiff(0x17, 0x20) == 8 && ByteDiff(0x5c, 0x1) == 9;
    assert ByteDiff(0x20, 0x48) == 5 && ByteDiff(0x83, 0x9f) == 7;
    BodyEight(A0, C0);
  }

  lemma {:induction false} AC1()
    ensures BodyDiff(A1, C1) == 42
  {
    assert ByteDiff(0x51, 0xc5) == 4 && ByteDiff(0x74, 0xe6) == 5;
    assert ByteDiff(0x50, 0xa9) == 5 && ByteDiff(0x30, 0x5e) == 11;
    assert ByteDiff(0xf6, 0xdb) == 4 && ByteDiff(0x13, 0x35) == 5;
    assert ByteDiff(0x53, 0xa) == 5 && ByteDiff(0x4, 0x20) == 3;
    BodyEight(A1, C1);
  }

  lemma {:induction false} AC2()
    ensures BodyDiff(A2, C2) == 52
  {
    assert ByteDiff(0x8a, 0x72) == 9 && ByteDiff(0xec, 0x58) == 4;
    assert ByteDiff(0xd1, 0xe9) == 3 && ByteDiff(0x72, 0x6f) == 8;
    assert ByteDiff(0x75, 0x69) == 2 && ByteDiff(0x5e, 0x69) == 3;
    assert ByteDiff(0x43, 0xf2) == 9 && ByteDiff(0xc, 0xfe) == 14;
    BodyEight(A2, C2);
  }

  lemma {:induction false} AC3()
    ensures BodyDiff(A3, C3) == 53
  {
    assert ByteDiff(0x4, 0x30) == 7 && ByteDiff(0xe9, 0x93) == 6;
    assert ByteDiff(0x16, 0x7e) == 5 && ByteDiff(0x95, 0x64) == 3;
    assert ByteDiff(0x11, 0x5b) == 5 && ByteDiff(0x65, 0x4d) == 4;
    assert ByteDiff(0xf6, 0x83) == 9 && ByteDiff(0xc4, 0x3c) == 14;
    BodyEight(A3, C3);
  }

  lemma {:induction false} BodyAB()
    ensures BodyDiff(DigestA().code, DigestB().code) == 29
  {
    AB0();
    AB1();
    AB2();
    AB3();
    BodyPieces(A0, A1, A2, A3, B0, B1, B2, B3);
  }

  /** A text and the same with one more line. */
  lemma {:induction false} ScoreAB()
    ensures IsDigestText(TextA()) && IsDigestText(TextB())
    ensures TotalDiff(Decode(TextA()).value, Decode(TextB()).value) == 102
  {
    ReadsA();
    ReadsB();
    BodyAB();
  }

  lemma {:induction false} BodyAC()
    ensures BodyDiff(DigestA().code, DigestC().code) == 201
  {
    AC0();
    AC1();
    AC2();
    AC3();
    BodyPieces(A0, A1, A2, A3, C0, C1, C2, C3);
  }

  /** Unrelated texts. */
  lemma {:induction false} ScoreAC()
    ensures IsDigestText(TextA()) && IsDigestText(TextC())
    ensures TotalDiff(Decode(TextA()).value, Decode(TextC()).value) == 371
  {
    ReadsA();
    ReadsC();
    BodyAC();
  }
}
