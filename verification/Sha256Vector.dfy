/** Eight rounds and eight schedule words at a time, for any word operations. */
module Sha256Rows {
  import opened Sha256Spec

  /** Rows of eight round constants and eight schedule words. */
  predicate Rows(p: Params, w: Words64, at: nat, k: Words8, x: Words8) {
    at <= 56 && forall j :: 0 <= j < 8 ==> p.k[at + j] == k[j] && w[at + j] == x[j]
  }

  function FourRounds(p: Params, v: Vars, k: Words8, x: Words8, j: nat): Vars
    requires j <= 4
  {
    var v1 := Round(p, v, k[j], x[j]);
    var v2 := Round(p, v1, k[j + 1], x[j + 1]);
    Round(p, Round(p, v2, k[j + 2], x[j + 2]), k[j + 3], x[j + 3])
  }

  lemma {:induction false} RoundsStep(p: Params, w: Words64, v: Vars, at: nat, k: Words8, x: Words8, j: nat)
    requires Rows(p, w, at, k, x) && j < 8
    ensures Rounds(p, w, v, at + j + 1) == Round(p, Rounds(p, w, v, at + j), k[j], x[j])
  {
    assert p.k[at + j] == k[j];
  }

  lemma {:induction false} RoundsFour(p: Params, w: Words64, v: Vars, at: nat, k: Words8, x: Words8, j: nat)
    requires Rows(p, w, at, k, x) && j <= 4
    ensures Rounds(p, w, v, at + j + 4) == FourRounds(p, Rounds(p, w, v, at + j), k, x, j)
  {
    RoundsStep(p, w, v, at, k, x, j);
    RoundsStep(p, w, v, at, k, x, j + 1);
    RoundsStep(p, w, v, at, k, x, j + 2);
    RoundsStep(p, w, v, at, k, x, j + 3);
  }

  lemma {:induction false} RoundsEight(p: Params, w: Words64, v: Vars, at: nat, k: Words8, x: Words8)
    requires Rows(p, w, at, k, x)
    ensures Rounds(p, w, v, at + 8) == FourRounds(p, FourRounds(p, Rounds(p, w, v, at), k, x, 0), k, x, 4)
  {
    RoundsFour(p, w, v, at, k, x, 0);
    RoundsFour(p, w, v, at, k, x, 4);
  }

  function WordFrom(p: Params, a: Word, b: Word, c: Word, d: Word): Word {
    Add4(p.add, a, p.smallSigma0(b), c, p.smallSigma1(d))
  }

  function Among(x: Words8, y: Words8, i: nat): Word
    requires i < 16
  {
    if i < 8 then x[i] else y[i - 8]
  }

  /** Word j of row z, after the rows x and y. */
  predicate WordFollows(p: Params, x: Words8, y: Words8, z: Words8, j: nat)
    requires j < 8
  {
    z[j] == WordFrom(p, x[j], Among(x, y, j + 1), Among(y, z, j + 1), Among(y, z, j + 6))
  }

  ghost predicate Follows(p: Params, x: Words8, y: Words8, z: Words8) {
    forall j: nat :: j < 8 ==> WordFollows(p, x, y, z, j)
  }

  lemma {:induction false} AllFollow(p: Params, x: Words8, y: Words8, z: Words8)
    requires WordFollows(p, x, y, z, 0) && WordFollows(p, x, y, z, 1) && WordFollows(p, x, y, z, 2)
    requires WordFollows(p, x, y, z, 3) && WordFollows(p, x, y, z, 4) && WordFollows(p, x, y, z, 5)
    requires WordFollows(p, x, y, z, 6) && WordFollows(p, x, y, z, 7)
    ensures Follows(p, x, y, z)
  {
  }

  predicate RowAt(u: seq<Word>, at: nat, x: Words8) {
    at + 8 <= |u| && forall j :: at <= j < at + 8 ==> u[j] == x[j - at]
  }

  predicate Continues(p: Params, u: seq<Word>, n: nat)
    requires 16 <= n < |u|
  {
    u[n] == WordFrom(p, u[n - 16], u[n - 15], u[n - 7], u[n - 2])
  }

  lemma {:induction false} AmongRows(u: seq<Word>, at: nat, x: Words8, y: Words8, i: nat)
    requires RowAt(u, at, x) && RowAt(u, at + 8, y) && i < 16
    ensures u[at + i] == Among(x, y, i)
  {
  }

  lemma {:induction false} WordContinues(p: Params, u: seq<Word>, at: nat, x: Words8, y: Words8, z: Words8, j: nat)
    requires RowAt(u, at, x) && RowAt(u, at + 8, y) && RowAt(u, at + 16, z)
    requires j < 8 && WordFollows(p, x, y, z, j)
    ensures Continues(p, u, at + 16 + j)
  {
    AmongRows(u, at, x, y, j);
    AmongRows(u, at, x, y, j + 1);
    AmongRows(u, at + 8, y, z, j + 1);
    AmongRows(u, at + 8, y, z, j + 6);
    AmongRows(u, at + 8, y, z, j + 8);
  }

  lemma {:induction false} RowContinues(p: Params, u: seq<Word>, at: nat, x: Words8, y: Words8, z: Words8, n: nat)
    requires RowAt(u, at, x) && RowAt(u, at + 8, y) && RowAt(u, at + 16, z) && Follows(p, x, y, z)
    requires at + 16 <= n < at + 24
    ensures Continues(p, u, n)
  {
    var j := n - at - 16;
    assert WordFollows(p, x, y, z, j);
    WordContinues(p, u, at, x, y, z, j);
  }

  lemma {:induction false} ScheduleIs(p: Params, b: Block, u: seq<Word>, n: nat)
    requires 16 <= n <= |u| && Schedule(p, b, 16) == u[..16]
    requires forall i :: 16 <= i < |u| ==> Continues(p, u, i)
    ensures Schedule(p, b, n) == u[..n]
  {
    if n > 16 {
      ScheduleIs(p, b, u, n - 1);
      assert Continues(p, u, n - 1);
      assert u[..n] == u[..n - 1] + [u[n - 1]];
    }
  }
}

/** The test vector "abc" of FIPS 180-4, computed by proof: it fixes the word operations, the constants
    and the order of every byte and word. The tables are the message schedule in rows of eight words
    and the working variables after every four rounds. */
module Sha256Vector {
  import opened Octets
  import opened Sha256Rows
  import opened Sha256Spec
  import opened Sha256Words
  import Sha256Bytes
  import Sha256Stream

  const W0: Words8 := [0x61626380, 0x00000000, 0x00000000, 0x00000000, 0x00000000, 0x00000000, 0x00000000, 0x00000000]
  const W1: Words8 := [0x00000000, 0x00000000, 0x00000000, 0x00000000, 0x00000000, 0x00000000, 0x00000000, 0x00000018]
  const W2: Words8 := [0x61626380, 0x000f0000, 0x7da86405, 0x600003c6, 0x3e9d7b78, 0x0183fc00, 0x12dcbfdb, 0xe2e2c38e]
  const W3: Words8 := [0xc8215c1a, 0xb73679a2, 0xe5bc3909, 0x32663c5b, 0x9d209d67, 0xec8726cb, 0x702138a4, 0xd3b7973b]
  const W4: Words8 := [0x93f5997f, 0x3b68ba73, 0xaff4ffc1, 0xf10a5c62, 0x0a8b3996, 0x72af830a, 0x9409e33e, 0x24641522]
  const W5: Words8 := [0x9f47bf94, 0xf0a64f5a, 0x3e246a79, 0x27333ba3, 0x0c4763f2, 0x840abf27, 0x7a290d5d, 0x065c43da]
  const W6: Words8 := [0xfb3e89cb, 0xcc7617db, 0xb9e66c34, 0xa9993667, 0x84badedd, 0xc21462bc, 0x1487472c, 0xb20f7a99]
  const W7: Words8 := [0xef57b9cd, 0xebe6b238, 0x9fe3095e, 0x78bc8d4b, 0xa43fcf15, 0x668b2ff8, 0xeeaba2cc, 0x12b1edeb]

  const V0 := Vars(0x6a09e667, 0xbb67ae85, 0x3c6ef372, 0xa54ff53a, 0x510e527f, 0x9b05688c, 0x1f83d9ab, 0x5be0cd19)
  const V4 := Vars(0xd550f666, 0xc8c347a7, 0x5a6ad9ad, 0x5d6aebcd, 0x24e00850, 0xf92939eb, 0x78ce7989, 0xfa2a4622)
  const V8 := Vars(0x85a07b5f, 0xe5030380, 0x2b4209f5, 0x04409a6a, 0x0c657a79, 0x9b27a401, 0x714260ad, 0x43ada245)
  const V12 := Vars(0xf71fc5a9, 0x4798a3f4, 0x8c87346b, 0x8e04ecb9, 0x816fd6e9, 0x436b23e8, 0x1cc92596, 0x32ca2d8c)
  const V16 := Vars(0xb0fa238e, 0xc0645fde, 0xd932eb16, 0x87912990, 0x07590dcd, 0x0b92f20c, 0x745a48de, 0x1e578218)
  const V20 := Vars(0xe1f20c33, 0xfe777bbf, 0xc2fbd9d1, 0x21da9a9b, 0xb0638179, 0xcc899961, 0x846ee454, 0x8034229c)
  const V24 := Vars(0xc5d53d8d, 0xa7a3623f, 0xc2606d6d, 0x9dc68b63, 0xaa47c347, 0x49f5114a, 0xe1257970, 0x8ada8930)
  const V28 := Vars(0x77d37528, 0xb62ec4bc, 0xcde8037d, 0x1c2c2838, 0xedffbff8, 0xc74c6516, 0x14383d8e, 0x2823ef91)
  const V32 := Vars(0x73b33bf5, 0xea992a22, 0xa0060b30, 0x363482c9, 0xba591112, 0x0109ab3a, 0xade79437, 0x6112a3b7)
  const V36 := Vars(0x65a0cfe4, 0xa9a7738c, 0xfe604df5, 0x98e12507, 0xf4b002d6, 0x085f3833, 0x59249dd3, 0x9cd9f5f6)
  const V40 := Vars(0x79ea687a, 0x6dc57a8a, 0x34df1604, 0x41a65cb1, 0x1efbc0a0, 0xf0781bc8, 0xa507a53d, 0x0772a26b)
  const V44 := Vars(0x9d4baf93, 0x17aa0dfe, 0xdf46652f, 0xd6670766, 0xfda24c2e, 0xdecd4715, 0x838b2711, 0x26352d63)
  const V48 := Vars(0x4172328d, 0xa14c14b0, 0x72ab4b91, 0x26628815, 0xfecf0bc6, 0xd57b94a9, 0xb7755da1, 0xa80f11f0)
  const V52 := Vars(0x886e7a22, 0x7a0508a1, 0xf11bfaa8, 0x05757ceb, 0x49231c1e, 0x52f1ccf7, 0x6e5c390c, 0xbd714038)
  const V56 := Vars(0x38cc9913, 0x3ec45cdb, 0xf5702fdb, 0x101fd28f, 0x54cb266b, 0xe50e1b4f, 0x9f4787c3, 0x529e7d00)
  const V60 := Vars(0xb6ae8fff, 0xffb70472, 0xc062d46f, 0xfcd1887b, 0xb21bad3d, 0x6d83bfc6, 0x7e44008e, 0x9b5e906c)
  const V64 := Vars(0x506e3058, 0xd39a2165, 0x04d24d6c, 0xb85e2ce9, 0x5ef50f24, 0xfb121210, 0x948d25b6, 0x961f4894)

  lemma {:induction false} Rounds0()
    ensures FourRounds(Fips(), V0, K0, W0, 0) == V4
  {
  }

  lemma {:induction false} Rounds4()
    ensures FourRounds(Fips(), V4, K0, W0, 4) == V8
  {
  }

  lemma {:induction false} Rounds8()
    ensures FourRounds(Fips(), V8, K1, W1, 0) == V12
  {
  }

  lemma {:induction false} Rounds12()
    ensures FourRounds(Fips(), V12, K1, W1, 4) == V16
  {
  }

  lemma {:induction false} Rounds16()
    ensures FourRounds(Fips(), V16, K2, W2, 0) == V20
  {
  }

  lemma {:induction false} Rounds20()
    ensures FourRounds(Fips(), V20, K2, W2, 4) == V24
  {
  }

  lemma {:induction false} Rounds24()
    ensures FourRounds(Fips(), V24, K3, W3, 0) == V28
  {
  }

  lemma {:induction false} Rounds28()
    ensures FourRounds(Fips(), V28, K3, W3, 4) == V32
  {
  }

  lemma {:induction false} Rounds32()
    ensures FourRounds(Fips(), V32, K4, W4, 0) == V36
  {
  }

  lemma {:induction false} Rounds36()
    ensures FourRounds(Fips(), V36, K4, W4, 4) == V40
  {
  }

  lemma {:induction false} Rounds40()
    ensures FourRounds(Fips(), V40, K5, W5, 0) == V44
  {
  }

  lemma {:induction false} Rounds44()
    ensures FourRounds(Fips(), V44, K5, W5, 4) == V48
  {
  }

  lemma {:induction false} Rounds48()
    ensures FourRounds(Fips(), V48, K6, W6, 0) == V52
  {
  }

  lemma {:induction false} Rounds52()
    ensures FourRounds(Fips(), V52, K6, W6, 4) == V56
  {
  }

  lemma {:induction false} Rounds56()
    ensures FourRounds(Fips(), V56, K7, W7, 0) == V60
  {
  }

  lemma {:induction false} Rounds60()
    ensures FourRounds(Fips(), V60, K7, W7, 4) == V64
  {
  }

  lemma {:induction false} Words2()
    ensures Follows(Fips(), W0, W1, W2)
  {
    AllFollow(Fips(), W0, W1, W2);
  }

  lemma {:induction false} Words3()
    ensures Follows(Fips(), W1, W2, W3)
  {
    AllFollow(Fips(), W1, W2, W3);
  }

  lemma {:induction false} Words4()
    ensures Follows(Fips(), W2, W3, W4)
  {
    AllFollow(Fips(), W2, W3, W4);
  }

  lemma {:induction false} Words5()
    ensures Follows(Fips(), W3, W4, W5)
  {
    AllFollow(Fips(), W3, W4, W5);
  }

  lemma {:induction false} Words6()
    ensures Follows(Fips(), W4, W5, W6)
  {
    AllFollow(Fips(), W4, W5, W6);
  }

  lemma {:induction false} Words7()
    ensures Follows(Fips(), W5, W6, W7)
  {
    AllFollow(Fips(), W5, W6, W7);
  }

  function Words(): Words64 {
    W0 + W1 + W2 + W3 + W4 + W5 + W6 + W7
  }

  lemma {:induction false} WordsRows()
    ensures RowAt(Words(), 0, W0)
    ensures RowAt(Words(), 8, W1)
    ensures RowAt(Words(), 16, W2)
    ensures RowAt(Words(), 24, W3)
    ensures RowAt(Words(), 32, W4)
    ensures RowAt(Words(), 40, W5)
    ensures RowAt(Words(), 48, W6)
    ensures RowAt(Words(), 56, W7)
  {
  }

  lemma {:induction false} Row0(n: nat)
    requires n == 0
    ensures Rows(Fips(), Words(), n, K0, W0)
  {
    WordsRows();
  }

  lemma {:induction false} Row8(n: nat)
    requires n == 8
    ensures Rows(Fips(), Words(), n, K1, W1)
  {
    WordsRows();
  }

  lemma {:induction false} Row16(n: nat)
    requires n == 16
    ensures Rows(Fips(), Words(), n, K2, W2)
  {
    WordsRows();
  }

  lemma {:induction false} Row24(n: nat)
    requires n == 24
    ensures Rows(Fips(), Words(), n, K3, W3)
  {
    WordsRows();
  }

  lemma {:induction false} Row32(n: nat)
    requires n == 32
    ensures Rows(Fips(), Words(), n, K4, W4)
  {
    WordsRows();
  }

  lemma {:induction false} Row40(n: nat)
    requires n == 40
    ensures Rows(Fips(), Words(), n, K5, W5)
  {
    WordsRows();
  }

  lemma {:induction false} Row48(n: nat)
    requires n == 48
    ensures Rows(Fips(), Words(), n, K6, W6)
  {
    WordsRows();
  }

  lemma {:induction false} Row56(n: nat)
    requires n == 56
    ensures Rows(Fips(), Words(), n, K7, W7)
  {
    WordsRows();
  }

  lemma {:induction false} Continue2(u: seq<Word>, n: nat)
    requires RowAt(u, 0, W0) && RowAt(u, 8, W1) && RowAt(u, 16, W2) && 16 <= n < 24
    ensures Continues(Fips(), u, n)
  {
    Words2();
    RowContinues(Fips(), u, 0, W0, W1, W2, n);
  }

  lemma {:induction false} Continue3(u: seq<Word>, n: nat)
    requires RowAt(u, 8, W1) && RowAt(u, 16, W2) && RowAt(u, 24, W3) && 24 <= n < 32
    ensures Continues(Fips(), u, n)
  {
    Words3();
    RowContinues(Fips(), u, 8, W1, W2, W3, n);
  }

  lemma {:induction false} Continue4(u: seq<Word>, n: nat)
    requires RowAt(u, 16, W2) && RowAt(u, 24, W3) && RowAt(u, 32, W4) && 32 <= n < 40
    ensures Continues(Fips(), u, n)
  {
    Words4();
    RowContinues(Fips(), u, 16, W2, W3, W4, n);
  }

  lemma {:induction false} Continue5(u: seq<Word>, n: nat)
    requires RowAt(u, 24, W3) && RowAt(u, 32, W4) && RowAt(u, 40, W5) && 40 <= n < 48
    ensures Continues(Fips(), u, n)
  {
    Words5();
    RowContinues(Fips(), u, 24, W3, W4, W5, n);
  }

  lemma {:induction false} Continue6(u: seq<Word>, n: nat)
    requires RowAt(u, 32, W4) && RowAt(u, 40, W5) && RowAt(u, 48, W6) && 48 <= n < 56
    ensures Continues(Fips(), u, n)
  {
    Words6();
    RowContinues(Fips(), u, 32, W4, W5, W6, n);
  }

  lemma {:induction false} Continue7(u: seq<Word>, n: nat)
    requires RowAt(u, 40, W5) && RowAt(u, 48, W6) && RowAt(u, 56, W7) && 56 <= n < 64
    ensures Continues(Fips(), u, n)
  {
    Words7();
    RowContinues(Fips(), u, 40, W5, W6, W7, n);
  }

  lemma {:induction false} WordsContinue(n: nat)
    requires 16 <= n < 64
    ensures Continues(Fips(), Words(), n)
  {
    WordsRows();
    if n < 24 {
      Continue2(Words(), n);
    } else if n < 32 {
      Continue3(Words(), n);
    } else if n < 40 {
      Continue4(Words(), n);
    } else if n < 48 {
      Continue5(Words(), n);
    } else if n < 56 {
      Continue6(Words(), n);
    } else {
      Continue7(Words(), n);
    }
  }

  // ----- the padded message

  function ABC(): seq<bv8> {
    [0x61, 0x62, 0x63]
  }

  lemma {:induction false} Length24(j: nat)
    requires j < 8
    ensures LengthBytes(24)[j] == if j == 7 then 0x18 else 0
  {
    Sha256Bytes.SmallNumber(24, 7 - j, 0x18);
  }

  lemma {:induction false} AbcByte(j: nat)
    requires 4 <= j < 64
    ensures |Pad(ABC())| == 64 && Pad(ABC())[..4] == ABC() + [0x80]
    ensures Pad(ABC())[j] == if j == 63 then 0x18 else 0
  {
    if j < 56 {
      Sha256Bytes.ZerosAreZero(52, j - 4);
    } else {
      Length24(j - 56);
    }
  }

  lemma {:induction false} AbcWord(b: Block, i: nat)
    requires b == Pad(ABC()) && i < 16
    ensures WordAt(Fips(), b, i) == Words()[i]
  {
    WordsRows();
    if i == 0 {
      AbcByte(4);
      assert b[0] == b[..4][0] && b[1] == b[..4][1] && b[2] == b[..4][2] && b[3] == b[..4][3];
    } else {
      AbcByte(4 * i);
      AbcByte(4 * i + 1);
      AbcByte(4 * i + 2);
      AbcByte(4 * i + 3);
    }
  }

  lemma {:induction false} HeadIs(p: Params, b: Block, u: seq<Word>, n: nat)
    requires n <= 16 <= |u| && forall i: nat :: i < 16 ==> WordAt(p, b, i) == u[i]
    ensures Schedule(p, b, n) == u[..n]
  {
    if n > 0 {
      HeadIs(p, b, u, n - 1);
      assert u[..n] == u[..n - 1] + [u[n - 1]];
    }
  }

  lemma {:induction false} AbcSchedule(b: Block, n: nat)
    requires b == Pad(ABC()) && n == 64
    ensures Schedule(Fips(), b, n) == Words()
  {
    forall i: nat | i < 16 ensures WordAt(Fips(), b, i) == Words()[i] {
      AbcWord(b, i);
    }
    HeadIs(Fips(), b, Words(), 16);
    forall n | 16 <= n < 64 ensures Continues(Fips(), Words(), n) {
      WordsContinue(n);
    }
    ScheduleIs(Fips(), b, Words(), n);
    assert Words()[..n] == Words();
  }

  // ----- the digest

  lemma {:induction false} From0(n: nat)
    requires n == 8
    ensures Rounds(Fips(), Words(), V0, n) == V8
  {
    assert n - 8 == 0;
    Row0(n - 8);
    Rounds0();
    Rounds4();
    RoundsEight(Fips(), Words(), V0, n - 8, K0, W0);
  }

  lemma {:induction false} From8(n: nat)
    requires n == 16
    ensures Rounds(Fips(), Words(), V0, n) == V16
  {
    From0(n - 8);
    Row8(n - 8);
    Rounds8();
    Rounds12();
    RoundsEight(Fips(), Words(), V0, n - 8, K1, W1);
  }

  lemma {:induction false} From16(n: nat)
    requires n == 24
    ensures Rounds(Fips(), Words(), V0, n) == V24
  {
    From8(n - 8);
    Row16(n - 8);
    Rounds16();
    Rounds20();
    RoundsEight(Fips(), Words(), V0, n - 8, K2, W2);
  }

  lemma {:induction false} From24(n: nat)
    requires n == 32
    ensures Rounds(Fips(), Words(), V0, n) == V32
  {
    From16(n - 8);
    Row24(n - 8);
    Rounds24();
    Rounds28();
    RoundsEight(Fips(), Words(), V0, n - 8, K3, W3);
  }

  lemma {:induction false} From32(n: nat)
    requires n == 40
    ensures Rounds(Fips(), Words(), V0, n) == V40
  {
    From24(n - 8);
    Row32(n - 8);
    Rounds32();
    Rounds36();
    RoundsEight(Fips(), Words(), V0, n - 8, K4, W4);
  }

  lemma {:induction false} From40(n: nat)
    requires n == 48
    ensures Rounds(Fips(), Words(), V0, n) == V48
  {
    From32(n - 8);
    Row40(n - 8);
    Rounds40();
    Rounds44();
    RoundsEight(Fips(), Words(), V0, n - 8, K5, W5);
  }

  lemma {:induction false} From48(n: nat)
    requires n == 56
    ensures Rounds(Fips(), Words(), V0, n) == V56
  {
    From40(n - 8);
    Row48(n - 8);
    Rounds48();
    Rounds52();
    RoundsEight(Fips(), Words(), V0, n - 8, K6, W6);
  }

  lemma {:induction false} From56(n: nat)
    requires n == 64
    ensures Rounds(Fips(), Words(), V0, n) == V64
  {
    From48(n - 8);
    Row56(n - 8);
    Rounds56();
    Rounds60();
    RoundsEight(Fips(), Words(), V0, n - 8, K7, W7);
  }

  function AbcHash(): Words8 {
    [0xba7816bf, 0x8f01cfea, 0x414140de, 0x5dae2223, 0xb00361a3, 0x96177a9c, 0xb410ff61, 0xf20015ad]
  }

  lemma {:induction false} AbcAddBack()
    ensures Open(InitialHash()) == V0 && AddBack(Fips(), InitialHash(), V64) == AbcHash()
  {
  }

  lemma {:induction false} AbcCompress(b: Block)
    requires b == Pad(ABC())
    ensures Compress(Fips(), InitialHash(), b) == AbcHash()
  {
    AbcSchedule(b, |Fips().k|);
    From56(|Fips().k|);
    AbcAddBack();
  }

  lemma {:induction false} OneBlock(p: Params, msg: seq<bv8>, b: Block, h: Words8)
    requires b == Pad(msg) && Compress(p, p.h0, b) == h
    ensures Sha256(p, msg) == DigestBytes(h)
  {
    Sha256Stream.FoldSnoc(CompressWith(p), p.h0, [], b);
    assert [] + b == b;
  }

  lemma {:induction false} AbcBytes()
    ensures Sha256(Fips(), ABC()) == DigestBytes(AbcHash())
  {
    AbcByte(4);
    var b: Block := Pad(ABC());
    AbcCompress(b);
    OneBlock(Fips(), ABC(), b, AbcHash());
  }

  /** The digest of "abc" is, word by word, the published one. */
  lemma {:induction false} AbcDigest(i: nat)
    requires i < 8
    ensures Value(Sha256(Fips(), [0x61, 0x62, 0x63])[4 * i..4 * i + 4]) ==
              [0xba7816bf, 0x8f01cfea, 0x414140de, 0x5dae2223, 0xb00361a3, 0x96177a9c, 0xb410ff61, 0xf20015ad][i]
  {
    AbcBytes();
    Sha256Bytes.DigestWordValue(AbcHash(), i);
  }
}
