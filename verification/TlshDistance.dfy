/** The distance score of two TLSH digests. The 256 by 256 table of body distances is given by
    its per-pair rule: the difference of two 2-bit codes, with 3 counted as 6. */
module TlshDistance {
  import opened Options
  import opened TlshCodec

  const RANGE_LVALUE := 256
  const RANGE_QRATIO := 16
  const LENGTH_MULT := 12
  const QRATIO_MULT := 12

  /** Circular distance on 0..r-1. */
  function ModDiff(x: nat, y: nat, r: nat): int {
    var dl := if y > x then y - x else x - y;
    var dr := if y > x then x + r - y else y + r - x;
    if dl > dr then dr else dl
  }

  lemma {:induction false} ModDiffMetric(x: nat, y: nat, r: nat)
    requires x < r && y < r
    ensures 0 <= ModDiff(x, y, r) <= r / 2
    ensures ModDiff(x, y, r) == ModDiff(y, x, r)
    ensures ModDiff(x, y, r) == 0 <==> x == y
  {
  }

  predicate Reaches(x: nat, k: nat, y: nat, r: nat) {
    x + k == y || x + k == y + r
  }

  /** It is the fewest steps around the circle, in either direction, from one to the other. */
  lemma {:induction false} ModDiffIsShortest(x: nat, y: nat, r: nat, k: nat)
    requires x < r && y < r
    ensures ModDiff(x, y, r) >= 0
    ensures Reaches(x, ModDiff(x, y, r), y, r) || Reaches(y, ModDiff(x, y, r), x, r)
    ensures Reaches(x, k, y, r) || Reaches(y, k, x, r) ==> ModDiff(x, y, r) <= k
  {
  }

  function PairDiff(a: bv8, b: bv8): (d: nat)
    requires a < 4 && b < 4
    ensures d <= 6
  {
    var d := if a > b then (a - b) as int else (b - a) as int;
    if d == 3 then 6 else d
  }

  lemma {:induction false} PairDiffZero(a: bv8, b: bv8)
    requires a < 4 && b < 4
    ensures PairDiff(a, b) == PairDiff(b, a)
    ensures PairDiff(a, b) == 0 <==> a == b
  {
  }

  /** The four 2-bit codes of a body byte. */
  function CodeAt(x: bv8, j: nat): (c: bv8)
    requires j < 4
    ensures c < 4
  {
    if j == 0 then x & 3 else if j == 1 then (x >> 2) & 3 else if j == 2 then (x >> 4) & 3 else (x >> 6) & 3
  }

  lemma {:induction false} CodesDetermineByte(x: bv8, y: bv8)
    requires CodeAt(x, 0) == CodeAt(y, 0) && CodeAt(x, 1) == CodeAt(y, 1)
    requires CodeAt(x, 2) == CodeAt(y, 2) && CodeAt(x, 3) == CodeAt(y, 3)
    ensures x == y
  {
    assert x == (x & 3) | (((x >> 2) & 3) << 2) | (((x >> 4) & 3) << 4) | (((x >> 6) & 3) << 6);
    assert y == (y & 3) | (((y >> 2) & 3) << 2) | (((y >> 4) & 3) << 4) | (((y >> 6) & 3) << 6);
  }

  function CodeDiff(x: bv8, y: bv8, j: nat): (d: nat)
    requires j < 4
    ensures d <= 6
  {
    PairDiff(CodeAt(x, j), CodeAt(y, j))
  }

  lemma {:induction false} CodeDiffMetric(x: bv8, y: bv8, j: nat)
    requires j < 4
    ensures CodeDiff(x, y, j) == CodeDiff(y, x, j)
    ensures CodeDiff(x, y, j) == 0 <==> CodeAt(x, j) == CodeAt(y, j)
  {
    PairDiffZero(CodeAt(x, j), CodeAt(y, j));
  }

  /** The distance of the first j codes of two body bytes. */
  function CodesDiff(x: bv8, y: bv8, j: nat): nat
    requires j <= 4
  {
    if j == 0 then 0 else CodesDiff(x, y, j - 1) + CodeDiff(x, y, j - 1)
  }

  lemma {:induction false} CodesDiffMetric(x: bv8, y: bv8, j: nat)
    requires j <= 4
    ensures CodesDiff(x, y, j) == CodesDiff(y, x, j) && CodesDiff(x, y, j) <= 6 * j
    ensures CodesDiff(x, y, j) == 0 <==> forall k: nat :: k < j ==> CodeAt(x, k) == CodeAt(y, k)
  {
    if j > 0 {
      CodesDiffMetric(x, y, j - 1);
      CodeDiffMetric(x, y, j - 1);
    }
  }

  function ByteDiff(x: bv8, y: bv8): nat {
    CodesDiff(x, y, 4)
  }

  lemma {:induction false} ByteDiffMetric(x: bv8, y: bv8)
    ensures ByteDiff(x, y) == ByteDiff(y, x) && ByteDiff(x, y) <= 24
    ensures ByteDiff(x, y) == 0 <==> x == y
  {
    CodesDiffMetric(x, y, 4);
    if ByteDiff(x, y) == 0 {
      CodesDetermineByte(x, y);
    }
  }

  function BodyDiff(x: seq<bv8>, y: seq<bv8>): nat
    requires |x| == |y|
  {
    var n := |x|;
    if n == 0 then 0 else BodyDiff(x[..n - 1], y[..n - 1]) + ByteDiff(x[n - 1], y[n - 1])
  }

  lemma {:induction false} BodyDiffMetric(x: seq<bv8>, y: seq<bv8>)
    requires |x| == |y|
    ensures BodyDiff(x, y) == BodyDiff(y, x) && BodyDiff(x, y) <= 24 * |x|
    ensures BodyDiff(x, y) == 0 <==> x == y
  {
    var n := |x|;
    if n > 0 {
      BodyDiffMetric(x[..n - 1], y[..n - 1]);
      ByteDiffMetric(x[n - 1], y[n - 1]);
      assert x == x[..n - 1] + [x[n - 1]] && y == y[..n - 1] + [y[n - 1]];
    }
  }

  method HDistance(x: seq<bv8>, y: seq<bv8>) returns (diff: nat)
    requires |x| == |y|
    ensures diff == BodyDiff(x, y)
  {
    diff := 0;
    for i := 0 to |x|
      invariant diff == BodyDiff(x[..i], y[..i])
    {
      assert x[..i + 1][..i] == x[..i] && y[..i + 1][..i] == y[..i];
      diff := diff + ByteDiff(x[i], y[i]);
    }
    assert x[..|x|] == x && y[..|y|] == y;
  }

  function LengthScore(l: int): int {
    if l == 0 then 0 else if l == 1 then 1 else l * LENGTH_MULT
  }

  function RatioScore(q: int): int {
    if q <= 1 then q else (q - 1) * QRATIO_MULT
  }

  /** The parts of a comparison: three circular distances, the checksum flag, the body. */
  function Score(l: int, q1: int, q2: int, sumDiffers: bool, body: int): int {
    LengthScore(l) + RatioScore(q1) + RatioScore(q2) + (if sumDiffers then 1 else 0) + body
  }

  lemma {:induction false} ScoreRange(l: int, q1: int, q2: int, sumDiffers: bool, body: int)
    requires 0 <= l <= 128 && 0 <= q1 <= 8 && 0 <= q2 <= 8 && 0 <= body <= 768
    ensures 0 <= Score(l, q1, q2, sumDiffers, body) <= 2473
    ensures Score(l, q1, q2, sumDiffers, body) == 0 <==> l == q1 == q2 == body == 0 && !sumDiffers
  {
  }

  function LengthDistance(a: Digest, b: Digest): int {
    ModDiff(a.lvalue as int, b.lvalue as int, RANGE_LVALUE)
  }

  function RatioDistance(q: bv8, p: bv8): int {
    ModDiff(q as int, p as int, RANGE_QRATIO)
  }

  function TotalDiff(a: Digest, b: Digest): int {
    Score(LengthDistance(a, b), RatioDistance(a.q1ratio, b.q1ratio), RatioDistance(a.q2ratio, b.q2ratio),
          a.checksum != b.checksum, BodyDiff(a.code, b.code))
  }

  lemma {:induction false} ByteValue(x: bv8, y: bv8)
    ensures 0 <= x as int < 256 && 0 <= y as int < 256
    ensures x as int == y as int <==> x == y
  {
  }

  lemma {:induction false} RatioDistanceMetric(q: bv8, p: bv8)
    requires q < 16 && p < 16
    ensures 0 <= RatioDistance(q, p) <= 8 && RatioDistance(q, p) == RatioDistance(p, q)
    ensures RatioDistance(q, p) == 0 <==> q == p
  {
    assert q as int < 16 && p as int < 16;
    ModDiffMetric(q as int, p as int, RANGE_QRATIO);
  }

  lemma {:induction false} LengthDistanceMetric(a: Digest, b: Digest)
    ensures 0 <= LengthDistance(a, b) <= 128 && LengthDistance(a, b) == LengthDistance(b, a)
    ensures LengthDistance(a, b) == 0 <==> a.lvalue == b.lvalue
  {
    ByteValue(a.lvalue, b.lvalue);
    LengthDiff(a.lvalue as int, b.lvalue as int);
  }

  lemma {:induction false} LengthDiff(x: nat, y: nat)
    requires x < RANGE_LVALUE && y < RANGE_LVALUE
    ensures 0 <= ModDiff(x, y, RANGE_LVALUE) <= 128
    ensures ModDiff(x, y, RANGE_LVALUE) == ModDiff(y, x, RANGE_LVALUE)
    ensures ModDiff(x, y, RANGE_LVALUE) == 0 <==> x == y
  {
    ModDiffMetric(x, y, RANGE_LVALUE);
  }

  /** On canonical digests the score is symmetric, at most 2473, and zero exactly on equals. */
  lemma {:induction false} TotalDiffLaws(a: Digest, b: Digest)
    requires Canonical(a) && Canonical(b)
    ensures TotalDiff(a, b) == TotalDiff(b, a)
    ensures 0 <= TotalDiff(a, b) <= 2473
    ensures TotalDiff(a, b) == 0 <==> a == b
  {
    LengthDistanceMetric(a, b);
    RatioDistanceMetric(a.q1ratio, b.q1ratio);
    RatioDistanceMetric(a.q2ratio, b.q2ratio);
    BodyDiffMetric(a.code, b.code);
    ScoreRange(LengthDistance(a, b), RatioDistance(a.q1ratio, b.q1ratio), RatioDistance(a.q2ratio, b.q2ratio),
               a.checksum != b.checksum, BodyDiff(a.code, b.code));
  }

  lemma {:induction false} OppositeBytes(x: seq<bv8>, y: seq<bv8>)
    requires |x| == |y| && forall i :: 0 <= i < |x| ==> x[i] == 0 && y[i] == 255
    ensures BodyDiff(x, y) == 24 * |x|
  {
    var n := |x|;
    if n > 0 {
      OppositeBytes(x[..n - 1], y[..n - 1]);
      OppositeByte();
    }
  }

  lemma {:induction false} OppositeByte()
    ensures ByteDiff(0, 255) == 24
  {
    assert CodeDiff(0, 255, 0) == CodeDiff(0, 255, 1) == CodeDiff(0, 255, 2) == CodeDiff(0, 255, 3) == 6;
  }

  /** The bound is met by the digests that are as far apart as can be in every part. */
  lemma {:induction false} FarthestDigests(a: Digest, b: Digest)
    requires a == Digest(0, 0, 0, 0, seq(CODE_SIZE, _ => 0))
    requires b == Digest(1, 128, 8, 8, seq(CODE_SIZE, _ => 255))
    ensures TotalDiff(a, b) == 2473
  {
    OppositeBytes(a.code, b.code);
  }

  method Accumulate(ldiff: int, q1diff: int, q2diff: int, sumDiffers: bool, body: int) returns (diff: int)
    ensures diff == Score(ldiff, q1diff, q2diff, sumDiffers, body)
  {
    if ldiff == 0 {
      diff := 0;
    } else if ldiff == 1 {
      diff := 1;
    } else {
      diff := ldiff * LENGTH_MULT;
    }
    diff := diff + if q1diff <= 1 then q1diff else (q1diff - 1) * QRATIO_MULT;
    diff := diff + if q2diff <= 1 then q2diff else (q2diff - 1) * QRATIO_MULT;
    if sumDiffers {
      diff := diff + 1;
    }
    diff := diff + body;
  }

  method TotalDiffOf(a: Digest, b: Digest) returns (diff: int)
    ensures diff == TotalDiff(a, b)
  {
    var body := HDistance(a.code, b.code);
    diff := Accumulate(LengthDistance(a, b), RatioDistance(a.q1ratio, b.q1ratio),
                       RatioDistance(a.q2ratio, b.q2ratio), a.checksum != b.checksum, body);
  }

  /** Comparing two texts: None for -1. On acceptable texts the answer is symmetric, bounded,
      and zero exactly when they are the same digest up to letter case. */
  method DiffTexts(s: string, t: string) returns (r: Option<int>)
    ensures r.Some? <==> IsDigestText(s) && IsDigestText(t)
    ensures r.Some? ==> r.value == TotalDiff(Decode(s).value, Decode(t).value)
    ensures r.Some? ==> 0 <= r.value <= 2473
    ensures r.Some? ==> (r.value == 0 <==> Upper(s) == Upper(t))
  {
    var a := FromHex(s);
    if a.None? {
      return None;
    }
    var b := FromHex(t);
    if b.None? {
      return None;
    }
    var diff := TotalDiffOf(a.value, b.value);
    TotalDiffLaws(a.value, b.value);
    SameTextSameDigest(s, t);
    r := Some(diff);
  }

  lemma {:induction false} SameTextSameDigest(s: string, t: string)
    requires IsDigestText(s) && IsDigestText(t)
    ensures Decode(s).value == Decode(t).value <==> Upper(s) == Upper(t)
  {
    EncodeDecode(s);
    EncodeDecode(t);
    DecodeEncode(Decode(s).value);
    DecodeEncode(Decode(t).value);
  }
}
