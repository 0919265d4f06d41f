/** Turning the counters into a digest: quartiles, validity tests and 2-bit packing. */
module TlshFinal {
  import opened Options
  import opened Ranks
  import opened Quartile
  import opened TlshStream
  import opened TlshCodec
  import opened TlshDistance
  import opened Pearson
  import TlshLength
  import TlshBreakpoints

  const MIN_DATA_LENGTH := 50

  /** The 2-bit code of a bucket count. */
  function CodeOf(k: nat, q1: nat, q2: nat, q3: nat): (c: bv8)
    ensures c < 4
  {
    if q3 < k then 3 else if q2 < k then 2 else if q1 < k then 1 else 0
  }

  function Pack(c0: bv8, c1: bv8, c2: bv8, c3: bv8): bv8 {
    c0 + (c1 << 2) + (c2 << 4) + (c3 << 6)
  }

  /** The first bucket of four has the lowest two bits. */
  lemma {:induction false} PackValue(c0: bv8, c1: bv8, c2: bv8, c3: bv8)
    requires c0 < 4 && c1 < 4 && c2 < 4 && c3 < 4
    ensures Pack(c0, c1, c2, c3) as int == c0 as int + 4 * (c1 as int) + 16 * (c2 as int) + 64 * (c3 as int)
  {
    PackSum(c0, c1, c2, c3, Pack(c0, c1, c2, c3));
  }

  lemma {:induction false} PackSum(c0: bv8, c1: bv8, c2: bv8, c3: bv8, p: bv8)
    requires c0 < 4 && c1 < 4 && c2 < 4 && c3 < 4
    requires p == c0 + (c1 << 2) + (c2 << 4) + (c3 << 6)
    ensures p as int == c0 as int + 4 * (c1 as int) + 16 * (c2 as int) + 64 * (c3 as int)
  {
  }

  lemma {:induction false} UnpackPack(c0: bv8, c1: bv8, c2: bv8, c3: bv8)
    requires c0 < 4 && c1 < 4 && c2 < 4 && c3 < 4
    ensures var p := Pack(c0, c1, c2, c3);
            CodeAt(p, 0) == c0 && CodeAt(p, 1) == c1 && CodeAt(p, 2) == c2 && CodeAt(p, 3) == c3
  {
  }

  function PackBuckets(b: seq<nat>, i: nat, q1: nat, q2: nat, q3: nat): bv8
    requires |b| == EFF_BUCKETS && i < CODE_SIZE
  {
    Pack(CodeOf(b[4 * i], q1, q2, q3), CodeOf(b[4 * i + 1], q1, q2, q3),
         CodeOf(b[4 * i + 2], q1, q2, q3), CodeOf(b[4 * i + 3], q1, q2, q3))
  }

  function Body(b: seq<nat>, q1: nat, q2: nat, q3: nat): Code
    requires |b| == EFF_BUCKETS
  {
    seq(CODE_SIZE, i requires 0 <= i < CODE_SIZE => PackBuckets(b, i, q1, q2, q3))
  }

  function Ratio(q: nat, q3: nat): (r: bv8)
    requires q3 > 0
    ensures r < 16
  {
    ((q * 100 / q3) % 16) as bv8
  }

  function NonZero(b: seq<nat>): nat {
    |b| - CountBelow(b, 1)
  }

  /** The digest of 128 counts, or None when they are too uniform or too sparse. */
  function DigestOf(b: seq<nat>, checksum: bv8, len: nat): Option<Digest>
    requires |b| == EFF_BUCKETS
  {
    var q1, q2, q3 := Sorted(b)[P1], Sorted(b)[P2], Sorted(b)[P3];
    if len < MIN_DATA_LENGTH || q3 == 0 || NonZero(b) <= 64 then None
    else Some(Digest(checksum, TlshLength.Capture(TlshBreakpoints.TopVal(), len) as bv8,
                     Ratio(q1, q3), Ratio(q2, q3), Body(b, q1, q2, q3)))
  }

  // ----- what a successful digest means

  /** More than half the buckets hit forces the median above zero, so both ratios are
      defined and the separate test of the upper quartile never decides alone. */
  lemma {:induction false} QuartilesPositive(b: seq<nat>)
    requires |b| == EFF_BUCKETS && NonZero(b) > 64
    ensures 0 < Sorted(b)[P2] <= Sorted(b)[P3] && Sorted(b)[P1] <= Sorted(b)[P2]
  {
    OrderStatisticRank(b, P2, 1);
  }

  function QuartilesBelow(k: nat, q1: nat, q2: nat, q3: nat): nat {
    (if q1 < k then 1 else 0) + (if q2 < k then 1 else 0) + (if q3 < k then 1 else 0)
  }

  lemma {:induction false} CodeCountsQuartiles(k: nat, q1: nat, q2: nat, q3: nat)
    requires q1 <= q2 <= q3
    ensures CodeOf(k, q1, q2, q3) as int == QuartilesBelow(k, q1, q2, q3)
  {
  }

  /** The code stored for bucket n. */
  function CodeOfBucket(code: Code, n: nat): bv8
    requires n < EFF_BUCKETS
  {
    CodeAt(code[n / 4], n % 4)
  }

  lemma {:induction false} BodyHoldsCodes(b: seq<nat>, q1: nat, q2: nat, q3: nat, n: nat)
    requires |b| == EFF_BUCKETS && n < EFF_BUCKETS
    ensures CodeOfBucket(Body(b, q1, q2, q3), n) == CodeOf(b[n], q1, q2, q3)
  {
    var i := n / 4;
    UnpackPack(CodeOf(b[4 * i], q1, q2, q3), CodeOf(b[4 * i + 1], q1, q2, q3),
               CodeOf(b[4 * i + 2], q1, q2, q3), CodeOf(b[4 * i + 3], q1, q2, q3));
    assert n % 4 == 0 || n % 4 == 1 || n % 4 == 2 || n % 4 == 3;
  }

  /** How many of the first n buckets have a code of at least c. */
  function CodesAtLeast(code: Code, c: bv8, n: nat): nat
    requires n <= EFF_BUCKETS
  {
    if n == 0 then 0 else CodesAtLeast(code, c, n - 1) + (if c <= CodeOfBucket(code, n - 1) then 1 else 0)
  }

  function Threshold(c: bv8, q1: nat, q2: nat, q3: nat): nat {
    if c == 1 then q1 else if c == 2 then q2 else q3
  }

  lemma {:induction false} CodeAtLeast(k: nat, c: bv8, q1: nat, q2: nat, q3: nat)
    requires q1 <= q2 <= q3 && 1 <= c <= 3
    ensures c <= CodeOf(k, q1, q2, q3) <==> Threshold(c, q1, q2, q3) < k
  {
  }

  lemma {:induction false} CountBelowSnoc(b: seq<nat>, n: nat, v: int)
    requires n < |b|
    ensures CountBelow(b[..n + 1], v) == CountBelow(b[..n], v) + (if b[n] < v then 1 else 0)
  {
    CountBelowConcat(b[..n], [b[n]], v);
    assert b[..n + 1] == b[..n] + [b[n]];
  }

  /** The codes of a body are those of the bucket counts. */
  ghost predicate CodesOf(code: Code, b: seq<nat>, q1: nat, q2: nat, q3: nat) {
    |b| == EFF_BUCKETS && forall n: nat :: n < EFF_BUCKETS ==> CodeOfBucket(code, n) == CodeOf(b[n], q1, q2, q3)
  }

  lemma {:induction false} BodyCodes(b: seq<nat>, q1: nat, q2: nat, q3: nat)
    requires |b| == EFF_BUCKETS
    ensures CodesOf(Body(b, q1, q2, q3), b, q1, q2, q3)
  {
    forall n: nat | n < EFF_BUCKETS
      ensures CodeOfBucket(Body(b, q1, q2, q3), n) == CodeOf(b[n], q1, q2, q3)
    {
      BodyHoldsCodes(b, q1, q2, q3, n);
    }
  }

  lemma {:induction false} CodesCountAbove(code: Code, b: seq<nat>, q1: nat, q2: nat, q3: nat, c: bv8, n: nat)
    requires CodesOf(code, b, q1, q2, q3) && n <= EFF_BUCKETS && q1 <= q2 <= q3 && 1 <= c <= 3
    ensures CodesAtLeast(code, c, n) == n - CountBelow(b[..n], Threshold(c, q1, q2, q3) + 1)
  {
    if n > 0 {
      CodesCountAbove(code, b, q1, q2, q3, c, n - 1);
      assert CodeOfBucket(code, n - 1) == CodeOf(b[n - 1], q1, q2, q3);
      CodeAtLeast(b[n - 1], c, q1, q2, q3);
      CountBelowSnoc(b, n - 1, Threshold(c, q1, q2, q3) + 1);
    }
  }

  /** With an order statistic as threshold, at most the positions above it carry the code. */
  lemma {:induction false} CodesAreBalanced(code: Code, b: seq<nat>, q1: nat, q2: nat, q3: nat, c: bv8, p: nat)
    requires CodesOf(code, b, q1, q2, q3) && q1 <= q2 <= q3 && 1 <= c <= 3 && p < EFF_BUCKETS
    requires Threshold(c, q1, q2, q3) == Sorted(b)[p]
    ensures CodesAtLeast(code, c, EFF_BUCKETS) <= EFF_BUCKETS - 1 - p
  {
    CodesCountAbove(code, b, q1, q2, q3, c, EFF_BUCKETS);
    assert b[..EFF_BUCKETS] == b;
    OrderStatisticRank(b, p, Threshold(c, q1, q2, q3) + 1);
  }

  lemma {:induction false} NibbleHolds(r: nat)
    requires r < 16
    ensures (r as bv8) as int == r
  {
  }

  /** A stored ratio is the percentage of the upper quartile, modulo 16. */
  ghost predicate IsRatio(r: bv8, q: nat, q3: nat) {
    q3 > 0 && r as int == q * 100 / q3 % 16
  }

  lemma {:induction false} RatioStored(q: nat, q3: nat)
    requires q3 > 0
    ensures IsRatio(Ratio(q, q3), q, q3)
  {
    var r := q * 100 / q3 % 16;
    NibbleHolds(r);
  }

  /** The length byte is the least bucket that holds the length. */
  ghost predicate IsLengthByte(l: bv8, t: seq<nat>, len: nat)
    requires |t| == TlshLength.TABLE_SIZE
  {
    exists r: nat :: TlshLength.IsBucketOf(t, len, r) && l == r as bv8
  }

  lemma {:induction false} LengthStored(t: seq<nat>, len: nat)
    requires |t| == TlshLength.TABLE_SIZE
    ensures IsLengthByte(TlshLength.Capture(t, len) as bv8, t, len)
  {
    assert TlshLength.IsBucketOf(t, len, TlshLength.Capture(t, len));
  }

  /** The header of a digest: ordered quartiles with a positive median, and what is stored of them. */
  ghost predicate HeaderOf(d: Digest, checksum: bv8, len: nat, q1: nat, q2: nat, q3: nat) {
    && MIN_DATA_LENGTH <= len && 0 < q2 && q1 <= q2 <= q3
    && d.checksum == checksum && IsLengthByte(d.lvalue, TlshBreakpoints.TopVal(), len)
    && IsRatio(d.q1ratio, q1, q3) && IsRatio(d.q2ratio, q2, q3) && Canonical(d)
  }

  /** A successful digest comes from at least 50 bytes, with ordered quartiles and a positive
      median; its ratios, length byte and checksum are as HeaderOf says, and it stores for every
      bucket the number of quartiles strictly below its count. */
  lemma {:induction false} DigestMeaning(b: seq<nat>, checksum: bv8, len: nat)
    requires |b| == EFF_BUCKETS && DigestOf(b, checksum, len).Some?
    ensures var s, d := Sorted(b), DigestOf(b, checksum, len).value;
            && HeaderOf(d, checksum, len, s[P1], s[P2], s[P3])
            && forall n: nat :: n < EFF_BUCKETS ==>
                 CodeOfBucket(d.code, n) as int == QuartilesBelow(b[n], s[P1], s[P2], s[P3])
  {
    QuartilesPositive(b);
    var q1, q2, q3 := Sorted(b)[P1], Sorted(b)[P2], Sorted(b)[P3];
    RatioStored(q1, q3);
    RatioStored(q2, q3);
    LengthStored(TlshBreakpoints.TopVal(), len);
    BodyMeaning(b, q1, q2, q3);
  }

  lemma {:induction false} BodyMeaning(b: seq<nat>, q1: nat, q2: nat, q3: nat)
    requires |b| == EFF_BUCKETS && q1 <= q2 <= q3
    ensures forall n: nat :: n < EFF_BUCKETS ==>
              CodeOfBucket(Body(b, q1, q2, q3), n) as int == QuartilesBelow(b[n], q1, q2, q3)
  {
    var code := Body(b, q1, q2, q3);
    BodyCodes(b, q1, q2, q3);
    forall n: nat | n < EFF_BUCKETS ensures CodeOfBucket(code, n) as int == QuartilesBelow(b[n], q1, q2, q3) {
      assert CodeOfBucket(code, n) == CodeOf(b[n], q1, q2, q3);
      CodeCountsQuartiles(b[n], q1, q2, q3);
    }
  }

  /** The positions of the nonzero entries among the first n. */
  function Hit(b: seq<nat>, n: nat): set<nat>
    requires n <= |b|
  {
    set i: nat | i < n && b[i] > 0
  }

  lemma {:induction false} HitNext(b: seq<nat>, n: nat)
    requires n < |b|
    ensures |Hit(b, n + 1)| == |Hit(b, n)| + (if b[n] > 0 then 1 else 0)
  {
    assert Hit(b, n + 1) == if b[n] > 0 then Hit(b, n) + {n} else Hit(b, n);
  }

  lemma {:induction false} NonZeroIsHit(b: seq<nat>, n: nat)
    requires n <= |b|
    ensures NonZero(b[..n]) == |Hit(b, n)|
  {
    if n > 0 {
      NonZeroIsHit(b, n - 1);
      CountBelowSnoc(b, n - 1, 1);
      HitNext(b, n - 1);
    }
  }

  /** There is a digest if and only if the input has at least 50 bytes and more than 64 of the 128
      buckets were hit. */
  lemma {:induction false} DigestExists(b: seq<nat>, checksum: bv8, len: nat)
    requires |b| == 128
    ensures DigestOf(b, checksum, len).Some? <==> len >= 50 && |Hit(b, 128)| > 64
  {
    assert b[..128] == b;
    NonZeroIsHit(b, 128);
    if NonZero(b) > 64 {
      QuartilesPositive(b);
    }
  }

  /** At most a quarter of the buckets carry code 3, at most half 2 or more, and at most
      three quarters 1 or more. */
  lemma {:induction false} DigestBalanced(b: seq<nat>, checksum: bv8, len: nat, c: bv8)
    requires |b| == EFF_BUCKETS && DigestOf(b, checksum, len).Some? && 1 <= c <= 3
    ensures CodesAtLeast(DigestOf(b, checksum, len).value.code, c, EFF_BUCKETS)
              <= if c == 3 then 32 else if c == 2 then 64 else 96
  {
    QuartilesPositive(b);
    var s := Sorted(b);
    var q1, q2, q3 := s[P1], s[P2], s[P3];
    BodyCodes(b, q1, q2, q3);
    CodesAreBalanced(Body(b, q1, q2, q3), b, q1, q2, q3, c, if c == 1 then P1 else if c == 2 then P2 else P3);
  }

  // ----- the finalizer

  method CountNonZero(bucket: array<nat>) returns (nonzero: nat)
    requires bucket.Length >= EFF_BUCKETS
    ensures nonzero == NonZero(bucket[..EFF_BUCKETS])
  {
    nonzero := 0;
    for i := 0 to CODE_SIZE
      invariant nonzero == NonZero(bucket[..4 * i])
    {
      for j := 0 to 4
        invariant nonzero == NonZero(bucket[..4 * i + j])
      {
        var n := 4 * i + j;
        CountBelowSnoc(bucket[..], n, 1);
        assert bucket[..][..n] == bucket[..n] && bucket[..][..n + 1] == bucket[..n + 1];
        if bucket[n] > 0 {
          nonzero := nonzero + 1;
        }
      }
    }
  }

  method PackBody(bucket: array<nat>, q1: nat, q2: nat, q3: nat) returns (code: Code)
    requires bucket.Length >= EFF_BUCKETS
    ensures code == Body(bucket[..EFF_BUCKETS], q1, q2, q3)
  {
    var tmp := new bv8[CODE_SIZE];
    ghost var b := bucket[..EFF_BUCKETS];
    for i := 0 to CODE_SIZE
      invariant forall k :: 0 <= k < i ==> tmp[k] == PackBuckets(b, k, q1, q2, q3)
    {
      var h: bv8 := CodeOf(bucket[4 * i], q1, q2, q3);
      h := h + (CodeOf(bucket[4 * i + 1], q1, q2, q3) << 2);
      h := h + (CodeOf(bucket[4 * i + 2], q1, q2, q3) << 4);
      h := h + (CodeOf(bucket[4 * i + 3], q1, q2, q3) << 6);
      tmp[i] := h;
    }
    code := tmp[..];
    assert code == Body(b, q1, q2, q3);
  }

  // ----- finalizing a context

  /** The 256 counters of a whole sequence. */
  function Counters(v: Table, data: seq<bv8>): (b: seq<nat>)
    ensures |b| == BUCKET_COUNT && Counts(v, b, data)
  {
    Wrap(Tally(HitsOf(v, data)))
  }

  function Wrap(s: seq<nat>): (w: seq<nat>)
    ensures |w| == |s| && forall k :: 0 <= k < |s| ==> w[k] == s[k] % U32
  {
    seq(|s|, k requires 0 <= k < |s| => s[k] % U32)
  }

  /** The digest of a whole sequence, in one pass: the reference the streaming code meets. */
  function DigestOfData(v: Table, data: seq<bv8>): Option<Digest> {
    DigestOf(Counters(v, data)[..EFF_BUCKETS], ChecksumOf(v, data), |data|)
  }

  /** Only the first 128 counters count. */
  lemma {:induction false} FrontExists(c: seq<nat>, checksum: bv8, len: nat)
    requires |c| >= EFF_BUCKETS
    ensures DigestOf(c[..EFF_BUCKETS], checksum, len).Some? <==> len >= 50 && |Hit(c, 128)| > 64
  {
    DigestExists(c[..EFF_BUCKETS], checksum, len);
    assert Hit(c, 128) == Hit(c[..EFF_BUCKETS], 128);
  }

  lemma {:induction false} DataDigestExists(v: Table, data: seq<bv8>)
    ensures DigestOfData(v, data).Some? <==> |data| >= 50 && |Hit(Counters(v, data), 128)| > 64
  {
    FrontExists(Counters(v, data), ChecksumOf(v, data), |data|);
  }

  lemma {:induction false} CountersAre(v: Table, b: seq<nat>, data: seq<bv8>)
    requires Counts(v, b, data)
    ensures b == Counters(v, data)
  {
  }

  method Assemble(bucket: array<nat>, checksum: bv8, len: nat) returns (r: Option<Digest>)
    requires bucket.Length >= EFF_BUCKETS && len >= MIN_DATA_LENGTH
    ensures r == DigestOf(bucket[..EFF_BUCKETS], checksum, len)
    ensures r.Some? <==> |Hit(bucket[..], 128)| > 64
  {
    FrontExists(bucket[..], checksum, len);
    assert bucket[..][..EFF_BUCKETS] == bucket[..EFF_BUCKETS];
    var q1, q2, q3 := FindQuartile(bucket);
    if q3 == 0 {
      return None;
    }
    var nonzero := CountNonZero(bucket);
    if nonzero <= 4 * CODE_SIZE / 2 {
      return None;
    }
    var code := PackBody(bucket, q1, q2, q3);
    var l := TlshLength.LCapturing(TlshBreakpoints.TopVal(), len);
    r := Some(Digest(checksum, l as bv8, Ratio(q1, q3), Ratio(q2, q3), code));
  }

  /** Closes a context: the digest of everything it was fed, or None; the counters are freed. */
  method Final(c: Context) returns (r: Option<Digest>)
    requires c.Valid()
    modifies c
    ensures c.bucket == null
    ensures r == if old(c.allocFailed) then None else DigestOfData(c.v, old(c.fed))
    ensures r.Some? <==> !old(c.allocFailed) && |old(c.fed)| >= 50 && |Hit(Counters(c.v, old(c.fed)), 128)| > 64
  {
    DataDigestExists(c.v, c.fed);
    if c.allocFailed || c.dataLen < MIN_DATA_LENGTH || c.bucket == null {
      c.bucket := null;
      return None;
    }
    CountersAre(c.v, c.bucket[..], c.fed);
    assert c.bucket[..][..EFF_BUCKETS] == c.bucket[..EFF_BUCKETS];
    r := Assemble(c.bucket, c.checksum, c.dataLen);
    c.bucket := null;
  }
}
